# Arithmetic-expression scanner, modelled in Dafny

The repository is a small Rust crate (`lexer/src/lib.rs`) whose one component,
`Scanner`, turns a line of arithmetic such as `1500+89 / 6 -9*45` into its
lexemes. It works in one pass:

- A cursor moves forward over the source text.
- Each of `+ - * /` becomes a one-character lexeme.
- A run of decimal digits becomes one lexeme, cut as long as possible (maximal munch).
- A space is stepped over.
- Any other character aborts the scan.

The lexemes are slices of the source, pushed in order onto a vector the scanner owns.

The model has five modules:

- `Classifier` (`classifier.dfy`): the token kinds and the pure classifier `Recognize`.
- `Lexing` (`lexing.dfy`): the reference definitions, all as functions over a
  string.
  - `RunLength` is the maximal digit run.
  - `Lex` is the scan from an offset. It returns the `(start, end)` spans it
    cuts and the error that stops it, if any.
  - `Lexemes` gives the slices the spans name.
  - `Tokenize` is the whole-input result: the lexemes, or the error.
- `Lexer` (`lexer.dfy`): the scanner itself, as the class `Scanner`.
  - It has the fields the source updates in place: the cursor, the immutable
    source and the token list. A ghost list of spans runs in step with the tokens.
  - Each method is proved against the reference definitions. The loop of
    `scan_number` becomes `ScanNumber` and is proved equal to `RunLength`.
  - One pass of the `tokenize` loop becomes `Step`. The loop itself becomes
    `Tokenize`, proved to append exactly the spans and lexemes of `Lex` from
    the cursor and to return the error `Lex` reports.
- `LexingFacts` (`lexing_facts.dfy`): what a scan guarantees.
  - Spans lie in order, never overlap and are never empty.
  - Every token is one operator character or one maximal digit run.
  - The scan fails exactly at the first character outside the alphabet.
  - The offsets covered by tokens are exactly the non-space offsets.
  - On success the tokens, concatenated, are the input with its spaces removed.
  - A second scan from where the first stopped adds nothing.
  - It also proves the crate's own test input.
- `Spacing` (`spacing.dfy`): spaces only separate.
  - A scan depends on nothing before its starting offset.
  - Inserting (or removing) a space anywhere it does not split a digit run
    changes neither the token list nor whether the scan fails.

The `panic!` on an unrecognized character is modelled as a returned error
`Unrecognized(ch, offset)`. The scanner is left as it was at that moment: the
cursor is on the offending character, and the tokens before it stay in the list.

The code does not keep number tokens apart: for `"1 2"` it emits `["1", "2"]`
(`LexingFacts.TokenizeAdjacentNumbers`). What it does guarantee is maximal munch:

- a number token is never preceded or followed by a digit in the text (`LexTokenShapes`);
- a space between two digits is the only thing that splits a number (`Spacing.SpaceSplitsNumber`).

## Model

| member | source | states |
|---|---|---|
| Classifier.Recognize | lexer/src/lib.rs:35-48 | each kind is produced exactly for its characters: a digit gives `Int` of that digit's value (at most 9, and `DigitChar` of the value gives the digit back); `+ - * /` give `Add`, `Min`, `Mult`, `Div`; a space gives `Ws`; no character gives `Eof`; `Unknown` is given exactly for a character outside digits, operators and space |
| Classifier.RecognizeDigitChar | lexer/src/lib.rs:37-39 | classifying the character of digit value v gives `Int(v)`: the payload is the digit's value |
| Lexer.Scanner.constructor | lexer/src/lib.rs:23-29 | a new scanner holds the input, has its cursor at offset 0 and no tokens, and satisfies the scanner invariant |
| Lexer.Scanner.IsEof | lexer/src/lib.rs:31-33 | the cursor is at the end exactly when there is no character under it |
| Lexer.Scanner.GetCharAt | lexer/src/lib.rs:55-60 | no character exactly when the position is at or past the end of the text; otherwise the character at that position |
| Lexer.Scanner.ProduceToken | lexer/src/lib.rs:50-53 | the token list grows by exactly the slice [start, end) of the source and nothing else changes; the invariant (each token is the slice of its span) is kept |
| Lexer.Scanner.ScanNumber | lexer/src/lib.rs:62-70 | the loop returns the length of the maximal digit run at the position (`RunLength`, whose own contract gives: all digits, at least one when the first character is a digit, within the text, and followed by no digit) |
| Lexer.Scanner.Step | lexer/src/lib.rs:74-102 | one loop pass at a cursor inside the text, case by case: it fails exactly on a character outside the alphabet, and then nothing changes and that character and its offset are returned; an operator moves the cursor by one and pushes exactly the span of that character; a digit moves the cursor to the end of the maximal digit run and pushes exactly the span of that run; a space moves the cursor by one and pushes nothing; the scanner invariant is kept |
| Lexer.StepAgreesWithLex | lexer/src/lib.rs:81-99 | a pass as `Step` states it is one step of the reference scan: the cursor strictly advances, the spans so far followed by the scan from the new cursor are the spans before followed by the scan from the old cursor, and the scan ends the same way |
| Lexer.Scanner.Tokenize | lexer/src/lib.rs:72-104 | appends to the spans and tokens exactly what the reference scan from the cursor emits, returns its error, and leaves the cursor at the end of the text on success or on the offending character on failure; the loop terminates because every pass strictly advances the cursor, which never passes the end |
| Lexer.RunScanner | lexer/src/lib.rs:114-119 | building a scanner over an input and running it gives exactly the reference result `Tokenize(input)` |
| Lexing.RunLength | lexer/src/lib.rs:62-70 | the maximal digit run at p: positive when the character at p is a digit, inside the text, all digits, and the next character (if any) is not a digit |
| Lexing.Lex | lexer/src/lib.rs:72-104 | the spans of a scan from p are non-empty, lie in [p, end of text), and each starts at or after the end of the one before; an error's offset lies in [p, end of text) |
| Lexing.StopOffset | lexer/src/lib.rs:73-79 | where a scan from p stops lies between p and the end of the text, and is the end exactly when the scan meets no unrecognized character |
| Lexing.Lexemes | lexer/src/lib.rs:50-53 | the slices a list of spans cuts from the text, one lexeme per span |
| Lexing.LexCount | lexer/src/lib.rs:73-99 | a scan from p emits at most one span per character from p on, since every span is non-empty and spans do not overlap |
| Lexing.Tokenize | lexer/src/lib.rs:72-104 | the whole-input result of creating a scanner and running it: on success at most one lexeme per character of the input, on failure an error whose offset lies inside the input |
| Lexing.LexemesAppend | lexer/src/lib.rs:50-53 | appending spans appends their lexemes: pushing one slice at a time builds the list of slices of all spans |
| LexingFacts.ChainedOrdered | lexer/src/lib.rs:82-94 | chained spans are each non-empty and inside the bounds, and any earlier span ends at or before any later one starts |
| LexingFacts.LexSpansOrdered | lexer/src/lib.rs:82-94 | every token span of a scan from p is a non-empty range inside [p, end of text), and spans never overlap or go backwards |
| LexingFacts.LexTokenShapes | lexer/src/lib.rs:81-95 | every token span is one operator character or a maximal digit run (no digit right after it), and a digit run never starts right after a digit, so a number is never split across two tokens |
| LexingFacts.ShapedLexemes | lexer/src/lib.rs:81-95 | the lexemes of such spans are each a single operator character or a non-empty string of digits |
| LexingFacts.LexFailsAtFirstForeign | lexer/src/lib.rs:76-79 | a scan from p fails if and only if some character at or after p is outside the alphabet; the error then names the first such character and its offset, and everything before it is in the alphabet |
| LexingFacts.LexCovers | lexer/src/lib.rs:81-99 | up to where the scan stops, an offset lies inside some token span exactly when its character is not a space: spaces are consumed without a token and nothing else is skipped |
| LexingFacts.LexReassembles | lexer/src/lib.rs:81-99 | the lexemes of a scan, concatenated, are the text from the start offset to where the scan stops with its spaces removed: nothing but spaces is dropped, nothing is duplicated, order is kept |
| LexingFacts.LexRescan | lexer/src/lib.rs:72-104 | scanning again from where a scan stopped emits no further spans and ends with the same outcome (the same error, or none) |
| LexingFacts.LexemesAt | lexer/src/lib.rs:50-53 | there is one lexeme per span and each is the slice of the source its span names |
| LexingFacts.TokenizeMeaning | lexer/src/lib.rs:72-104 | the whole-input scan succeeds if and only if every character is a digit, an operator or a space; on success each token is an operator character or a digit string and the tokens concatenated are the input without spaces; on failure the error is the first foreign character and its offset |
| LexingFacts.TokenizeSourceExample | lexer/src/lib.rs:114-119 | the crate's test input `"1500+89 / 6 -9*45  "` gives `["1500","+","89","/","6","-","9","*","45"]` |
| LexingFacts.TokenizeAdjacentNumbers | lexer/src/lib.rs:89-99 | `"1 2"` gives the two adjacent number tokens `["1","2"]` |
| LexingFacts.TokenizeForeignExample | lexer/src/lib.rs:76-79 | `"3~4"` fails with `'~'` at offset 1 even though a valid token comes after it |
| LexingFacts.LexBlank | lexer/src/lib.rs:97-99 | a scan over nothing but spaces emits no span and meets no error |
| LexingFacts.TokenizeBlank | lexer/src/lib.rs:97-99 | empty input, and input of only spaces, gives no tokens and no error |
| Spacing.RunLengthSuffix | lexer/src/lib.rs:62-70 | the digit run at offset d + p of a text is the run at p of the text from d on: it does not look back |
| Spacing.LexSuffix | lexer/src/lib.rs:72-104 | a scan from offset d + p equals the scan of the text from d on, started at p, with every span and the error offset moved by d: the scan never looks at anything before its cursor |
| Spacing.LexemesShift | lexer/src/lib.rs:50-53 | moved spans cut the same lexemes out of the longer text as the original spans cut out of the suffix |
| Spacing.LexemesSuffix | lexer/src/lib.rs:72-104 | the lexemes of a scan of `x + y` from offset \|x\| are those of a scan of `y` alone, and both fail or both succeed |
| Spacing.RunLengthPrefix | lexer/src/lib.rs:62-70 | a digit run starting in `a` in the text `a + b` stops where it stops in `a`, or, when it reaches the end of `a`, goes on by the run at the start of `b` |
| Spacing.SpaceInsertedFrom | lexer/src/lib.rs:89-99 | from any offset in `a`, scans of `a + b` and of `a + " " + b` emit the same lexemes and agree on failing, when `a` does not end in a digit where `b` starts with one |
| Spacing.TokenizeSpaceInserted | lexer/src/lib.rs:89-99 | inserting or removing one space at a place that does not split a digit run changes neither whether the whole-input scan succeeds nor, on success, its token list |
| Spacing.SpaceSplitsNumber | lexer/src/lib.rs:89-99 | between two digits a space does matter: `"12"` gives `["12"]`, `"1 2"` gives `["1","2"]` |

## Left out

- `Cell`/`RefCell` interior mutability (`get`, `set`, `borrow_mut`, `into_inner`): the cursor and the token list are plain mutable fields of `Scanner`, and `RunScanner` reads the tokens directly.
- `panic!` at lexer/src/lib.rs:78 does not abort anything here. `Scanner.Tokenize` returns `Some(Unrecognized(ch, offset))`, keeps the tokens pushed before it and leaves the cursor on the offending character; the panic message text is not modelled.
- Byte offsets: Rust's `len()` and `source[position..position + 1]` count UTF-8 bytes. The model counts characters, and every character outside ASCII digits, operators and space is `Unknown`. Before the first such character the two offsets agree. Rust panics on the first multi-byte character (a slice off a character boundary) and the model fails there, so only the panic's cause differs.
- `usize` overflow of `current_position + offset` is not modelled: the model's integers are unbounded, and every offset stays at most the text length.
- The numeric value of an integer: `Recognize` carries the digit's value as the source does, but `tokenize` ignores it, and so does the scan.
- The `EOF` arm of `tokenize` (lexer/src/lib.rs:101): the loop guard rules it out, and `Step` asserts it unreachable.
- `Lexer.Scanner.Step` is not a function of the source: it is the body of the `tokenize` loop (lexer/src/lib.rs:74-102) split out as a method. Its contract states its effect case by case, and `StepAgreesWithLex` carries that effect over to the reference scan for the loop's invariant.
- `Lexer.Scanner.ScanNumber`: its contract gives the digit-run length through `Lexing.RunLength`. The four maximal-munch facts are stated on `RunLength` rather than repeated on the method.
- `Lexing.Lex` decides on character classes (`IsOperator`, `IsDigit`, space) rather than through `Recognize`. `Scanner.Step` goes through `Recognize` as the source does. Its per-case contract is tied to `Lex` by `StepAgreesWithLex`.
- The test harness (`#[cfg(test)]`) is not modelled as code. Its one example is proved as `TokenizeSourceExample`, and `RunScanner` is shown to compute `Tokenize`.
