/**
 * The scanner itself: an object that owns the source text, a cursor into
 * it and the growing list of lexemes, and a driving loop that moves the
 * cursor forward one token (or one space) at a time.
 */
module Lexer {
  import opened Classifier
  import opened Lexing
  import opened LexingFacts

  class Scanner {
    /** The read position in `source`. */
    var currentPosition: nat
    /** The text being scanned; it never changes. */
    const source: string
    /** The lexemes emitted so far, in source order. */
    var tokens: seq<string>
    /** The range of `source` each lexeme was cut from, in step with `tokens`. */
    ghost var spans: seq<Span>

    /** The cursor stays within the text and each lexeme is the slice its span names. */
    ghost predicate Valid()
      reads this
    {
      currentPosition <= |source| &&
      InBounds(spans, |source|) &&
      tokens == Lexemes(source, spans)
    }

    /** A scanner at the start of `input`, with nothing emitted yet. */
    constructor (input: string)
      ensures Valid()
      ensures source == input && currentPosition == 0
      ensures tokens == [] && spans == []
    {
      currentPosition := 0;
      source := input;
      tokens := [];
      spans := [];
    }

    /** The cursor has reached the end of the text exactly when there is no character under it. */
    function IsEof(): (eof: bool)
      reads this
      ensures eof <==> GetCharAt(currentPosition).None?
    {
      currentPosition >= |source|
    }

    /** The character at `position`, or None past the end of the text. */
    function GetCharAt(position: nat): (c: Option<char>)
      ensures c.None? <==> position >= |source|
      ensures position < |source| ==> c == Some(source[position])
    {
      if position >= |source| then None else Some(source[position])
    }

    /** Appends the slice [start, end) of the text as the next lexeme. */
    method ProduceToken(start: nat, end: nat)
      requires Valid()
      requires start <= end <= |source|
      modifies this`tokens, this`spans
      ensures Valid()
      ensures tokens == old(tokens) + [source[start..end]]
      ensures spans == old(spans) + [Span(start, end)]
    {
      LexemesAppend(source, spans, [Span(start, end)]);
      tokens := tokens + [source[start..end]];
      spans := spans + [Span(start, end)];
    }

    /**
     * The length of the digit run starting at `digitPosition`: every
     * character it covers is a digit, and the character after it is absent
     * or not a digit (maximal munch).
     */
    method ScanNumber(digitPosition: nat) returns (offset: nat)
      ensures offset == RunLength(source, digitPosition)
    {
      offset := 0;
      while Recognize(GetCharAt(digitPosition + offset)).Int?
        invariant offset > 0 ==> digitPosition + offset <= |source|
        invariant forall i :: digitPosition <= i < digitPosition + offset ==> IsDigit(source[i])
        invariant RunLength(source, digitPosition) == offset + RunLength(source, digitPosition + offset)
        decreases |source| - (digitPosition + offset)
      {
        offset := offset + 1;
      }
    }

    /**
     * One pass of the scanning loop, at a cursor inside the text: classify
     * the character under the cursor and act on it. An operator becomes a
     * one-character lexeme, a digit starts a maximal digit-run lexeme, a
     * space is stepped over; on any other character nothing changes and
     * that character and its offset are returned.
     */
    method Step() returns (failure: Option<ScanError>)
      requires Valid() && !IsEof()
      modifies this
      ensures Valid()
      ensures failure.Some? <==> !InAlphabet(source[old(currentPosition)])
      ensures failure.Some? ==>
        currentPosition == old(currentPosition) && spans == old(spans) && tokens == old(tokens) &&
        failure == Some(Unrecognized(source[currentPosition], currentPosition))
      ensures IsOperator(source[old(currentPosition)]) ==>
        currentPosition == old(currentPosition) + 1 &&
        spans == old(spans) + [Span(old(currentPosition), currentPosition)]
      ensures IsDigit(source[old(currentPosition)]) ==>
        currentPosition == old(currentPosition) + RunLength(source, old(currentPosition)) &&
        spans == old(spans) + [Span(old(currentPosition), currentPosition)]
      ensures source[old(currentPosition)] == ' ' ==>
        currentPosition == old(currentPosition) + 1 && spans == old(spans)
    {
      var symbol := GetCharAt(currentPosition);
      var kind := Recognize(symbol);
      if kind == Unknown {
        return Some(Unrecognized(symbol.value, currentPosition));
      } else if kind.IsOperator() {
        ProduceToken(currentPosition, currentPosition + 1);
        currentPosition := currentPosition + 1;
      } else if kind.Int? {
        var startPosition := currentPosition;
        var offsetEndNumber := ScanNumber(startPosition);
        currentPosition := currentPosition + offsetEndNumber;
        ProduceToken(startPosition, currentPosition);
      } else if kind == Ws {
        currentPosition := currentPosition + 1;
      } else {
        assert false;
      }
      return None;
    }

    /**
     * Scans from the cursor to the end of the text. On success the cursor
     * ends at the end of the text and the lexemes of the scan are appended;
     * on an unrecognized character the scan stops there, returning that
     * character and its offset, with the lexemes before it appended.
     */
    method Tokenize() returns (failure: Option<ScanError>)
      requires Valid()
      modifies this
      ensures Valid()
      ensures spans == old(spans) + Lex(source, old(currentPosition)).spans
      ensures tokens == old(tokens) + Lexemes(source, Lex(source, old(currentPosition)).spans)
      ensures failure == Lex(source, old(currentPosition)).error
      ensures currentPosition == if failure.Some? then failure.value.offset else |source|
    {
      ghost var start := currentPosition;
      ghost var run := Lex(source, start);
      while !IsEof()
        invariant Valid()
        invariant start <= currentPosition
        invariant spans + Lex(source, currentPosition).spans == old(spans) + run.spans
        invariant Lex(source, currentPosition).error == run.error
        decreases |source| - currentPosition
      {
        ghost var here := currentPosition;
        ghost var before := spans;
        failure := Step();
        if failure.Some? {
          LexForeignStep(source, here);
          assert spans + [] == spans;
          LexemesAppend(source, old(spans), run.spans);
          return;
        }
        StepAgreesWithLex(source, here, currentPosition, before, spans);
      }
      LexemesAppend(source, old(spans), run.spans);
      return None;
    }
  }

  /**
   * One pass of the loop, as `Step` states it case by case, is one step of
   * the reference scan: the spans emitted so far followed by the scan from
   * the new cursor are those before followed by the scan from the old one,
   * and the scan still ends the same way.
   */
  lemma StepAgreesWithLex(s: string, c: nat, c': nat, before: seq<Span>, after: seq<Span>)
    requires c < |s| && InAlphabet(s[c]) && c' <= |s|
    requires IsOperator(s[c]) ==> c' == c + 1 && after == before + [Span(c, c')]
    requires IsDigit(s[c]) ==> c' == c + RunLength(s, c) && after == before + [Span(c, c')]
    requires s[c] == ' ' ==> c' == c + 1 && after == before
    ensures c < c'
    ensures after + Lex(s, c').spans == before + Lex(s, c).spans
    ensures Lex(s, c').error == Lex(s, c).error
  {
    if s[c] == ' ' {
      LexSpaceStep(s, c);
    } else if IsOperator(s[c]) {
      LexOperatorStep(s, c);
      EmitAgrees(before, Span(c, c'), Lex(s, c), Lex(s, c'));
    } else {
      LexNumberStep(s, c, c' - c);
      EmitAgrees(before, Span(c, c'), Lex(s, c), Lex(s, c'));
    }
  }

  /** A scan that emits `sp` and then goes on as `next`, appended after `before`. */
  lemma EmitAgrees(before: seq<Span>, sp: Span, here: LexRun, next: LexRun)
    requires here == Emit(sp, next)
    ensures (before + [sp]) + next.spans == before + here.spans
    ensures next.error == here.error
  {
    assert (before + [sp]) + next.spans == before + ([sp] + next.spans);
  }

  /** Builds a scanner over `input`, runs it, and hands back its lexemes or its error. */
  method RunScanner(input: string) returns (r: Result<seq<string>>)
    ensures r == Tokenize(input)
  {
    var scanner := new Scanner(input);
    var failure := scanner.Tokenize();
    assert scanner.tokens == Lexemes(input, Lex(input, 0).spans) by {
      assert [] + Lexemes(input, Lex(input, 0).spans) == Lexemes(input, Lex(input, 0).spans);
    }
    if failure.Some? {
      r := Err(failure.value);
    } else {
      r := Ok(scanner.tokens);
    }
  }
}
