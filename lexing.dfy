/**
 * The scanner's behaviour as functions: what a scan from a given offset
 * emits and where it stops. The imperative Scanner class in module Lexer is
 * proved to follow these definitions, and module LexingFacts proves what
 * they guarantee.
 */
module Lexing {
  import opened Classifier

  /** The half-open range [start, end) of source offsets a token was cut from. */
  datatype Span = Span(start: nat, end: nat)

  /** The scanner's one failure: a character outside the alphabet, and its offset. */
  datatype ScanError = Unrecognized(ch: char, offset: nat)

  datatype Result<T> = Ok(value: T) | Err(error: ScanError)

  /** What a scan emits: its spans in order, and the error that stopped it, if any. */
  datatype LexRun = LexRun(spans: seq<Span>, error: Option<ScanError>)

  /** Every span is a well-formed range of a text of length n. */
  predicate InBounds(spans: seq<Span>, n: nat) {
    spans == [] || (spans[0].start <= spans[0].end <= n && InBounds(spans[1..], n))
  }

  /**
   * The spans are non-empty, lie in [lo, hi), and each one starts at or
   * after the end of the one before it: in order and non-overlapping.
   */
  predicate Chained(spans: seq<Span>, lo: nat, hi: nat) {
    spans == [] ||
    (lo <= spans[0].start < spans[0].end <= hi && Chained(spans[1..], spans[0].end, hi))
  }

  /** The substrings of `s` the spans delimit, in the same order: one per span. */
  function Lexemes(s: string, spans: seq<Span>): (ts: seq<string>)
    requires InBounds(spans, |s|)
    ensures |ts| == |spans|
  {
    if spans == [] then [] else [s[spans[0].start..spans[0].end]] + Lexemes(s, spans[1..])
  }

  /** The lexemes of two span lists one after the other are those of the two lists concatenated. */
  lemma {:induction false} LexemesAppend(s: string, a: seq<Span>, b: seq<Span>)
    requires InBounds(a, |s|) && InBounds(b, |s|)
    ensures InBounds(a + b, |s|)
    ensures Lexemes(s, a + b) == Lexemes(s, a) + Lexemes(s, b)
  {
    if a == [] {
      assert a + b == b;
    } else {
      assert (a + b)[1..] == a[1..] + b;
      LexemesAppend(s, a[1..], b);
    }
  }

  /**
   * Length of the longest run of digits starting at offset p (maximal munch):
   * every character it covers is a digit and the one after it is not.
   */
  function RunLength(s: string, p: nat): (k: nat)
    decreases |s| - p
    ensures p < |s| && IsDigit(s[p]) ==> k > 0
    ensures k > 0 ==> p + k <= |s|
    ensures forall i :: p <= i < p + k ==> IsDigit(s[i])
    ensures p + k < |s| ==> !IsDigit(s[p + k])
  {
    if p < |s| && IsDigit(s[p]) then 1 + RunLength(s, p + 1) else 0
  }

  /** Adds span `sp` in front of what the rest of a scan emits. */
  function Emit(sp: Span, rest: LexRun): LexRun {
    LexRun([sp] + rest.spans, rest.error)
  }

  /**
   * The scan from offset p to the end of `s`: an operator is a one-character
   * token, a digit is the start of a maximal digit-run token, a space is
   * skipped, and any other character stops the scan with an error.
   */
  function Lex(s: string, p: nat): (r: LexRun)
    requires p <= |s|
    decreases |s| - p
    ensures Chained(r.spans, p, |s|) && InBounds(r.spans, |s|)
    ensures r.error.Some? ==> p <= r.error.value.offset < |s|
  {
    if p >= |s| then LexRun([], None)
    else if IsOperator(s[p]) then Emit(Span(p, p + 1), Lex(s, p + 1))
    else if IsDigit(s[p]) then
      var k := RunLength(s, p);
      Emit(Span(p, p + k), Lex(s, p + k))
    else if s[p] == ' ' then Lex(s, p + 1)
    else LexRun([], Some(Unrecognized(s[p], p)))
  }

  /** A scan from p emits at most one span per character from p on. */
  lemma {:induction false} LexCount(s: string, p: nat)
    requires p <= |s|
    ensures |Lex(s, p).spans| <= |s| - p
    decreases |s| - p
  {
    if p < |s| {
      if IsOperator(s[p]) || s[p] == ' ' {
        LexCount(s, p + 1);
      } else if IsDigit(s[p]) {
        LexCount(s, p + RunLength(s, p));
      }
    }
  }

  /** The offset a scan from p stops at: the offending offset, or the end of input. */
  function StopOffset(s: string, p: nat): (stop: nat)
    requires p <= |s|
    ensures p <= stop <= |s|
    ensures Lex(s, p).error.None? <==> stop == |s|
  {
    var r := Lex(s, p);
    if r.error.Some? then r.error.value.offset else |s|
  }

  /**
   * The whole input scanned from offset 0: its lexemes, or the error. There
   * is at most one lexeme per character, and an error points inside the text.
   */
  function Tokenize(s: string): (r: Result<seq<string>>)
    ensures r.Ok? ==> |r.value| <= |s|
    ensures r.Err? ==> r.error.offset < |s|
  {
    var r := Lex(s, 0);
    LexCount(s, 0);
    if r.error.Some? then Err(r.error.value) else Ok(Lexemes(s, r.spans))
  }
}
