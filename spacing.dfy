/**
 * Spaces only separate: a scan depends on nothing before its starting
 * offset, and one more space anywhere it does not split a run of digits
 * leaves the lexemes, and whether the scan fails, unchanged.
 */
module Spacing {
  import opened Classifier
  import opened Lexing
  import opened LexingFacts

  /** The spans moved d offsets to the right. */
  function ShiftSpans(spans: seq<Span>, d: nat): (moved: seq<Span>)
    ensures |moved| == |spans|
  {
    if spans == [] then []
    else [Span(spans[0].start + d, spans[0].end + d)] + ShiftSpans(spans[1..], d)
  }

  /** A scan result moved d offsets to the right: its spans and its error offset. */
  function ShiftRun(r: LexRun, d: nat): LexRun {
    LexRun(ShiftSpans(r.spans, d),
           match r.error
           case None => None
           case Some(e) => Some(Unrecognized(e.ch, e.offset + d)))
  }

  lemma ShiftEmit(sp: Span, r: LexRun, d: nat)
    ensures ShiftRun(Emit(sp, r), d) == Emit(Span(sp.start + d, sp.end + d), ShiftRun(r, d))
  {
    assert ([sp] + r.spans)[1..] == r.spans;
  }

  /** A digit run read at offset d + p of `s` is the run read at p of the text from d on. */
  lemma {:induction false} RunLengthSuffix(s: string, d: nat, p: nat)
    requires d + p <= |s|
    ensures RunLength(s, d + p) == RunLength(s[d..], p)
    decreases |s| - (d + p)
  {
    if d + p < |s| {
      assert s[d..][p] == s[d + p];
      if IsDigit(s[d + p]) {
        RunLengthSuffix(s, d, p + 1);
      }
    }
  }

  /** An operator met at the same character in `s` (at d + p) and in `y` (at p). */
  lemma ShiftOperator(s: string, y: string, d: nat, p: nat)
    requires |s| == d + |y| && p < |y| && s[d + p] == y[p] && IsOperator(y[p])
    requires Lex(s, d + p + 1) == ShiftRun(Lex(y, p + 1), d)
    ensures Lex(s, d + p) == ShiftRun(Lex(y, p), d)
  {
    ShiftEmit(Span(p, p + 1), Lex(y, p + 1), d);
  }

  /** A number of the same length met at d + p in `s` and at p in `y`. */
  lemma ShiftNumber(s: string, y: string, d: nat, p: nat, k: nat)
    requires |s| == d + |y| && p < |y| && s[d + p] == y[p] && IsDigit(y[p])
    requires k == RunLength(y, p) == RunLength(s, d + p)
    requires Lex(s, d + p + k) == ShiftRun(Lex(y, p + k), d)
    ensures Lex(s, d + p) == ShiftRun(Lex(y, p), d)
  {
    assert Lex(y, p) == Emit(Span(p, p + k), Lex(y, p + k));
    assert Lex(s, d + p) == Emit(Span(d + p, d + p + k), Lex(s, d + p + k));
    ShiftEmit(Span(p, p + k), Lex(y, p + k), d);
  }

  /** A space, a foreign character or the end of text met at d + p in `s` and at p in `y`. */
  lemma ShiftOther(s: string, y: string, d: nat, p: nat)
    requires |s| == d + |y| && p <= |y|
    requires p < |y| ==> s[d + p] == y[p] && !IsOperator(y[p]) && !IsDigit(y[p])
    requires p < |y| && y[p] == ' ' ==> Lex(s, d + p + 1) == ShiftRun(Lex(y, p + 1), d)
    ensures Lex(s, d + p) == ShiftRun(Lex(y, p), d)
  {
  }

  /**
   * A scan of `s` from offset d + p is the scan of the text from d on,
   * started at p and moved by d: what precedes offset d never matters.
   */
  lemma {:induction false} LexSuffix(s: string, d: nat, p: nat)
    requires d + p <= |s|
    ensures Lex(s, d + p) == ShiftRun(Lex(s[d..], p), d)
    decreases |s| - (d + p)
  {
    var y := s[d..];
    if d + p == |s| {
      ShiftOther(s, y, d, p);
    } else {
      assert s[d + p] == y[p];
      if IsOperator(y[p]) {
        LexSuffix(s, d, p + 1);
        ShiftOperator(s, y, d, p);
      } else if IsDigit(y[p]) {
        var k := RunLength(y, p);
        RunLengthSuffix(s, d, p);
        LexSuffix(s, d, p + k);
        ShiftNumber(s, y, d, p, k);
      } else {
        if y[p] == ' ' {
          LexSuffix(s, d, p + 1);
        }
        ShiftOther(s, y, d, p);
      }
    }
  }

  /** Moved spans cut the same lexemes out of `x + y` as the original spans cut out of `y`. */
  lemma {:induction false} LexemesShift(x: string, y: string, spans: seq<Span>)
    requires InBounds(spans, |y|)
    ensures InBounds(ShiftSpans(spans, |x|), |x + y|)
    ensures Lexemes(x + y, ShiftSpans(spans, |x|)) == Lexemes(y, spans)
  {
    if spans != [] {
      var sp := spans[0];
      LexemesShift(x, y, spans[1..]);
      assert (x + y)[sp.start + |x|..sp.end + |x|] == y[sp.start..sp.end];
      assert ShiftSpans(spans, |x|)[1..] == ShiftSpans(spans[1..], |x|);
    }
  }

  /** The lexemes of a scan of `x + y` from offset |x| are those of a scan of `y` alone. */
  lemma LexemesSuffix(x: string, y: string)
    ensures Lexemes(x + y, Lex(x + y, |x|).spans) == Lexemes(y, Lex(y, 0).spans)
    ensures Lex(x + y, |x|).error.None? <==> Lex(y, 0).error.None?
  {
    assert (x + y)[|x|..] == y;
    LexSuffix(x + y, |x|, 0);
    LexemesShift(x, y, Lex(y, 0).spans);
  }

  /**
   * A digit run starting inside `a` stops inside `a`, or runs to its end and
   * then on into `b` from b's first character.
   */
  lemma {:induction false} RunLengthPrefix(a: string, b: string, p: nat)
    requires p <= |a|
    ensures RunLength(a + b, p) ==
      RunLength(a, p) + (if p + RunLength(a, p) == |a| then RunLength(b, 0) else 0)
    decreases |a| - p
  {
    if p == |a| {
      assert (a + b)[|a|..] == b;
      RunLengthSuffix(a + b, |a|, 0);
    } else {
      assert (a + b)[p] == a[p];
      if IsDigit(a[p]) {
        RunLengthPrefix(a, b, p + 1);
      }
    }
  }

  /** A digit run inside `a` that does not reach a digit at the start of `b` is unaffected by `b`. */
  lemma RunLengthJoin(a: string, b: string, p: nat)
    requires p < |a| && IsDigit(a[p])
    requires |b| > 0 && IsDigit(a[|a| - 1]) ==> !IsDigit(b[0])
    ensures RunLength(a + b, p) == RunLength(a, p)
  {
    RunLengthPrefix(a, b, p);
    var k := RunLength(a, p);
    if p + k == |a| {
      assert IsDigit(a[p + k - 1]);
    }
  }

  /** Two texts agree on [p, q) when both are `a` followed by something. */
  lemma SliceInPrefix(a: string, b: string, c: string, p: nat, q: nat)
    requires p <= q <= |a|
    ensures (a + b)[p..q] == (a + c)[p..q] == a[p..q]
  {
  }

  /** Scans of `s` and of `t` from offset p emit the same lexemes, and both fail or both succeed. */
  predicate SameScan(s: string, t: string, p: nat)
    requires p <= |s| && p <= |t|
  {
    Lexemes(s, Lex(s, p).spans) == Lexemes(t, Lex(t, p).spans) &&
    (Lex(s, p).error.None? <==> Lex(t, p).error.None?)
  }

  /** Two scans that meet the same operator at p agree from p if they agree from p + 1. */
  lemma SameScanOperator(s: string, t: string, p: nat)
    requires p < |s| && p < |t| && s[p] == t[p] && IsOperator(s[p])
    requires SameScan(s, t, p + 1)
    ensures SameScan(s, t, p)
  {
    LexemesOperator(s, p);
    LexemesOperator(t, p);
    assert s[p..p + 1] == t[p..p + 1];
  }

  /** Two scans that cut the same number [p, p + k) agree from p if they agree from p + k. */
  lemma SameScanNumber(s: string, t: string, p: nat, k: nat)
    requires p < |s| && p < |t| && IsDigit(s[p]) && IsDigit(t[p])
    requires k == RunLength(s, p) == RunLength(t, p)
    requires s[p..p + k] == t[p..p + k]
    requires SameScan(s, t, p + k)
    ensures SameScan(s, t, p)
  {
    LexemesNumber(s, p, k);
    LexemesNumber(t, p, k);
  }

  /** At the join, the inserted space is skipped and both scans go on as a scan of `b` alone. */
  lemma SpaceInsertedAtJoin(a: string, b: string)
    ensures SameScan(a + b, a + ([' '] + b), |a|)
  {
    var t := a + ([' '] + b);
    assert t == (a + [' ']) + b;
    assert t[|a|] == ' ';
    assert Lex(t, |a|) == Lex(t, |a| + 1);
    LexemesSuffix(a, b);
    LexemesSuffix(a + [' '], b);
  }

  /** A number starting inside `a` ends inside `a`, at the same offset in both texts. */
  lemma SpaceInsertedNumber(a: string, b: string, p: nat)
    requires p < |a| && IsDigit(a[p])
    requires |a| > 0 && |b| > 0 && IsDigit(a[|a| - 1]) ==> !IsDigit(b[0])
    requires SameScan(a + b, a + ([' '] + b), p + RunLength(a, p))
    ensures SameScan(a + b, a + ([' '] + b), p)
  {
    var c := [' '] + b;
    RunLengthJoin(a, b, p);
    RunLengthJoin(a, c, p);
    var k := RunLength(a, p);
    SliceInPrefix(a, b, c, p, p + k);
    SameScanNumber(a + b, a + c, p, k);
  }

  /**
   * From any offset inside `a`, scans of `a + b` and of `a + ([' '] + b)`
   * emit the same lexemes and both fail or both succeed, as long as `a` does
   * not end in a digit where `b` begins with one.
   */
  lemma {:induction false} SpaceInsertedFrom(a: string, b: string, p: nat)
    requires p <= |a|
    requires |a| > 0 && |b| > 0 && IsDigit(a[|a| - 1]) ==> !IsDigit(b[0])
    ensures SameScan(a + b, a + ([' '] + b), p)
    decreases |a| - p
  {
    var s := a + b;
    var t := a + ([' '] + b);
    if p == |a| {
      SpaceInsertedAtJoin(a, b);
    } else {
      assert s[p] == a[p] && t[p] == a[p];
      if IsOperator(a[p]) {
        SpaceInsertedFrom(a, b, p + 1);
        SameScanOperator(s, t, p);
      } else if IsDigit(a[p]) {
        SpaceInsertedFrom(a, b, p + RunLength(a, p));
        SpaceInsertedNumber(a, b, p);
      } else if a[p] == ' ' {
        SpaceInsertedFrom(a, b, p + 1);
      }
    }
  }

  /**
   * One more space between two pieces of text, where it does not split a
   * number, changes neither the token list nor whether scanning fails; read
   * from right to left, removing such a space changes nothing either.
   */
  lemma TokenizeSpaceInserted(a: string, b: string)
    requires |a| > 0 && |b| > 0 && IsDigit(a[|a| - 1]) ==> !IsDigit(b[0])
    ensures Tokenize(a + b).Ok? <==> Tokenize(a + [' '] + b).Ok?
    ensures Tokenize(a + b).Ok? ==> Tokenize(a + b) == Tokenize(a + [' '] + b)
  {
    SpaceInsertedFrom(a, b, 0);
    assert a + [' '] + b == a + ([' '] + b);
  }

  /** Between two digits a space does matter: it splits one number into two. */
  lemma SpaceSplitsNumber()
    ensures Tokenize("12") == Ok(["12"])
    ensures Tokenize("1 2") == Ok(["1", "2"])
  {
    var s := "12";
    assert RunLength(s, 2) == 0;
    assert RunLength(s, 1) == 1;
    assert RunLength(s, 0) == 2;
    assert Lex(s, 2) == LexRun([], None);
    assert Lex(s, 0) == LexRun([Span(0, 2)], None);
    assert s[0..2] == "12";
    assert Lexemes(s, Lex(s, 0).spans) == ["12"];
    TokenizeAdjacentNumbers();
  }
}
