/**
 * What a scan guarantees, proved about the reference definitions in module
 * Lexing: where its spans lie, what each token looks like, where and why it
 * fails, that the tokens reassemble the text minus its spaces, and what a
 * second scan from where the first one stopped does.
 */
module LexingFacts {
  import opened Classifier
  import opened Lexing

  /** Span `sp` of `s` is a single operator character. */
  predicate OperatorToken(s: string, sp: Span) {
    sp.start < |s| && sp.end == sp.start + 1 && IsOperator(s[sp.start])
  }

  /** Span `sp` of `s` is a non-empty run of digits not followed by another digit. */
  predicate NumberToken(s: string, sp: Span) {
    sp.start < sp.end <= |s| &&
    (forall i :: sp.start <= i < sp.end ==> IsDigit(s[i])) &&
    (sp.end < |s| ==> !IsDigit(s[sp.end]))
  }

  /** Span `sp` of `s` is a number that is not preceded by a digit at or after offset `p`. */
  predicate StartsNumber(s: string, p: nat, sp: Span) {
    NumberToken(s, sp) && (p < sp.start ==> !IsDigit(s[sp.start - 1]))
  }

  /**
   * The chain condition, spelled out: every span is non-empty and lies in
   * [lo, hi), and a span ends at or before the start of any later one.
   */
  lemma {:induction false} ChainedOrdered(spans: seq<Span>, lo: nat, hi: nat)
    requires Chained(spans, lo, hi)
    ensures forall j :: 0 <= j < |spans| ==> lo <= spans[j].start < spans[j].end <= hi
    ensures forall i, j :: 0 <= i < j < |spans| ==> spans[i].end <= spans[j].start
  {
    if spans != [] {
      var tail := spans[1..];
      ChainedOrdered(tail, spans[0].end, hi);
      forall j | 0 <= j < |spans|
        ensures lo <= spans[j].start < spans[j].end <= hi
      {
        if j > 0 {
          assert spans[j] == tail[j - 1];
        }
      }
      forall i, j | 0 <= i < j < |spans|
        ensures spans[i].end <= spans[j].start
      {
        assert spans[j] == tail[j - 1];
        if i > 0 {
          assert spans[i] == tail[i - 1];
        }
      }
    }
  }

  /** The spans of a scan from p lie in [p, |s|), are non-empty, and never overlap or go backwards. */
  lemma LexSpansOrdered(s: string, p: nat)
    requires p <= |s|
    ensures var spans := Lex(s, p).spans;
      (forall j :: 0 <= j < |spans| ==> p <= spans[j].start < spans[j].end <= |s|) &&
      (forall i, j :: 0 <= i < j < |spans| ==> spans[i].end <= spans[j].start)
  {
    ChainedOrdered(Lex(s, p).spans, p, |s|);
  }

  /** A digit extends the run that follows it by one. */
  lemma RunLengthDigit(s: string, p: nat)
    requires p < |s| && IsDigit(s[p])
    ensures RunLength(s, p) == 1 + RunLength(s, p + 1)
  {
  }

  /** No run starts at the end of the text or at a character that is not a digit. */
  lemma RunLengthStop(s: string, p: nat)
    requires p == |s| || (p < |s| && !IsDigit(s[p]))
    ensures RunLength(s, p) == 0
  {
  }

  /** One step of a scan, by the class of the character at p. */
  lemma LexForeignStep(s: string, p: nat)
    requires p < |s| && !InAlphabet(s[p])
    ensures Lex(s, p) == LexRun([], Some(Unrecognized(s[p], p)))
  {
  }

  lemma LexOperatorStep(s: string, p: nat)
    requires p < |s| && IsOperator(s[p])
    ensures OperatorToken(s, Span(p, p + 1)) && !IsDigit(s[p])
    ensures Lex(s, p) == Emit(Span(p, p + 1), Lex(s, p + 1))
  {
  }

  lemma LexNumberStep(s: string, p: nat, k: nat)
    requires p < |s| && IsDigit(s[p]) && k == RunLength(s, p)
    ensures NumberToken(s, Span(p, p + k))
    ensures Lex(s, p) == Emit(Span(p, p + k), Lex(s, p + k))
  {
  }

  lemma LexSpaceStep(s: string, p: nat)
    requires p < |s| && s[p] == ' '
    ensures Lex(s, p) == Lex(s, p + 1)
  {
  }

  /**
   * Every span of `spans` is an operator character or a maximal digit run,
   * and a digit run that starts after offset p does not start right after
   * a digit.
   */
  predicate ShapedFrom(s: string, p: nat, spans: seq<Span>) {
    forall j :: 0 <= j < |spans| ==> OperatorToken(s, spans[j]) || StartsNumber(s, p, spans[j])
  }

  /** A well-shaped token in front of well-shaped tokens that start at or after its end. */
  lemma ShapedCons(s: string, p: nat, q: nat, rest: seq<Span>)
    requires OperatorToken(s, Span(p, q)) || StartsNumber(s, p, Span(p, q))
    requires q < |s| && IsDigit(s[q]) ==> !IsDigit(s[q - 1])
    requires ShapedFrom(s, q, rest)
    requires forall j :: 0 <= j < |rest| ==> q <= rest[j].start
    ensures ShapedFrom(s, p, [Span(p, q)] + rest)
  {
    var spans := [Span(p, q)] + rest;
    forall j | 0 < j < |spans|
      ensures OperatorToken(s, spans[j]) || StartsNumber(s, p, spans[j])
    {
      assert spans[j] == rest[j - 1];
    }
  }

  /** Tokens well-shaped from p + 1 stay well-shaped from p when the character at p is not a digit. */
  lemma ShapedWiden(s: string, p: nat, spans: seq<Span>)
    requires p < |s| && !IsDigit(s[p])
    requires ShapedFrom(s, p + 1, spans)
    ensures ShapedFrom(s, p, spans)
  {
  }

  /**
   * Every span of a scan from p is an operator character or a maximal
   * digit run; a digit run never starts right after a digit, so a number
   * is never split across two tokens.
   */
  lemma {:induction false} LexTokenShapes(s: string, p: nat)
    requires p <= |s|
    decreases |s| - p
    ensures ShapedFrom(s, p, Lex(s, p).spans)
  {
    if p < |s| {
      if !InAlphabet(s[p]) {
        LexForeignStep(s, p);
      } else if s[p] == ' ' {
        LexSpaceStep(s, p);
        LexTokenShapes(s, p + 1);
        ShapedWiden(s, p, Lex(s, p + 1).spans);
      } else if IsOperator(s[p]) {
        LexOperatorStep(s, p);
        LexTokenShapes(s, p + 1);
        LexSpansOrdered(s, p + 1);
        ShapedCons(s, p, p + 1, Lex(s, p + 1).spans);
      } else {
        var q := p + RunLength(s, p);
        LexNumberStep(s, p, q - p);
        LexTokenShapes(s, q);
        LexSpansOrdered(s, q);
        ShapedCons(s, p, q, Lex(s, q).spans);
      }
    }
  }

  /**
   * A scan from p fails exactly when a character outside the alphabet
   * occurs at or after p, and then it reports the first such character
   * and its offset.
   */
  lemma {:induction false} LexFailsAtFirstForeign(s: string, p: nat)
    requires p <= |s|
    decreases |s| - p
    ensures Lex(s, p).error.None? <==> forall i :: p <= i < |s| ==> InAlphabet(s[i])
    ensures Lex(s, p).error.Some? ==>
      var e := Lex(s, p).error.value;
      p <= e.offset < |s| && e.ch == s[e.offset] && !InAlphabet(e.ch) &&
      forall i :: p <= i < e.offset ==> InAlphabet(s[i])
  {
    if p < |s| && InAlphabet(s[p]) {
      var q := if IsDigit(s[p]) then p + RunLength(s, p) else p + 1;
      assert forall i :: p <= i < q ==> InAlphabet(s[i]);
      LexFailsAtFirstForeign(s, q);
    }
  }

  /** Offset i lies inside one of the spans. */
  predicate Covered(spans: seq<Span>, i: int) {
    exists j :: 0 <= j < |spans| && spans[j].start <= i < spans[j].end
  }

  lemma CoveredCons(sp: Span, rest: seq<Span>, i: int)
    ensures Covered([sp] + rest, i) <==> (sp.start <= i < sp.end || Covered(rest, i))
  {
    var spans := [sp] + rest;
    if sp.start <= i < sp.end {
      assert spans[0] == sp;
    }
    if Covered(rest, i) {
      var j :| 0 <= j < |rest| && rest[j].start <= i < rest[j].end;
      assert spans[j + 1] == rest[j];
    }
    if Covered(spans, i) {
      var j :| 0 <= j < |spans| && spans[j].start <= i < spans[j].end;
      if j > 0 {
        assert spans[j] == rest[j - 1];
      }
    }
  }

  /** Spans that all start at or after lo do not cover any offset before lo. */
  lemma NotCoveredBefore(spans: seq<Span>, lo: nat, i: int)
    requires forall j :: 0 <= j < |spans| ==> lo <= spans[j].start
    requires i < lo
    ensures !Covered(spans, i)
  {
  }

  /**
   * Coverage: up to where a scan from p stops, an offset lies inside a
   * token's span exactly when its character is not a space. Together with
   * LexSpansOrdered (spans never overlap) every such offset belongs to
   * exactly one token, and every space to none.
   */
  lemma {:induction false} LexCovers(s: string, p: nat)
    requires p <= |s|
    decreases |s| - p
    ensures forall i :: p <= i < StopOffset(s, p) ==> (s[i] != ' ' <==> Covered(Lex(s, p).spans, i))
  {
    var stop := StopOffset(s, p);
    if p < |s| && InAlphabet(s[p]) {
      var q := if s[p] == ' ' || IsOperator(s[p]) then p + 1 else p + RunLength(s, p);
      if s[p] == ' ' {
        LexSpaceStep(s, p);
      } else if IsOperator(s[p]) {
        LexOperatorStep(s, p);
      } else {
        LexNumberStep(s, p, q - p);
      }
      assert StopOffset(s, q) == stop;
      LexCovers(s, q);
      LexSpansOrdered(s, q);
      var rest := Lex(s, q).spans;
      forall i | p <= i < stop
        ensures s[i] != ' ' <==> Covered(Lex(s, p).spans, i)
      {
        if s[p] == ' ' {
          if i == p {
            NotCoveredBefore(rest, q, i);
          }
        } else {
          CoveredCons(Span(p, q), rest, i);
          if i < q {
            NotCoveredBefore(rest, q, i);
          }
        }
      }
    }
  }

  /** The lexemes, one after the other, with nothing in between. */
  function Concat(ts: seq<string>): (text: string)
    ensures |text| == 0 <==> forall j :: 0 <= j < |ts| ==> ts[j] == []
  {
    if ts == [] then [] else ts[0] + Concat(ts[1..])
  }

  /** `t` with every space character deleted. */
  function RemoveSpaces(t: string): (u: string)
    ensures |u| <= |t|
    ensures ' ' !in u
  {
    if t == [] then []
    else (if t[0] == ' ' then [] else [t[0]]) + RemoveSpaces(t[1..])
  }

  lemma {:induction false} RemoveSpacesAppend(a: string, b: string)
    ensures RemoveSpaces(a + b) == RemoveSpaces(a) + RemoveSpaces(b)
  {
    if a != [] {
      assert (a + b)[0] == a[0];
      assert (a + b)[1..] == a[1..] + b;
      RemoveSpacesAppend(a[1..], b);
    } else {
      assert a + b == b;
    }
  }

  lemma {:induction false} RemoveSpacesKeeps(t: string)
    requires ' ' !in t
    ensures RemoveSpaces(t) == t
  {
    if t != [] {
      assert t[0] in t;
      assert forall c :: c in t[1..] ==> c in t;
      RemoveSpacesKeeps(t[1..]);
    }
  }

  /** A token list that begins with `t`: its concatenation begins with `t`. */
  lemma ConcatCons(t: string, ts: seq<string>)
    ensures Concat([t] + ts) == t + Concat(ts)
  {
    assert ([t] + ts)[1..] == ts;
  }

  /** The text of an operator or number token contains no space. */
  lemma TokenHasNoSpaces(s: string, sp: Span)
    requires OperatorToken(s, sp) || NumberToken(s, sp)
    ensures ' ' !in s[sp.start..sp.end]
  {
    forall i | sp.start <= i < sp.end
      ensures s[i] != ' '
    {
    }
  }

  /** A space-free piece of text in front of text whose spaces are already removed. */
  lemma ReassemblePiece(t: string, u: string, tokens: seq<string>)
    requires ' ' !in t
    requires Concat(tokens) == RemoveSpaces(u)
    ensures Concat([t] + tokens) == RemoveSpaces(t + u)
  {
    ConcatCons(t, tokens);
    RemoveSpacesAppend(t, u);
    RemoveSpacesKeeps(t);
  }

  /** A space-free token in front of tokens that reassemble the rest of the text. */
  lemma ReassembleCons(s: string, p: nat, q: nat, stop: nat, rest: seq<Span>)
    requires p <= q <= stop <= |s|
    requires ' ' !in s[p..q]
    requires InBounds(rest, |s|)
    requires Concat(Lexemes(s, rest)) == RemoveSpaces(s[q..stop])
    ensures InBounds([Span(p, q)] + rest, |s|)
    ensures Concat(Lexemes(s, [Span(p, q)] + rest)) == RemoveSpaces(s[p..stop])
  {
    var spans := [Span(p, q)] + rest;
    assert spans[1..] == rest;
    assert Lexemes(s, spans) == [s[p..q]] + Lexemes(s, rest);
    ReassemblePiece(s[p..q], s[q..stop], Lexemes(s, rest));
    assert s[p..stop] == s[p..q] + s[q..stop];
  }

  /** A skipped space adds nothing to the reassembled text. */
  lemma ReassembleSkip(s: string, p: nat, stop: nat, tokens: seq<string>)
    requires p < stop <= |s| && s[p] == ' '
    requires Concat(tokens) == RemoveSpaces(s[p + 1..stop])
    ensures Concat(tokens) == RemoveSpaces(s[p..stop])
  {
    assert s[p..stop] == [s[p]] + s[p + 1..stop];
    RemoveSpacesAppend([s[p]], s[p + 1..stop]);
  }

  /**
   * The lexemes of a scan from p, concatenated, are the text from p to where
   * the scan stops with its spaces removed: nothing is dropped but spaces,
   * nothing is duplicated, and the order is kept.
   */
  lemma {:induction false} LexReassembles(s: string, p: nat)
    requires p <= |s|
    decreases |s| - p
    ensures Concat(Lexemes(s, Lex(s, p).spans)) == RemoveSpaces(s[p..StopOffset(s, p)])
  {
    var stop := StopOffset(s, p);
    if p == |s| || !InAlphabet(s[p]) {
      assert s[p..stop] == [];
    } else if s[p] == ' ' {
      LexSpaceStep(s, p);
      LexReassembles(s, p + 1);
      ReassembleSkip(s, p, stop, Lexemes(s, Lex(s, p).spans));
    } else {
      var q := if IsOperator(s[p]) then p + 1 else p + RunLength(s, p);
      if IsOperator(s[p]) {
        LexOperatorStep(s, p);
      } else {
        LexNumberStep(s, p, q - p);
      }
      LexReassembles(s, q);
      assert StopOffset(s, q) == stop;
      TokenHasNoSpaces(s, Span(p, q));
      ReassembleCons(s, p, q, stop, Lex(s, q).spans);
    }
  }

  /**
   * Scanning again from where a scan stopped emits nothing more and ends
   * the same way: with the same error after a failure, cleanly after a
   * success.
   */
  lemma {:induction false} LexRescan(s: string, p: nat)
    requires p <= |s|
    decreases |s| - p
    ensures Lex(s, StopOffset(s, p)) == LexRun([], Lex(s, p).error)
  {
    if p < |s| && InAlphabet(s[p]) {
      var q := if IsDigit(s[p]) then p + RunLength(s, p) else p + 1;
      assert Lex(s, p).error == Lex(s, q).error;
      assert StopOffset(s, p) == StopOffset(s, q);
      LexRescan(s, q);
    }
  }

  /** The lexemes of a span list, read by position. */
  lemma {:induction false} LexemesAt(s: string, spans: seq<Span>)
    requires InBounds(spans, |s|)
    ensures |Lexemes(s, spans)| == |spans|
    ensures forall j :: 0 <= j < |spans| ==>
      spans[j].start <= spans[j].end <= |s| &&
      Lexemes(s, spans)[j] == s[spans[j].start..spans[j].end]
  {
    if spans != [] {
      LexemesAt(s, spans[1..]);
      forall j | 0 < j < |spans|
        ensures spans[j].start <= spans[j].end <= |s|
        ensures Lexemes(s, spans)[j] == s[spans[j].start..spans[j].end]
      {
        assert spans[j] == spans[1..][j - 1];
      }
    }
  }

  /** A token as it reaches the caller: one operator character, or one or more digits. */
  predicate WellFormedToken(t: string) {
    (|t| == 1 && IsOperator(t[0])) ||
    (|t| > 0 && forall i :: 0 <= i < |t| ==> IsDigit(t[i]))
  }

  /** The lexemes of well-shaped spans are operators and digit strings. */
  lemma ShapedLexemes(s: string, p: nat, spans: seq<Span>)
    requires InBounds(spans, |s|) && ShapedFrom(s, p, spans)
    ensures forall j :: 0 <= j < |Lexemes(s, spans)| ==> WellFormedToken(Lexemes(s, spans)[j])
  {
    LexemesAt(s, spans);
    forall j | 0 <= j < |spans|
      ensures WellFormedToken(Lexemes(s, spans)[j])
    {
      var sp := spans[j];
      var t := Lexemes(s, spans)[j];
      assert t == s[sp.start..sp.end];
      if NumberToken(s, sp) {
        assert forall i :: 0 <= i < |t| ==> t[i] == s[sp.start + i];
      }
    }
  }

  /**
   * The whole-input scan succeeds exactly when every character is in the
   * alphabet. On success every token is an operator or a digit string and
   * the tokens spell the input without its spaces; on failure the error
   * names the first foreign character and its offset.
   */
  lemma TokenizeMeaning(s: string)
    ensures Tokenize(s).Ok? <==> forall i :: 0 <= i < |s| ==> InAlphabet(s[i])
    ensures Tokenize(s).Ok? ==>
      (forall j :: 0 <= j < |Tokenize(s).value| ==> WellFormedToken(Tokenize(s).value[j])) &&
      Concat(Tokenize(s).value) == RemoveSpaces(s)
    ensures Tokenize(s).Err? ==>
      var e := Tokenize(s).error;
      e.offset < |s| && e.ch == s[e.offset] && !InAlphabet(e.ch) &&
      forall i :: 0 <= i < e.offset ==> InAlphabet(s[i])
  {
    LexFailsAtFirstForeign(s, 0);
    if Lex(s, 0).error.None? {
      LexReassembles(s, 0);
      assert s[0..|s|] == s;
      LexTokenShapes(s, 0);
      ShapedLexemes(s, 0, Lex(s, 0).spans);
    }
  }

  /** The lexeme an operator at p contributes, in front of the rest of the scan. */
  lemma LexemesOperator(s: string, p: nat)
    requires p < |s| && IsOperator(s[p])
    ensures Lex(s, p).error == Lex(s, p + 1).error
    ensures Lexemes(s, Lex(s, p).spans) == [s[p..p + 1]] + Lexemes(s, Lex(s, p + 1).spans)
  {
    LexOperatorStep(s, p);
    assert Lex(s, p).spans[1..] == Lex(s, p + 1).spans;
  }

  /** The lexeme a digit run of length k at p contributes, in front of the rest of the scan. */
  lemma LexemesNumber(s: string, p: nat, k: nat)
    requires p < |s| && IsDigit(s[p]) && k == RunLength(s, p)
    ensures p + k <= |s|
    ensures Lex(s, p).error == Lex(s, p + k).error
    ensures Lexemes(s, Lex(s, p).spans) == [s[p..p + k]] + Lexemes(s, Lex(s, p + k).spans)
  {
    LexNumberStep(s, p, k);
    assert Lex(s, p).spans[1..] == Lex(s, p + k).spans;
  }

  // The test input is proved in three steps over a text described character by
  // character (SourceExampleSlices, SourceExampleAssemble, SourceExampleTokens):
  // one proof over the string literal itself unfolds the scan far past the
  // verifier's resource budget.

  /** The slices of the test input that its lexemes are cut from. */
  lemma SourceExampleSlices(s: string)
    requires |s| == 19
    requires s[0] == '1' && s[1] == '5' && s[2] == '0' && s[3] == '0' && s[4] == '+' &&
      s[5] == '8' && s[6] == '9' && s[7] == ' ' && s[8] == '/' && s[9] == ' ' &&
      s[10] == '6' && s[11] == ' ' && s[12] == '-' && s[13] == '9' && s[14] == '*' &&
      s[15] == '4' && s[16] == '5' && s[17] == ' ' && s[18] == ' '
    ensures s[0..4] == "1500" && s[4..5] == "+" && s[5..7] == "89" && s[8..9] == "/" && s[10..11] == "6"
    ensures s[12..13] == "-" && s[13..14] == "9" && s[14..15] == "*" && s[15..17] == "45"
  {
  }

  /** Lexeme lists built token by token from the test input's slices. */
  lemma SourceExampleAssemble(s: string, L0: seq<string>, L1: seq<string>, L2: seq<string>, L3: seq<string>, L4: seq<string>, L5: seq<string>, L6: seq<string>, L7: seq<string>, L8: seq<string>, L9: seq<string>)
    requires |s| == 19
    requires L0 == [s[0..4]] + L1
    requires L1 == [s[4..5]] + L2
    requires L2 == [s[5..7]] + L3
    requires L3 == [s[8..9]] + L4
    requires L4 == [s[10..11]] + L5
    requires L5 == [s[12..13]] + L6
    requires L6 == [s[13..14]] + L7
    requires L7 == [s[14..15]] + L8
    requires L8 == [s[15..17]] + L9
    requires s[0..4] == "1500"
    requires s[4..5] == "+"
    requires s[5..7] == "89"
    requires s[8..9] == "/"
    requires s[10..11] == "6"
    requires s[12..13] == "-"
    requires s[13..14] == "9"
    requires s[14..15] == "*"
    requires s[15..17] == "45"
    requires L9 == []
    ensures L0 == ["1500", "+", "89", "/", "6", "-", "9", "*", "45"]
  {
  }

  /** Any text spelled like the test input scans to the lexemes the test expects. */
  lemma SourceExampleTokens(s: string)
    requires |s| == 19
    requires s[0] == '1' && s[1] == '5' && s[2] == '0' && s[3] == '0' && s[4] == '+' &&
      s[5] == '8' && s[6] == '9' && s[7] == ' ' && s[8] == '/' && s[9] == ' ' &&
      s[10] == '6' && s[11] == ' ' && s[12] == '-' && s[13] == '9' && s[14] == '*' &&
      s[15] == '4' && s[16] == '5' && s[17] == ' ' && s[18] == ' '
    ensures Tokenize(s) == Ok(["1500", "+", "89", "/", "6", "-", "9", "*", "45"])
  {
    SourceExampleSlices(s);
    LexSpaceStep(s, 18);
    LexSpaceStep(s, 17);
    RunLengthStop(s, 17);
    RunLengthDigit(s, 16);
    RunLengthDigit(s, 15);
    LexemesNumber(s, 15, 2);
    LexemesOperator(s, 14);
    RunLengthStop(s, 14);
    RunLengthDigit(s, 13);
    LexemesNumber(s, 13, 1);
    LexemesOperator(s, 12);
    LexSpaceStep(s, 11);
    RunLengthStop(s, 11);
    RunLengthDigit(s, 10);
    LexemesNumber(s, 10, 1);
    LexSpaceStep(s, 9);
    LexemesOperator(s, 8);
    LexSpaceStep(s, 7);
    RunLengthStop(s, 7);
    RunLengthDigit(s, 6);
    RunLengthDigit(s, 5);
    LexemesNumber(s, 5, 2);
    LexemesOperator(s, 4);
    RunLengthStop(s, 4);
    RunLengthDigit(s, 3);
    RunLengthDigit(s, 2);
    RunLengthDigit(s, 1);
    RunLengthDigit(s, 0);
    LexemesNumber(s, 0, 4);
    SourceExampleAssemble(s, Lexemes(s, Lex(s, 0).spans), Lexemes(s, Lex(s, 4).spans), Lexemes(s, Lex(s, 5).spans), Lexemes(s, Lex(s, 8).spans), Lexemes(s, Lex(s, 10).spans), Lexemes(s, Lex(s, 12).spans), Lexemes(s, Lex(s, 13).spans), Lexemes(s, Lex(s, 14).spans), Lexemes(s, Lex(s, 15).spans), Lexemes(s, Lex(s, 17).spans));
  }

  /** The scan the scanner's own test performs, and the lexemes it expects. */
  lemma TokenizeSourceExample()
    ensures Tokenize("1500+89 / 6 -9*45  ") == Ok(["1500", "+", "89", "/", "6", "-", "9", "*", "45"])
  {
    SourceExampleTokens("1500+89 / 6 -9*45  ");
  }

  /**
   * Two numbers separated by a space come out as two adjacent number
   * tokens: maximal munch keeps a digit run whole, but it does not keep
   * number tokens apart.
   */
  lemma TokenizeAdjacentNumbers()
    ensures Tokenize("1 2") == Ok(["1", "2"])
  {
    var s := "1 2";
    assert Lex(s, 3) == LexRun([], None);
    RunLengthStop(s, 3);
    RunLengthDigit(s, 2);
    LexemesNumber(s, 2, 1);
    LexSpaceStep(s, 1);
    RunLengthStop(s, 1);
    RunLengthDigit(s, 0);
    LexemesNumber(s, 0, 1);
    assert s[0..1] == "1" && s[2..3] == "2";
    assert Lex(s, 0).error == None;
    assert Lexemes(s, Lex(s, 3).spans) == [];
    assert Lexemes(s, Lex(s, 0).spans) == ["1", "2"];
  }

  /** A foreign character stops the scan at its own offset, whatever follows it. */
  lemma TokenizeForeignExample()
    ensures Tokenize("3~4") == Err(Unrecognized('~', 1))
  {
    var s := "3~4";
    assert RunLength(s, 1) == 0;
    assert RunLength(s, 0) == 1;
  }

  /** A scan over nothing but spaces emits nothing and stops at the end. */
  lemma {:induction false} LexBlank(s: string, p: nat)
    requires p <= |s|
    requires forall i :: p <= i < |s| ==> s[i] == ' '
    ensures Lex(s, p) == LexRun([], None)
    decreases |s| - p
  {
    if p < |s| {
      LexBlank(s, p + 1);
    }
  }

  /** Empty input and input made only of spaces give no tokens and no error. */
  lemma TokenizeBlank(n: nat)
    ensures Tokenize(seq(n, _ => ' ')) == Ok([])
  {
    LexBlank(seq(n, _ => ' '), 0);
  }
}
