/**
 * Character classification for the arithmetic-expression scanner: the token
 * kinds and the pure map from an optional character to its kind.
 */
module Classifier {

  /** An optional value; `None` stands for "no character" (end of input). */
  datatype Option<T> = None | Some(value: T)

  /**
   * The kind of a single character. `Int` carries the value of that one
   * digit (not of the whole run the scanner later cuts).
   */
  datatype TokenType =
    | Int(value: nat)  // an ASCII digit
    | Add              // '+'
    | Min              // '-'
    | Mult             // '*'
    | Div              // '/'
    | Ws               // ' '
    | Unknown          // any other character
    | Eof              // no character: end of input
  {
    /** One of the four operator kinds. */
    predicate IsOperator() {
      Add? || Min? || Mult? || Div?
    }
  }

  /** ASCII decimal digits '0' to '9'. */
  predicate IsDigit(c: char) {
    '0' <= c <= '9'
  }

  /** The four single-character operators. */
  predicate IsOperator(c: char) {
    c == '+' || c == '-' || c == '*' || c == '/'
  }

  /** The scanner's alphabet: digits, operators and the space character. */
  predicate InAlphabet(c: char) {
    IsDigit(c) || IsOperator(c) || c == ' '
  }

  /** The character that spells decimal digit `v`. */
  function DigitChar(v: nat): (c: char)
    requires v <= 9
    ensures IsDigit(c)
  {
    ('0' as int + v) as char
  }

  /**
   * Classifies an optional character. The digit test comes first, as a
   * guard; the numeric payload is the digit's value, so it is the inverse
   * of DigitChar.
   */
  function Recognize(c: Option<char>): (t: TokenType)
    ensures t.Int? <==> c.Some? && IsDigit(c.value)
    ensures t.Int? ==> t.value <= 9 && DigitChar(t.value) == c.value
    ensures t == Add <==> c == Some('+')
    ensures t == Min <==> c == Some('-')
    ensures t == Mult <==> c == Some('*')
    ensures t == Div <==> c == Some('/')
    ensures t == Ws <==> c == Some(' ')
    ensures t == Eof <==> c == None
    ensures t == Unknown <==> c.Some? && !InAlphabet(c.value)
  {
    match c
    case Some(ch) =>
      if IsDigit(ch) then Int(ch as int - '0' as int)
      else if ch == '+' then Add
      else if ch == '-' then Min
      else if ch == '*' then Mult
      else if ch == '/' then Div
      else if ch == ' ' then Ws
      else Unknown
    case None => Eof
  }

  /** Classifying the character of a digit gives back that digit's value. */
  lemma RecognizeDigitChar(v: nat)
    requires v <= 9
    ensures Recognize(Some(DigitChar(v))) == Int(v)
  {
  }
}
