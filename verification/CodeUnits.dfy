/**
 Text as JavaScript sees it: a sequence of UTF-16 code units, with the character
 classes the scanner's regular expressions use.
 */
module CodeUnits {

  type CodeUnit = u: int | 0 <= u < 0x1_0000

  type Text = seq<CodeUnit>

  const NEWLINE: CodeUnit := 0x0A
  const QUOTE: CodeUnit := 0x22       // "
  const HASH: CodeUnit := 0x23        // #
  const APOSTROPHE: CodeUnit := 0x27  // '
  const LPAREN: CodeUnit := 0x28
  const RPAREN: CodeUnit := 0x29
  const PLUS: CodeUnit := 0x2B
  const COMMA: CodeUnit := 0x2C
  const MINUS: CodeUnit := 0x2D
  const DOT: CodeUnit := 0x2E
  const SLASH: CodeUnit := 0x2F
  const ZERO: CodeUnit := 0x30
  const COLON: CodeUnit := 0x3A
  const SEMICOLON: CodeUnit := 0x3B
  const QUESTION: CodeUnit := 0x3F
  const AT: CodeUnit := 0x40
  const LBRACKET: CodeUnit := 0x5B
  const BACKSLASH: CodeUnit := 0x5C
  const RBRACKET: CodeUnit := 0x5D
  const UNDERSCORE: CodeUnit := 0x5F
  const BACKQUOTE: CodeUnit := 0x60
  const LBRACE: CodeUnit := 0x7B
  const BAR: CodeUnit := 0x7C
  const RBRACE: CodeUnit := 0x7D

  /** The class \s of ECMAScript regular expressions; every member is one code unit. */
  predicate IsSpace(u: CodeUnit) {
    || 0x09 <= u <= 0x0D || u == 0x20 || u == 0xA0 || u == 0x1680
    || 0x2000 <= u <= 0x200A || u == 0x2028 || u == 0x2029
    || u == 0x202F || u == 0x205F || u == 0x3000 || u == 0xFEFF
  }

  predicate IsDigit(u: CodeUnit) {
    0x30 <= u <= 0x39
  }

  predicate AllDigits(t: Text) {
    forall i | 0 <= i < |t| :: IsDigit(t[i])
  }

  /** The run of digits `t` starts with. */
  function DigitRun(t: Text): (n: nat)
    ensures n <= |t|
  {
    if t == [] || !IsDigit(t[0]) then 0 else 1 + DigitRun(t[1..])
  }

  lemma {:induction false} DigitRunUnits(t: Text)
    ensures AllDigits(t[..DigitRun(t)])
  {
    if DigitRun(t) > 0 {
      DigitRunUnits(t[1..]);
      var n := DigitRun(t);
      assert t[..n] == [t[0]] + t[1..][..n - 1];
    }
  }

  /** A literal of the program text as code units. */
  function Ascii(s: string): (t: Text)
    requires forall i | 0 <= i < |s| :: s[i] as int < 128
    ensures |t| == |s| && forall i | 0 <= i < |s| :: t[i] == s[i] as int
  {
    seq(|s|, i requires 0 <= i < |s| => s[i] as int)
  }

  /** String.prototype.slice for bounds that are not negative: both are cut off at the end of the text. */
  function Slice(t: Text, start: nat, end: nat): (r: Text)
    ensures end <= |t| && start <= end ==> r == t[start..end]
  {
    var hi := if end <= |t| then end else |t|;
    if start <= hi then t[start..hi] else []
  }

  /** Does `t` begin with the two units `a`, `b`? */
  predicate Begins(t: Text, a: CodeUnit, b: CodeUnit) {
    |t| >= 2 && t[0] == a && t[1] == b
  }
}
