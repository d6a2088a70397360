// The JavaScript string/number conversions the diagram relies on, restricted
// to decimal integers: template-literal formatting of an integer, `parseInt`,
// `Number` and `String.prototype.split` with a one-character separator.

module Numbers {

  /** A JavaScript number as the conversions below can produce it. */
  datatype JsNumber = NaN | Finite(value: int)

  /** `n || 0`: NaN (and 0) become 0. */
  function OrZero(n: JsNumber): int {
    match n
    case NaN => 0
    case Finite(v) => v
  }

  predicate IsDigit(c: char) { '0' <= c <= '9' }

  predicate AllDigits(s: string) {
    forall i :: 0 <= i < |s| ==> IsDigit(s[i])
  }

  function DigitValue(c: char): nat
    requires IsDigit(c)
  {
    (c as int) - ('0' as int)
  }

  function DigitChar(d: nat): (c: char)
    requires d < 10
    ensures IsDigit(c) && DigitValue(c) == d
  {
    ('0' as int + d) as char
  }

  /** The white space `parseInt` and `Number` skip (the ASCII part of it). */
  predicate IsWhitespace(c: char) {
    c == ' ' || c == '\t' || c == '\n' || c == '\r' || c == '\U{000B}' || c == '\U{000C}'
  }

  /** Decimal digits of a natural number, most significant first. */
  function NatToString(n: nat): string
    decreases n
  {
    if n < 10 then [DigitChar(n)] else NatToString(n / 10) + [DigitChar(n % 10)]
  }

  /** `${n}` for an integer n. */
  function IntToString(n: int): string {
    if n < 0 then "-" + NatToString(-n) else NatToString(n)
  }

  /** The value of a string of decimal digits. */
  function DigitsValue(s: string): nat
    requires AllDigits(s)
  {
    if |s| == 0 then 0 else DigitsValue(s[..|s| - 1]) * 10 + DigitValue(s[|s| - 1])
  }

  /** How many decimal digits `s` starts with. */
  function LeadingDigits(s: string): (k: nat)
    ensures k <= |s|
    ensures AllDigits(s[..k])
    ensures k < |s| ==> !IsDigit(s[k])
  {
    if |s| == 0 || !IsDigit(s[0]) then 0
    else
      var k := 1 + LeadingDigits(s[1..]);
      assert s[..k] == [s[0]] + s[1..][..k - 1];
      k
  }

  function TrimStart(s: string): string {
    if |s| > 0 && IsWhitespace(s[0]) then TrimStart(s[1..]) else s
  }

  function TrimEnd(s: string): string {
    if |s| > 0 && IsWhitespace(s[|s| - 1]) then TrimEnd(s[..|s| - 1]) else s
  }

  /** The sign a numeral starts with, and the rest. */
  function Unsigned(t: string): string {
    if |t| > 0 && (t[0] == '-' || t[0] == '+') then t[1..] else t
  }

  predicate Negative(t: string) {
    |t| > 0 && t[0] == '-'
  }

  /** `parseInt(s)` with no radix, for decimal numerals: leading white space
      and one sign are skipped, then the longest run of digits is read; no
      digit at all gives NaN. */
  function ParseInt(s: string): JsNumber {
    var t := TrimStart(s);
    var body := Unsigned(t);
    var k := LeadingDigits(body);
    if k == 0 then NaN
    else if Negative(t) then Finite(-(DigitsValue(body[..k]) as int))
    else Finite(DigitsValue(body[..k]))
  }

  /** `Number(s)` for decimal integer numerals: surrounding white space is
      ignored, the empty string is 0, anything but an optionally signed run
      of digits is NaN. */
  function ToNumber(s: string): JsNumber {
    var t := TrimEnd(TrimStart(s));
    var body := Unsigned(t);
    if t == "" then Finite(0)
    else if body == "" || !AllDigits(body) then NaN
    else if Negative(t) then Finite(-(DigitsValue(body) as int))
    else Finite(DigitsValue(body))
  }

  /** `s.split(sep)` for a one-character separator: the pieces between the
      separators, always at least one (possibly empty). */
  function Split(s: string, sep: char): (r: seq<string>)
    ensures |r| >= 1
  {
    if |s| == 0 then [""]
    else
      var rest := Split(s[1..], sep);
      if s[0] == sep then [""] + rest else [[s[0]] + rest[0]] + rest[1..]
  }

  /** The digits of n read back give n. */
  lemma {:induction false} NatToStringDigits(n: nat)
    ensures |NatToString(n)| > 0 && AllDigits(NatToString(n))
    ensures DigitsValue(NatToString(n)) == n
    decreases n
  {
    if n >= 10 {
      NatToStringDigits(n / 10);
      var p := NatToString(n / 10);
      var s := p + [DigitChar(n % 10)];
      assert s[..|s| - 1] == p;
    }
  }

  /** A formatted integer holds no white space and no separator of the
      serialisations used by the editors. */
  lemma IntToStringChars(n: int)
    ensures |IntToString(n)| > 0
    ensures forall i :: 0 <= i < |IntToString(n)| ==> IntToString(n)[i] == '-' || IsDigit(IntToString(n)[i])
    ensures ' ' !in IntToString(n) && ',' !in IntToString(n)
  {
    NatToStringDigits(if n < 0 then -n else n);
  }

  /** `parseInt(`${n}`) == n`. */
  lemma ParseIntRoundTrip(n: int)
    ensures ParseInt(IntToString(n)) == Finite(n)
  {
    var m: nat := if n < 0 then -n else n;
    NatToStringDigits(m);
    var s := IntToString(n);
    assert TrimStart(s) == s;
    var body := Unsigned(s);
    assert body == NatToString(m);
    assert LeadingDigits(body) == |body|;
    assert body[..|body|] == body;
  }

  /** `Number(`${n}`) == n`. */
  lemma ToNumberRoundTrip(n: int)
    ensures ToNumber(IntToString(n)) == Finite(n)
  {
    var m: nat := if n < 0 then -n else n;
    NatToStringDigits(m);
    var s := IntToString(n);
    assert TrimStart(s) == s;
    assert IsDigit(s[|s| - 1]);
    assert TrimEnd(s) == s;
    assert Unsigned(s) == NatToString(m);
  }

  /** A string without the separator is one piece. */
  lemma {:induction false} SplitNoSeparator(s: string, sep: char)
    requires sep !in s
    ensures Split(s, sep) == [s]
    decreases |s|
  {
    if |s| > 0 {
      assert sep !in s[1..];
      SplitNoSeparator(s[1..], sep);
      assert [s[0]] + s[1..] == s;
    }
  }

  /** Splitting `a + sep + b` where `a` has no separator yields `a` first. */
  lemma {:induction false} SplitAfterPiece(a: string, sep: char, b: string)
    requires sep !in a
    ensures Split(a + [sep] + b, sep) == [a] + Split(b, sep)
    decreases |a|
  {
    var s := a + [sep] + b;
    if |a| == 0 {
      assert s[1..] == b;
    } else {
      assert s[1..] == a[1..] + [sep] + b;
      assert sep !in a[1..];
      SplitAfterPiece(a[1..], sep, b);
      assert [a[0]] + a[1..] == a;
    }
  }

  /** `"a<sep>b".split(sep)` gives back a and b when neither holds the separator. */
  lemma SplitPair(a: string, sep: char, b: string)
    requires sep !in a && sep !in b
    ensures Split(a + [sep] + b, sep) == [a, b]
  {
    SplitAfterPiece(a, sep, b);
    SplitNoSeparator(b, sep);
  }
}
