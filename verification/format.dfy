/**
 The two `printf` conversions the shell core relies on: `%d` (used to build the
 self-recall text `"! %d\n"`) and `%2d` (the index column of the `history`
 listing). Both are modelled on unbounded integers.
 */
module Format {

  predicate IsDigit(c: char) {
    '0' <= c <= '9'
  }

  function DigitChar(d: int): (c: char)
    requires 0 <= d < 10
    ensures IsDigit(c)
    ensures c as int - '0' as int == d
  {
    ('0' as int + d) as char
  }

  /** Decimal digits of `n`, most significant first, as `%d` prints a non-negative value. */
  function Digits(n: nat): (s: string)
    ensures 0 < |s|
    ensures forall i :: 0 <= i < |s| ==> IsDigit(s[i])
    ensures |s| == 1 <==> n < 10
    ensures 1 < |s| ==> s[0] != '0'
    decreases n
  {
    if n < 10 then [DigitChar(n)] else Digits(n / 10) + [DigitChar(n % 10)]
  }

  /** The value a string of decimal digits denotes. */
  function DigitsValue(s: string): nat
    requires forall i :: 0 <= i < |s| ==> IsDigit(s[i])
  {
    if |s| == 0 then 0
    else
      assert IsDigit(s[|s| - 1]);
      DigitsValue(s[..|s| - 1]) * 10 + (s[|s| - 1] as int - '0' as int)
  }

  /** Where the digits start in the `%d` text of `i`: after the minus sign, if there is one. */
  function SignWidth(i: int): nat
  {
    if i < 0 then 1 else 0
  }

  /** `%d` on any int: a minus sign exactly for negative values, then the digits of the magnitude. */
  function IntToString(i: int): (s: string)
    ensures SignWidth(i) < |s|
    ensures s[0] == '-' <==> i < 0
    ensures forall k :: SignWidth(i) <= k < |s| ==> IsDigit(s[k])
    ensures SignWidth(i) + 1 < |s| ==> s[SignWidth(i)] != '0'
    ensures DigitsValue(s[SignWidth(i)..]) == if i < 0 then -i else i
  {
    var magnitude := if i < 0 then -i else i;
    DigitsRoundTrip(magnitude);
    var s := if i < 0 then "-" + Digits(magnitude) else Digits(magnitude);
    assert s[SignWidth(i)..] == Digits(magnitude);
    s
  }

  /** `%<width>d`: right-aligned in a field of at least `width` characters, padded with spaces. */
  function PadLeft(s: string, width: nat): (r: string)
    ensures |r| == if |s| < width then width else |s|
    ensures r[|r| - |s|..] == s
    ensures forall i :: 0 <= i < |r| - |s| ==> r[i] == ' '
  {
    if |s| < width then seq(width - |s|, _ => ' ') + s else s
  }

  /** What is left of a `%<width>d` field once its leading blanks are skipped. */
  function TrimBlanks(s: string): (t: string)
    ensures |t| <= |s| && t == s[|s| - |t|..]
    ensures 0 < |t| ==> t[0] != ' '
    ensures forall k :: 0 <= k < |s| - |t| ==> s[k] == ' '
  {
    if 0 < |s| && s[0] == ' ' then TrimBlanks(s[1..]) else s
  }

  /** `%d` needs at most two characters exactly for values below 100. */
  lemma DigitsWidth(n: nat)
    ensures |Digits(n)| <= 2 <==> n < 100
  {
  }

  /** A padded `%<width>d` field is blanks and digits only, so it holds no line break. */
  lemma PaddedDigitsNoNewline(n: nat, width: nat)
    ensures '\n' !in PadLeft(Digits(n), width)
  {
  }

  /** Reading back the digits `%d` prints gives the printed number. */
  lemma {:induction false} DigitsRoundTrip(n: nat)
    ensures DigitsValue(Digits(n)) == n
    decreases n
  {
    if n >= 10 {
      var s := Digits(n);
      assert s[..|s| - 1] == Digits(n / 10);
      DigitsRoundTrip(n / 10);
    }
  }

  /** Distinct integers print differently under `%d`. */
  lemma IntToStringInjective(a: int, b: int)
    requires IntToString(a) == IntToString(b)
    ensures a == b
  {
  }

  /** Skipping the blanks of a padded `%<width>d` field leaves exactly the digits, which read back as the number. */
  lemma PadLeftReadBack(n: nat, width: nat)
    ensures TrimBlanks(PadLeft(Digits(n), width)) == Digits(n)
    ensures DigitsValue(TrimBlanks(PadLeft(Digits(n), width))) == n
  {
    var d := Digits(n);
    var r := PadLeft(d, width);
    var t := TrimBlanks(r);
    assert |t| == |d|;
    DigitsRoundTrip(n);
  }

  /** Padding adds only leading blanks, so the padded field still determines the number. */
  lemma PadLeftDigitsInjective(a: nat, b: nat, width: nat)
    requires PadLeft(Digits(a), width) == PadLeft(Digits(b), width)
    ensures a == b
  {
    var sa, sb := Digits(a), Digits(b);
    var r := PadLeft(sa, width);
    if |sa| == |sb| {
      assert sa == r[|r| - |sa|..] == sb;
      DigitsRoundTrip(a);
      DigitsRoundTrip(b);
    }
  }
}
