/**
 * The text drawn above each face, `"{age}, {F|M}"`, with the age written as
 * Python writes an integer.  A parser for that text is the partner that
 * shows no two labels share a text.
 */
module LabelText {
  import opened Outcomes
  import opened Smoothing

  predicate IsDigit(c: char) { '0' <= c <= '9' }

  predicate IsDigits(s: string) { forall j :: 0 <= j < |s| ==> IsDigit(s[j]) }

  function DigitChar(d: nat): (c: char)
    requires d < 10
    ensures IsDigit(c) && (c as int) - ('0' as int) == d
  {
    (('0' as int) + d) as char
  }

  /** The decimal digits of `n`, most significant first, without leading zeros. */
  function NatText(n: nat): (s: string)
    ensures |s| > 0 && IsDigits(s)
    decreases n
  {
    if n < 10 then [DigitChar(n)] else NatText(n / 10) + [DigitChar(n % 10)]
  }

  /** The number a string of decimal digits denotes. */
  function DigitsValue(s: string): nat
    requires IsDigits(s)
    decreases |s|
  {
    if |s| == 0 then 0
    else DigitsValue(s[..|s| - 1]) * 10 + ((s[|s| - 1] as int) - ('0' as int))
  }

  lemma {:induction false} NatTextRoundTrip(n: nat)
    ensures DigitsValue(NatText(n)) == n
    decreases n
  {
    if n >= 10 {
      NatTextRoundTrip(n / 10);
      var s := NatText(n);
      assert s[..|s| - 1] == NatText(n / 10);
    }
  }

  /** `str(k)` of a Python integer: an optional minus sign and the digits of `|k|`. */
  function IntText(k: int): string {
    if k < 0 then "-" + NatText(-k) else NatText(k)
  }

  function ParseInt(s: string): Option<int> {
    if |s| > 1 && s[0] == '-' && IsDigits(s[1..]) then Some(-(DigitsValue(s[1..]) as int))
    else if |s| > 0 && IsDigits(s) then Some(DigitsValue(s))
    else None
  }

  lemma IntTextRoundTrip(k: int)
    ensures ParseInt(IntText(k)) == Some(k)
  {
    if k < 0 {
      NatTextRoundTrip(-k);
      assert IntText(k)[1..] == NatText(-k);
    } else {
      NatTextRoundTrip(k);
    }
  }

  function GenderCode(g: Gender): char {
    if g == Female then 'F' else 'M'
  }

  /** The label text of one face. */
  function Text(l: Label): (s: string)
    ensures |s| >= 4 && s[|s| - 3..|s| - 1] == ", "
    ensures s[|s| - 1] == (if l.gender == Female then 'F' else 'M')
  {
    IntText(l.age) + ", " + [GenderCode(l.gender)]
  }

  /** Reads a label text back: an integer, then `", "`, then `F` or `M`. */
  function Parse(s: string): Option<Label> {
    if |s| < 4 || s[|s| - 3..|s| - 1] != ", " || (s[|s| - 1] != 'F' && s[|s| - 1] != 'M') then None
    else
      match ParseInt(s[..|s| - 3])
      case None => None
      case Some(k) => Some(Label(k, if s[|s| - 1] == 'F' then Female else Male))
  }

  /** Every label text reads back as its label, so distinct labels have distinct texts. */
  lemma TextRoundTrip(l: Label)
    ensures Parse(Text(l)) == Some(l)
  {
    var s := Text(l);
    assert s[..|s| - 3] == IntText(l.age);
    IntTextRoundTrip(l.age);
  }

  lemma TextInjective(l1: Label, l2: Label)
    requires Text(l1) == Text(l2)
    ensures l1 == l2
  {
    TextRoundTrip(l1);
    TextRoundTrip(l2);
  }
}
