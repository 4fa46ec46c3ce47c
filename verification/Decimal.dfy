/** Decimal numbers as text: unsigned integers with leading zeros, and fixed-point numbers, printed
    and parsed the way the configuration file does it. */
module Decimal {
  import opened CellIds

  predicate IsDigit(c: char) {
    '0' <= c <= '9'
  }

  predicate IsDigits(s: string) {
    forall k :: 0 <= k < |s| ==> IsDigit(s[k])
  }

  function DigitChar(d: nat): (c: char)
    requires d < 10
    ensures IsDigit(c) && DigitValue(c) == d
  {
    ('0' as int + d) as char
  }

  function DigitValue(c: char): (d: nat)
    requires IsDigit(c)
    ensures d < 10
  {
    c as int - '0' as int
  }

  function ParseNat(s: string): nat
    requires IsDigits(s)
  {
    if |s| == 0 then 0 else 10 * ParseNat(s[..|s| - 1]) + DigitValue(s[|s| - 1])
  }

  /** n in decimal, with leading zeros up to at least w digits. */
  function PrintNat(n: nat, w: nat): (s: string)
    ensures IsDigits(s) && |s| > 0 && |s| >= w
    ensures ParseNat(s) == n
    decreases n, w
  {
    if n < 10 && w <= 1 then
      assert ParseNat([]) == 0;
      assert [DigitChar(n)][..0] == [];
      [DigitChar(n)]
    else
      var high := PrintNat(n / 10, if w == 0 then 0 else w - 1);
      assert (high + [DigitChar(n % 10)])[..|high|] == high;
      high + [DigitChar(n % 10)]
  }

  /** The ten digits, what each is worth, and how a number is read from left to right. */
  lemma {:induction false} DigitsRead(s: string, d: nat)
    requires IsDigits(s) && d < 10
    ensures IsDigits("0123456789") && IsDigits(s + ["0123456789"[d]])
    ensures ParseNat("") == 0 && ParseNat(s + ["0123456789"[d]]) == 10 * ParseNat(s) + d
  {
    var t := s + ["0123456789"[d]];
    assert t[..|t| - 1] == s;
    assert forall k :: 0 <= k < 10 ==> DigitValue("0123456789"[k]) == k;
  }

  lemma {:induction false} OnlyTheseDigits(c: char)
    ensures IsDigit(c) <==> c in "0123456789"
  {
    if IsDigit(c) {
      assert "0123456789"[DigitValue(c)] == c;
    }
  }

  /** No more digits than needed are printed. */
  lemma {:induction false} NoLeadingZeros(n: nat, w: nat)
    ensures var s := PrintNat(n, w);
            |s| > w && |s| > 1 ==> s[0] != '0'
    decreases n, w
  {
    if n < 10 && w <= 1 {
    } else {
      var w' := if w == 0 then 0 else w - 1;
      var high := PrintNat(n / 10, w');
      NoLeadingZeros(n / 10, w');
      assert PrintNat(n, w) == high + [DigitChar(n % 10)];
      if |high| == 1 && w <= 1 {
        assert n / 10 > 0;
        OneDigit(n / 10, w');
      }
    }
  }

  lemma {:induction false} OneDigit(n: nat, w: nat)
    requires |PrintNat(n, w)| == 1 && n > 0
    ensures PrintNat(n, w)[0] != '0'
  {
    var s := PrintNat(n, w);
    assert s == [s[0]] && s[..0] == [] && ParseNat([]) == 0;
    assert ParseNat(s) == 10 * ParseNat(s[..0]) + DigitValue(s[0]);
  }

  function Pow10(k: nat): nat {
    if k == 0 then 1 else 10 * Pow10(k - 1)
  }

  lemma {:induction false} ParseNatConcat(a: string, b: string)
    requires IsDigits(a) && IsDigits(b)
    ensures IsDigits(a + b) && ParseNat(a + b) == ParseNat(a) * Pow10(|b|) + ParseNat(b)
    decreases |b|
  {
    if |b| == 0 {
      assert a + b == a;
    } else {
      var front, last := b[..|b| - 1], b[|b| - 1];
      ParseNatConcat(a, front);
      assert (a + b)[..|a + b| - 1] == a + front;
      assert (a + b)[|a + b| - 1] == last;
      ShiftLeft(ParseNat(a), Pow10(|front|), ParseNat(front), DigitValue(last));
    }
  }

  lemma {:induction false} ShiftLeft(x: nat, p: nat, y: nat, d: nat)
    ensures 10 * (x * p + y) + d == x * (10 * p) + (10 * y + d)
  {
  }

  lemma {:induction false} TwoDigits(n: nat)
    requires n < 100
    ensures |PrintNat(n, 2)| == 2
  {
    assert PrintNat(n, 2) == PrintNat(n / 10, 1) + [DigitChar(n % 10)];
  }

  lemma {:induction false} ThreeDigits(n: nat)
    requires n < 1000
    ensures |PrintNat(n, 3)| == 3
  {
    assert PrintNat(n, 3) == PrintNat(n / 10, 2) + [DigitChar(n % 10)];
    TwoDigits(n / 10);
  }

  // ----- Fixed-point numbers -----

  function Zeros(n: nat): (s: string)
    ensures IsDigits(s) && |s| == n
  {
    seq(n, _ => '0')
  }

  function StripZeros(s: string): (r: string)
    ensures |r| <= |s|
  {
    if |s| > 0 && s[|s| - 1] == '0' then StripZeros(s[..|s| - 1]) else s
  }

  lemma {:induction false} ZerosAreNothing(n: nat)
    ensures ParseNat(Zeros(n)) == 0
  {
    if n == 0 {
    } else {
      assert Zeros(n)[..n - 1] == Zeros(n - 1);
      ZerosAreNothing(n - 1);
    }
  }

  lemma {:induction false} StrippedZeros(s: string)
    ensures s == StripZeros(s) + Zeros(|s| - |StripZeros(s)|)
  {
    if |s| > 0 && s[|s| - 1] == '0' {
      StrippedZeros(s[..|s| - 1]);
      assert s == s[..|s| - 1] + ['0'];
    }
  }

  /** Exactly p digits: cut off or filled up with zeros on the right. */
  function FitDigits(s: string, p: nat): (r: string)
    requires IsDigits(s)
    ensures IsDigits(r) && |r| == p
  {
    if |s| >= p then s[..p] else s + Zeros(p - |s|)
  }

  function PointAt(s: string): (k: nat)
    ensures k <= |s|
    ensures k < |s| ==> s[k] == '.'
    ensures forall j :: 0 <= j < k ==> s[j] != '.'
  {
    if |s| == 0 || s[0] == '.' then 0 else 1 + PointAt(s[1..])
  }

  /** The digits with a decimal point, trailing zeros and a bare point left away. */
  function WithPoint(whole: string, frac: string): string {
    var digits := StripZeros(frac);
    whole + (if |digits| == 0 then [] else "." + digits)
  }

  function PrintUnsigned(u: nat, p: nat): string {
    var s := PrintNat(u, p + 1);
    WithPoint(s[..|s| - p], s[|s| - p..])
  }

  /** v divided by 10 to the power of p. */
  function PrintFloat(v: int, p: nat): string {
    if v < 0 then "-" + PrintUnsigned(-v, p) else PrintUnsigned(v, p)
  }

  function ParseUnsigned(s: string, p: nat): Option<nat> {
    var k := PointAt(s);
    var digits := if k < |s| then s[k + 1..] else [];
    if |s| == 0 || !IsDigits(s[..k]) || !IsDigits(digits) then None
    else Some(ParseNat(s[..k] + FitDigits(digits, p)))
  }

  function ParseFloat(s: string, p: nat): Option<int> {
    if |s| > 0 && s[0] == '-' then
      match ParseUnsigned(s[1..], p) case Some(u) => Some(0 - u as int) case None => None
    else
      match ParseUnsigned(if |s| > 0 && s[0] == '+' then s[1..] else s, p)
      case Some(u) => Some(u as int)
      case None => None
  }

  lemma PointIsFirst(s: string, k: nat)
    requires k <= |s| && (k < |s| ==> s[k] == '.')
    requires forall j :: 0 <= j < k ==> s[j] != '.'
    ensures PointAt(s) == k
  {
  }

  lemma {:induction false} WithPointRoundTrip(s: string, whole: string, frac: string)
    requires IsDigits(s) && s == whole + frac && |whole| > 0
    ensures var t := WithPoint(whole, frac);
            |t| > 0 && IsDigit(t[0]) && ParseUnsigned(t, |frac|) == Some(ParseNat(s))
  {
    var digits := StripZeros(frac);
    var t := WithPoint(whole, frac);
    StrippedZeros(frac);
    assert IsDigits(whole) && IsDigits(frac) by {
      assert whole == s[..|whole|] && frac == s[|whole|..];
    }
    assert IsDigits(digits) by {
      assert forall k :: 0 <= k < |digits| ==> digits[k] == frac[k];
    }
    PointIsFirst(t, |whole|);
    assert t[..|whole|] == whole;
    assert |digits| > 0 ==> t[|whole| + 1..] == digits;
    assert FitDigits(digits, |frac|) == frac;
  }

  lemma {:induction false} SignRoundTrip(s: string, p: nat, u: nat)
    requires |s| > 0 && IsDigit(s[0]) && ParseUnsigned(s, p) == Some(u)
    ensures ParseFloat(s, p) == Some(u) && ParseFloat("-" + s, p) == Some(0 - u as int)
  {
    assert ("-" + s)[1..] == s;
  }

  predicate EndsWell(s: string) {
    |s| > 0 && s[|s| - 1] != '.' && ('.' in s ==> s[|s| - 1] != '0')
  }

  lemma {:induction false} WithPointEndsWell(whole: string, frac: string)
    requires IsDigits(whole) && IsDigits(frac) && |whole| > 0
    ensures EndsWell(WithPoint(whole, frac))
  {
    var digits := StripZeros(frac);
    LastStays(frac);
    StrippedZeros(frac);
    assert forall k :: 0 <= k < |digits| ==> digits[k] == frac[k];
    assert '.' !in whole;
  }

  lemma {:induction false} UnsignedEndsWell(u: nat, p: nat)
    ensures EndsWell(PrintUnsigned(u, p))
  {
    var digits := PrintNat(u, p + 1);
    WithPointEndsWell(digits[..|digits| - p], digits[|digits| - p..]);
  }

  /** No spare zeros are printed after the point, and no bare point. */
  lemma {:induction false} NoSpareZeros(v: int, p: nat)
    ensures EndsWell(PrintFloat(v, p))
  {
    var u: nat := if v < 0 then -v else v;
    UnsignedEndsWell(u, p);
    var s := PrintUnsigned(u, p);
    assert '.' in "-" + s <==> '.' in s;
  }

  lemma {:induction false} LastStays(s: string)
    ensures var r := StripZeros(s);
            |r| > 0 ==> r[|r| - 1] != '0'
  {
    if |s| == 0 {
    } else if s[|s| - 1] == '0' {
      LastStays(s[..|s| - 1]);
    }
  }

  lemma {:induction false} UnsignedRoundTrip(u: nat, p: nat)
    ensures var s := PrintUnsigned(u, p);
            |s| > 0 && IsDigit(s[0]) && ParseUnsigned(s, p) == Some(u)
  {
    var digits := PrintNat(u, p + 1);
    WithPointRoundTrip(digits, digits[..|digits| - p], digits[|digits| - p..]);
  }

  /** Every integer survives being printed as a fixed-point number and parsed again. */
  lemma {:induction false} FloatRoundTrip(v: int, p: nat)
    ensures ParseFloat(PrintFloat(v, p), p) == Some(v)
  {
    var u: nat := if v < 0 then -v else v;
    UnsignedRoundTrip(u, p);
    SignRoundTrip(PrintUnsigned(u, p), p, u);
  }
}
