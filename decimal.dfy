/**
 * Decimal text of non-negative integers: Python's int(s) on a string of
 * ASCII digits, str(n), and the zero-padded format f'{n:04}'.
 */
module Decimal {

  import opened Wrappers

  predicate IsDigit(c: char) {
    '0' <= c <= '9'
  }

  function DigitValue(c: char): (d: nat)
    requires IsDigit(c)
    ensures d < 10
  {
    c as int - '0' as int
  }

  function DigitChar(d: nat): (c: char)
    requires d < 10
    ensures IsDigit(c) && DigitValue(c) == d
  {
    ('0' as int + d) as char
  }

  predicate AllDigits(s: string) {
    forall i :: 0 <= i < |s| ==> IsDigit(s[i])
  }

  /** The value of a string of digits, most significant digit first; leading zeros allowed. */
  function DigitsValue(s: string): nat
    requires AllDigits(s)
  {
    if s == [] then 0 else 10 * DigitsValue(s[..|s| - 1]) + DigitValue(s[|s| - 1])
  }

  /** int(s) for a string made of ASCII digits: the empty string is a ValueError. */
  function ParseInt(s: string): Option<nat> {
    if s != [] && AllDigits(s) then Some(DigitsValue(s)) else None
  }

  function Pow10(k: nat): (p: nat)
    ensures p >= 1
  {
    if k == 0 then 1 else 10 * Pow10(k - 1)
  }

  /** str(n): the shortest decimal text of n. */
  function ToDecimal(n: nat): (s: string)
    ensures s != [] && AllDigits(s)
  {
    if n < 10 then [DigitChar(n)] else ToDecimal(n / 10) + [DigitChar(n % 10)]
  }

  /** k zero characters. */
  function Zeros(k: nat): (z: string)
    ensures |z| == k && forall i :: 0 <= i < k ==> z[i] == '0'
  {
    if k == 0 then [] else Zeros(k - 1) + "0"
  }

  /** Left-pads s with '0' up to the given width; a longer s is kept whole. */
  function ZeroPad(s: string, width: nat): (r: string)
    ensures |r| == if |s| < width then width else |s|
  {
    if |s| < width then Zeros(width - |s|) + s else s
  }

  /** The padded text ends with s and everything before it is '0'. */
  lemma ZeroPadSpec(s: string, width: nat)
    ensures var r := ZeroPad(s, width);
            r[|r| - |s|..] == s && forall i :: 0 <= i < |r| - |s| ==> r[i] == '0'
  {
    if |s| < width {
      assert (Zeros(width - |s|) + s)[width - |s|..] == s;
    }
  }

  /** f'{n:04}': at least four digits, more when n needs them. */
  function Pad4(n: nat): string {
    ZeroPad(ToDecimal(n), 4)
  }

  lemma {:induction false} DigitsValueOfDecimal(n: nat)
    ensures DigitsValue(ToDecimal(n)) == n
  {
    if n >= 10 {
      DigitsValueOfDecimal(n / 10);
      var s := ToDecimal(n);
      assert s[..|s| - 1] == ToDecimal(n / 10);
    }
  }

  lemma {:induction false} DigitsValueOfZeros(z: string)
    requires forall i :: 0 <= i < |z| ==> z[i] == '0'
    ensures AllDigits(z) && DigitsValue(z) == 0
  {
    if z != [] {
      DigitsValueOfZeros(z[..|z| - 1]);
    }
  }

  /** Leading zeros do not change the value int() reads. */
  lemma {:induction false} DigitsValueSkipsZeros(z: string, s: string)
    requires forall i :: 0 <= i < |z| ==> z[i] == '0'
    requires AllDigits(s)
    ensures AllDigits(z + s) && DigitsValue(z + s) == DigitsValue(s)
  {
    if s == [] {
      assert z + s == z;
      DigitsValueOfZeros(z);
    } else {
      var s' := s[..|s| - 1];
      DigitsValueSkipsZeros(z, s');
      assert (z + s)[..|z + s| - 1] == z + s';
    }
  }

  /** Reading back the padded text gives the number: int(f'{n:04}') == n. */
  lemma Pad4Value(n: nat)
    ensures AllDigits(Pad4(n)) && DigitsValue(Pad4(n)) == n
  {
    var d := ToDecimal(n);
    var p := Pad4(n);
    DigitsValueOfDecimal(n);
    ZeroPadSpec(d, 4);
    assert p == p[..|p| - |d|] + d;
    DigitsValueSkipsZeros(p[..|p| - |d|], d);
  }

  lemma {:induction false} DecimalLength(n: nat, k: nat)
    requires k >= 1
    ensures n < Pow10(k) <==> |ToDecimal(n)| <= k
  {
    if n >= 10 && k > 1 {
      DecimalLength(n / 10, k - 1);
    } else if n >= 10 {
      assert |ToDecimal(n)| >= 2 by { assert ToDecimal(n) == ToDecimal(n / 10) + [DigitChar(n % 10)]; }
    }
  }

  /** f'{n:04}' has exactly four characters precisely for n below 10000, and more beyond. */
  lemma Pad4Length(n: nat)
    ensures |Pad4(n)| >= 4
    ensures |Pad4(n)| == 4 <==> n < 10000
  {
    DecimalLength(n, 4);
  }

  lemma {:induction false} DigitsValueZeroIsZeros(s: string)
    requires AllDigits(s) && DigitsValue(s) == 0
    ensures forall i :: 0 <= i < |s| ==> s[i] == '0'
  {
    if s != [] {
      DigitsValueZeroIsZeros(s[..|s| - 1]);
      assert forall i :: 0 <= i < |s| - 1 ==> s[i] == s[..|s| - 1][i];
    }
  }

  lemma ZeroPadAppend(d: string, c: char, width: nat)
    requires |d| <= width
    ensures ZeroPad(d + [c], width + 1) == ZeroPad(d, width) + [c]
  {
    if |d| < width {
      assert width + 1 - |d + [c]| == width - |d|;
    }
  }

  /** Padding the value of a digit string back to its own width gives the string again. */
  lemma {:induction false} ZeroPadOfDigitsValue(s: string)
    requires s != [] && AllDigits(s)
    ensures ZeroPad(ToDecimal(DigitsValue(s)), |s|) == s
  {
    var s', c := s[..|s| - 1], s[|s| - 1];
    assert s == s' + [c];
    var v', v := DigitsValue(s'), DigitsValue(s);
    if v' == 0 {
      DigitsValueZeroIsZeros(s');
      assert ToDecimal(v) == [] + [c];
      assert ZeroPad([], |s'|) == s';
      ZeroPadAppend([], c, |s'|);
    } else {
      ZeroPadOfDigitsValue(s');
      assert v / 10 == v' && v % 10 == DigitValue(c);
      assert ToDecimal(v) == ToDecimal(v') + [c];
      ZeroPadAppend(ToDecimal(v'), c, |s'|);
    }
  }
}
