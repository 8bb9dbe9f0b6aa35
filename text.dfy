/** ASCII text helpers standing for the Python string operations the scanner
    uses: `str.lower`, the `in` substring test, `str.isdigit`, `int(...)` on a
    digit string, and `str(n)` on a natural number. */
module Text {

  predicate IsDigit(c: char) {
    '0' <= c <= '9'
  }

  /** `s.isdigit()`: non-empty and all (ASCII) digits. */
  predicate IsDigits(s: string) {
    |s| > 0 && forall i :: 0 <= i < |s| ==> IsDigit(s[i])
  }

  predicate AllDigits(s: string) {
    forall i :: 0 <= i < |s| ==> IsDigit(s[i])
  }

  function LowerChar(c: char): char {
    if 'A' <= c <= 'Z' then (c as int + 32) as char else c
  }

  /** `s.lower()` on ASCII text. */
  function Lower(s: string): (r: string)
    ensures |r| == |s|
    ensures forall i :: 0 <= i < |s| ==> r[i] == LowerChar(s[i])
  {
    seq(|s|, i requires 0 <= i < |s| => LowerChar(s[i]))
  }

  function UpperChar(c: char): char {
    if 'a' <= c <= 'z' then (c as int - 32) as char else c
  }

  /** `s.upper()` on ASCII text. */
  function Upper(s: string): (r: string)
    ensures |r| == |s|
    ensures forall i :: 0 <= i < |s| ==> r[i] == UpperChar(s[i])
  {
    seq(|s|, i requires 0 <= i < |s| => UpperChar(s[i]))
  }

  lemma {:induction false} LowerIdempotent(s: string)
    ensures Lower(Lower(s)) == Lower(s)
  {
  }

  predicate OccursAt(s: string, sub: string, i: nat) {
    i + |sub| <= |s| && s[i..i + |sub|] == sub
  }

  /** Python's `sub in s`. */
  predicate Contains(s: string, sub: string) {
    exists i | 0 <= i <= |s| :: OccursAt(s, sub, i)
  }

  /** A substring of either part is a substring of the concatenation. */
  lemma ContainsInConcat(a: string, b: string, sub: string)
    ensures Contains(a, sub) ==> Contains(a + b, sub)
    ensures Contains(b, sub) ==> Contains(a + b, sub)
  {
    if Contains(a, sub) {
      var i :| 0 <= i <= |a| && OccursAt(a, sub, i);
      assert (a + b)[i..i + |sub|] == a[i..i + |sub|];
      assert OccursAt(a + b, sub, i);
    }
    if Contains(b, sub) {
      var i :| 0 <= i <= |b| && OccursAt(b, sub, i);
      assert (a + b)[|a| + i..|a| + i + |sub|] == b[i..i + |sub|];
      assert OccursAt(a + b, sub, |a| + i);
    }
  }

  function DigitValue(c: char): nat
    requires IsDigit(c)
  {
    c as int - '0' as int
  }

  function DigitChar(d: nat): (c: char)
    requires d < 10
    ensures IsDigit(c) && DigitValue(c) == d
  {
    ('0' as int + d) as char
  }

  /** `int(ds)` for a string of ASCII digits (the empty string reads as 0). */
  function Value(ds: string): nat
    requires AllDigits(ds)
  {
    if ds == [] then 0 else Value(ds[..|ds| - 1]) * 10 + DigitValue(ds[|ds| - 1])
  }

  /** `str(n)`: the decimal numeral, without leading zeros. */
  function Decimal(n: nat): (s: string)
    ensures IsDigits(s)
  {
    if n < 10 then [DigitChar(n)] else Decimal(n / 10) + [DigitChar(n % 10)]
  }

  function Pow10(k: nat): (p: nat)
    ensures p >= 1
  {
    if k == 0 then 1 else 10 * Pow10(k - 1)
  }

  /** `int(str(n)) == n`. */
  lemma {:induction false} ValueOfDecimal(n: nat)
    ensures Value(Decimal(n)) == n
  {
    var s := Decimal(n);
    if n >= 10 {
      ValueOfDecimal(n / 10);
      assert s[..|s| - 1] == Decimal(n / 10);
    }
  }

  /** `str(int(ds))` strips leading zeros: it is never longer than `ds`. */
  lemma {:induction false} DecimalOfValueNoLonger(ds: string)
    requires IsDigits(ds)
    ensures |Decimal(Value(ds))| <= |ds|
  {
    ValueBelowPow10(ds);
    DecimalLengthBelow(Value(ds), |ds|);
  }

  lemma {:induction false} ValueBelowPow10(ds: string)
    requires AllDigits(ds)
    ensures Value(ds) < Pow10(|ds|)
  {
    if ds != [] {
      var init := ds[..|ds| - 1];
      ValueBelowPow10(init);
      assert Value(init) * 10 <= (Pow10(|init|) - 1) * 10;
    }
  }

  lemma {:induction false} DecimalLengthBelow(n: nat, k: nat)
    requires k >= 1 && n < Pow10(k)
    ensures |Decimal(n)| <= k
  {
    if n >= 10 {
      assert Pow10(1) == 10;
      assert n / 10 < Pow10(k - 1);
      DecimalLengthBelow(n / 10, k - 1);
    }
  }

  /** A number is below 10 to the power of its numeral's length. */
  lemma {:induction false} BelowPow10OfDecimal(n: nat)
    ensures n < Pow10(|Decimal(n)|)
  {
    if n >= 10 {
      BelowPow10OfDecimal(n / 10);
    } else {
      assert Pow10(1) == 10;
    }
  }

  /** `int(a + b) == int(a) * 10^len(b) + int(b)`. */
  lemma {:induction false} ValueConcat(a: string, b: string)
    requires AllDigits(a) && AllDigits(b)
    ensures AllDigits(a + b)
    ensures Value(a + b) == Value(a) * Pow10(|b|) + Value(b)
  {
    assert forall i :: 0 <= i < |a + b| ==> (a + b)[i] == if i < |a| then a[i] else b[i - |a|];
    if b == [] {
      assert a + b == a;
    } else {
      var ab, b' := a + b, b[..|b| - 1];
      assert ab[..|ab| - 1] == a + b';
      assert ab[|ab| - 1] == b[|b| - 1];
      ValueConcat(a, b');
      var x, p, y, d := Value(a), Pow10(|b'|), Value(b'), DigitValue(b[|b| - 1]);
      assert Value(ab) == Value(a + b') * 10 + d;
      assert Value(b) == y * 10 + d;
      Distribute(x, p, y, d);
    }
  }

  lemma Distribute(x: nat, p: nat, y: nat, d: nat)
    ensures (x * p + y) * 10 + d == x * (10 * p) + (y * 10 + d)
  {
  }

  predicate AllZeros(s: string) {
    forall i :: 0 <= i < |s| ==> s[i] == '0'
  }

  /** Only a run of zeros reads as 0. */
  lemma {:induction false} ZeroValueIsZeros(ds: string)
    requires AllDigits(ds) && Value(ds) == 0
    ensures AllZeros(ds)
  {
    if ds != [] {
      ZeroValueIsZeros(ds[..|ds| - 1]);
    }
  }

  /** The digits of `ds` left over once `str(int(ds))` is cut from its end
      are leading zeros, and what is cut is exactly `str(int(ds))`. */
  lemma {:induction false} LeadingPartIsZeros(ds: string)
    requires IsDigits(ds)
    ensures |Decimal(Value(ds))| <= |ds|
    ensures AllZeros(ds[..|ds| - |Decimal(Value(ds))|])
    ensures Value(ds[|ds| - |Decimal(Value(ds))|..]) == Value(ds)
  {
    DecimalOfValueNoLonger(ds);
    var k := |Decimal(Value(ds))|;
    var head, tail := ds[..|ds| - k], ds[|ds| - k..];
    assert ds == head + tail;
    BelowPow10OfDecimal(Value(ds));
    HeadOfShortValue(head, tail);
  }

  /** When `int(head + tail)` fits in `len(tail)` digits, `head` is zeros. */
  lemma {:induction false} HeadOfShortValue(head: string, tail: string)
    requires AllDigits(head) && AllDigits(tail)
    requires AllDigits(head + tail) && Value(head + tail) < Pow10(|tail|)
    ensures AllZeros(head) && Value(head + tail) == Value(tail)
  {
    ValueConcat(head, tail);
    var a, p, b := Value(head), Pow10(|tail|), Value(tail);
    assert a * p + b < p;
    NoRoomAbove(a, p, b);
    ZeroValueIsZeros(head);
  }

  lemma NoRoomAbove(a: nat, p: nat, b: nat)
    requires p >= 1 && a * p + b < p
    ensures a == 0
  {
  }

  lemma {:induction false} ZerosHaveValueZero(z: string)
    requires AllZeros(z)
    ensures AllDigits(z) && Value(z) == 0
  {
    if z != [] {
      ZerosHaveValueZero(z[..|z| - 1]);
    }
  }

  /** Leading zeros do not change `int(...)`. */
  lemma {:induction false} ZerosValue(z: string, t: string)
    requires AllZeros(z) && AllDigits(t)
    ensures AllDigits(z + t) && Value(z + t) == Value(t)
  {
    ZerosHaveValueZero(z);
    ValueConcat(z, t);
  }
}
