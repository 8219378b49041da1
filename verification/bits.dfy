/**
 * Bit fields of a natural number: a word made of fields of given widths is a
 * mixed-radix number, and reading or writing one field is reading or replacing
 * one digit.
 */
module Bits {
  import opened Integers

  /** `1 << n`, computed over a sequence of n places so that literal exponents are not unrolled. */
  function Pow2(n: nat): (p: nat)
    ensures p > 0
  {
    Doubled(seq(n, _ => ()))
  }

  function Doubled(places: seq<()>): (p: nat)
    ensures p > 0
  {
    if places == [] then 1 else 2 * Doubled(places[1..])
  }

  lemma {:induction false} DoubledAdd(a: seq<()>, b: seq<()>)
    ensures Doubled(a + b) == Doubled(a) * Doubled(b)
  {
    if a == [] {
      assert a + b == b;
    } else {
      DoubledAdd(a[1..], b);
      assert (a + b)[1..] == a[1..] + b;
      assert 2 * (Doubled(a[1..]) * Doubled(b)) == (2 * Doubled(a[1..])) * Doubled(b);
    }
  }

  lemma PowAdd(a: nat, b: nat)
    ensures Pow2(a + b) == Pow2(a) * Pow2(b)
  {
    var x: seq<()>, y: seq<()> := seq(a, _ => ()), seq(b, _ => ());
    assert seq(a + b, _ => ()) == x + y;
    DoubledAdd(x, y);
  }

  lemma PowSmall()
    ensures Pow2(0) == 1 && Pow2(1) == 2
  {
    var one: seq<()> := seq(1, _ => ());
    assert one[1..] == [];
  }

  // ---- Fields ----

  /** `value << shift`. */
  function Shl(value: nat, shift: nat): nat {
    value * Pow2(shift)
  }

  /** `(word >> shift) & mask`. */
  function ReadField(word: nat, shift: nat, bits: nat): (v: nat)
    ensures v < Pow2(bits)
  {
    Mod(Div(word, Pow2(shift)), Pow2(bits))
  }

  /** The source's masked write, as arithmetic; `Bitwise.WriteIsBitwise` shows that they agree. */
  function WriteField(word: nat, value: nat, shift: nat, bits: nat): nat {
    FieldWithin(word, shift, bits);
    word - ReadField(word, shift, bits) * Pow2(shift) + Mod(value, Pow2(bits)) * Pow2(shift)
  }

  lemma FieldWithin(word: nat, shift: nat, bits: nat)
    ensures ReadField(word, shift, bits) * Pow2(shift) <= word
  {
    var p := Pow2(shift);
    DivModNat(word, p);
    DivModNat(word / p, Pow2(bits));
    MulLe(ReadField(word, shift, bits), word / p, p);
  }

  // ---- Mixed-radix numbers, least significant digit first ----

  function Value(digits: seq<nat>, bits: seq<nat>): nat
    requires |digits| == |bits|
  {
    if digits == [] then 0 else digits[0] + Pow2(bits[0]) * Value(digits[1..], bits[1..])
  }

  /** Where field `i` starts: the widths of the fields below it. */
  function Offset(bits: seq<nat>, i: nat): nat
    requires i <= |bits|
    decreases i
  {
    if i == 0 then 0 else bits[0] + Offset(bits[1..], i - 1)
  }

  lemma {:induction false} OffsetNext(bits: seq<nat>, i: nat)
    requires i < |bits|
    ensures Offset(bits, i + 1) == Offset(bits, i) + bits[i]
    decreases i
  {
    if i > 0 {
      OffsetNext(bits[1..], i - 1);
    }
  }

  predicate InRadix(digits: seq<nat>, bits: seq<nat>) {
    |digits| == |bits| && forall i :: 0 <= i < |digits| ==> digits[i] < Pow2(bits[i])
  }

  function Digits(word: nat, bits: seq<nat>): (d: seq<nat>)
    ensures |d| == |bits|
    decreases bits
  {
    if bits == [] then []
    else [Mod(word, Pow2(bits[0]))] + Digits(Div(word, Pow2(bits[0])), bits[1..])
  }

  lemma {:induction false} DigitsInRadix(word: nat, bits: seq<nat>)
    ensures InRadix(Digits(word, bits), bits)
    decreases bits
  {
    if bits != [] {
      var w := Div(word, Pow2(bits[0]));
      var rest := Digits(w, bits[1..]);
      DigitsInRadix(w, bits[1..]);
      forall i | 0 <= i < |bits|
        ensures Digits(word, bits)[i] < Pow2(bits[i])
      {
        if i > 0 {
          assert Digits(word, bits)[i] == rest[i - 1] && bits[1..][i - 1] == bits[i];
        }
      }
    }
  }

  lemma {:induction false} ReadDigit(digits: seq<nat>, bits: seq<nat>, i: nat)
    requires InRadix(digits, bits) && i < |bits|
    ensures ReadField(Value(digits, bits), Offset(bits, i), bits[i]) == digits[i]
  {
    var p, rest := Pow2(bits[0]), Value(digits[1..], bits[1..]);
    DivUnique(Value(digits, bits), p, rest, digits[0]);
    if i == 0 {
      PowSmall();
    } else {
      var below := Offset(bits[1..], i - 1);
      ReadDigit(digits[1..], bits[1..], i - 1);
      PowAdd(bits[0], below);
      DivDiv(Value(digits, bits), p, Pow2(below));
    }
  }

  lemma {:induction false} ValueUpdate(digits: seq<nat>, bits: seq<nat>, i: nat, x: nat)
    requires |digits| == |bits| && i < |bits|
    ensures Value(digits[i := x], bits) == Value(digits, bits) + (x - digits[i]) * Pow2(Offset(bits, i))
  {
    var d := digits[i := x];
    if i == 0 {
      assert d[1..] == digits[1..];
    } else {
      assert d[1..] == digits[1..][i - 1 := x];
      ValueUpdate(digits[1..], bits[1..], i - 1, x);
      var p, b, v := Pow2(bits[0]), Pow2(Offset(bits[1..], i - 1)), Value(digits[1..], bits[1..]);
      PowAdd(bits[0], Offset(bits[1..], i - 1));
      Distribute(p, v, x - digits[i], b);
    }
  }

  lemma Replaced(word: int, y: int, x: int, p: int)
    ensures word - x * p + y * p == word + (y - x) * p
  {
  }

  /** Writing a field of a word replaces exactly that digit. */
  lemma WriteDigit(digits: seq<nat>, bits: seq<nat>, i: nat, x: nat)
    requires InRadix(digits, bits) && i < |bits|
    ensures WriteField(Value(digits, bits), x, Offset(bits, i), bits[i])
         == Value(digits[i := Mod(x, Pow2(bits[i]))], bits)
  {
    var y := Mod(x, Pow2(bits[i]));
    ReadDigit(digits, bits, i);
    ValueUpdate(digits, bits, i, y);
    Replaced(Value(digits, bits), y, digits[i], Pow2(Offset(bits, i)));
  }

  /** Every word within the total width is the value of its digits. */
  lemma {:induction false} DigitsValue(word: nat, bits: seq<nat>)
    requires word < Pow2(Offset(bits, |bits|))
    ensures Value(Digits(word, bits), bits) == word
    decreases bits
  {
    if bits != [] {
      var p, rest := Pow2(bits[0]), Offset(bits[1..], |bits| - 1);
      PowAdd(bits[0], rest);
      FloorLe(word, p, Pow2(rest));
      DigitsValue(Div(word, p), bits[1..]);
      var d := Digits(word, bits);
      assert d[0] == Mod(word, p) && d[1..] == Digits(Div(word, p), bits[1..]);
      DivModNat(word, p);
    }
  }

  lemma Below(p: nat, d: nat, v: nat, q: nat)
    requires d < p && v < q
    ensures d + p * v < p * q
  {
    MulLe(v, q - 1, p);
  }

  lemma {:induction false} ValueBound(digits: seq<nat>, bits: seq<nat>)
    requires InRadix(digits, bits)
    ensures Value(digits, bits) < Pow2(Offset(bits, |bits|))
  {
    if bits != [] {
      ValueBound(digits[1..], bits[1..]);
      var p, v, q := Pow2(bits[0]), Value(digits[1..], bits[1..]), Pow2(Offset(bits[1..], |bits| - 1));
      PowAdd(bits[0], Offset(bits[1..], |bits| - 1));
      Below(p, digits[0], v, q);
    }
  }

  function Sum(digits: seq<nat>, bits: seq<nat>, n: nat): nat
    requires |digits| == |bits| && n <= |bits|
  {
    if n == 0 then 0 else Sum(digits, bits, n - 1) + Shl(digits[n - 1], Offset(bits, n - 1))
  }

  lemma {:induction false} SumShift(digits: seq<nat>, bits: seq<nat>, n: nat)
    requires |digits| == |bits| && 0 < n <= |bits|
    ensures Sum(digits, bits, n) == digits[0] + Pow2(bits[0]) * Sum(digits[1..], bits[1..], n - 1)
  {
    if n > 1 {
      SumShift(digits, bits, n - 1);
      PowAdd(bits[0], Offset(bits[1..], n - 2));
      Distribute(Pow2(bits[0]), Sum(digits[1..], bits[1..], n - 2), digits[n - 1], Pow2(Offset(bits[1..], n - 2)));
    }
  }

  /** A mixed-radix number is the sum of its shifted digits. */
  lemma {:induction false} ValueIsSum(digits: seq<nat>, bits: seq<nat>)
    requires |digits| == |bits|
    ensures Value(digits, bits) == Sum(digits, bits, |bits|)
  {
    if bits != [] {
      ValueIsSum(digits[1..], bits[1..]);
      SumShift(digits, bits, |bits|);
    }
  }
}
