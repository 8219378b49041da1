/**
 * The bitwise operators of the packed word, bit by bit, and their agreement with
 * the arithmetic that `Bits` and `Slot0` compute with.
 */
module Bitwise {
  import opened Integers
  import opened Bits

  // ---- A number and its bits, least significant first ----

  function BitsOf(n: nat, width: nat): (bs: seq<bool>)
    ensures |bs| == width
    decreases width
  {
    if width == 0 then [] else [Mod(n, 2) == 1] + BitsOf(Div(n, 2), width - 1)
  }

  function Number(bs: seq<bool>): nat {
    if bs == [] then 0 else (if bs[0] then 1 else 0) + 2 * Number(bs[1..])
  }

  function Repeat(b: bool, n: nat): seq<bool> { seq(n, _ => b) }

  lemma PowNext(k: nat)
    requires 0 < k
    ensures Pow2(k) == 2 * Pow2(k - 1)
  {
    PowAdd(1, k - 1);
    PowSmall();
  }

  lemma {:induction false} NumberOfBits(n: nat, width: nat)
    requires n < Pow2(width)
    ensures Number(BitsOf(n, width)) == n
    decreases width
  {
    if width == 0 {
      PowSmall();
    } else {
      PowNext(width);
      DivModNat(n, 2);
      NumberOfBits(Div(n, 2), width - 1);
      assert BitsOf(n, width)[1..] == BitsOf(Div(n, 2), width - 1);
    }
  }

  lemma Double(p: nat, v: nat)
    ensures 2 * (p * v) == (2 * p) * v && 2 * (v * p) == v * (2 * p)
  {
  }

  lemma {:induction false} NumberConcat(a: seq<bool>, b: seq<bool>)
    ensures Number(a + b) == Number(a) + Number(b) * Pow2(|a|)
  {
    if a == [] {
      PowSmall();
      assert a + b == b;
    } else {
      NumberConcat(a[1..], b);
      PowNext(|a|);
      Double(Pow2(|a| - 1), Number(b));
      assert (a + b)[1..] == a[1..] + b;
    }
  }

  lemma ShiftHalves(hi: nat, lo: nat, k: nat)
    requires 0 < k && lo < Pow2(k)
    ensures Div(lo, 2) < Pow2(k - 1)
    ensures Div(hi * Pow2(k) + lo, 2) == hi * Pow2(k - 1) + Div(lo, 2) && Mod(hi * Pow2(k) + lo, 2) == Mod(lo, 2)
  {
    PowNext(k);
    DivModNat(lo, 2);
    Double(Pow2(k - 1), hi);
    DivUnique(hi * Pow2(k) + lo, 2, hi * Pow2(k - 1) + Div(lo, 2), Mod(lo, 2));
  }

  /** The bits of a number with `lo` below place `k` and `hi` above it. */
  lemma {:induction false} BitsSplit(hi: nat, lo: nat, k: nat, width: nat)
    requires lo < Pow2(k)
    ensures BitsOf(hi * Pow2(k) + lo, k + width) == BitsOf(lo, k) + BitsOf(hi, width)
    decreases k
  {
    if k == 0 {
      PowSmall();
      assert BitsOf(lo, 0) + BitsOf(hi, width) == BitsOf(hi, width);
    } else {
      ShiftHalves(hi, lo, k);
      BitsSplit(hi, Div(lo, 2), k - 1, width);
    }
  }

  lemma {:induction false} ZeroBits(width: nat)
    ensures BitsOf(0, width) == Repeat(false, width)
    decreases width
  {
    if width > 0 {
      DivUnique(0, 2, 0, 0);
      ZeroBits(width - 1);
    }
  }

  lemma {:induction false} OneBits(width: nat)
    ensures BitsOf(Mask(width), width) == Repeat(true, width)
    decreases width
  {
    if width > 0 {
      PowNext(width);
      DivUnique(Mask(width), 2, Mask(width - 1), 1);
      OneBits(width - 1);
    }
  }

  // ---- Operators on words of a width ----

  /** `(1 << bits) - 1`. */
  function Mask(bits: nat): nat { Pow2(bits) - 1 }

  function OrBits(a: seq<bool>, b: seq<bool>): seq<bool>
    requires |a| == |b|
  {
    seq(|a|, i requires 0 <= i < |a| => a[i] || b[i])
  }

  function AndBits(a: seq<bool>, b: seq<bool>): seq<bool>
    requires |a| == |b|
  {
    seq(|a|, i requires 0 <= i < |a| => a[i] && b[i])
  }

  function NotBits(a: seq<bool>): seq<bool> {
    seq(|a|, i requires 0 <= i < |a| => !a[i])
  }

  function Or(a: nat, b: nat, width: nat): nat { Number(OrBits(BitsOf(a, width), BitsOf(b, width))) }

  function And(a: nat, b: nat, width: nat): nat { Number(AndBits(BitsOf(a, width), BitsOf(b, width))) }

  function Not(a: nat, width: nat): nat { Number(NotBits(BitsOf(a, width))) }

  lemma {:induction false} BitsOfNumber(bs: seq<bool>)
    ensures BitsOf(Number(bs), |bs|) == bs
  {
    if bs != [] {
      BitsOfNumber(bs[1..]);
      DivUnique(Number(bs), 2, Number(bs[1..]), if bs[0] then 1 else 0);
    }
  }

  // ---- Fields ----

  /** A word as the bits below a field, the field's and those above it. */
  lemma FieldBits(lo: nat, mid: nat, hi: nat, shift: nat, bits: nat, rest: nat)
    requires lo < Pow2(shift) && mid < Pow2(bits)
    ensures BitsOf((hi * Pow2(bits) + mid) * Pow2(shift) + lo, shift + (bits + rest))
      == BitsOf(lo, shift) + (BitsOf(mid, bits) + BitsOf(hi, rest))
  {
    var upper := hi * Pow2(bits) + mid;
    assert BitsOf(upper, bits + rest) == BitsOf(mid, bits) + BitsOf(hi, rest) by {
      BitsSplit(hi, mid, bits, rest);
    }
    BitsSplit(upper, lo, shift, bits + rest);
  }

  lemma FieldNumber(lo: nat, mid: nat, hi: nat, shift: nat, bits: nat, rest: nat)
    requires lo < Pow2(shift) && mid < Pow2(bits) && hi < Pow2(rest)
    ensures Number(BitsOf(lo, shift) + (BitsOf(mid, bits) + BitsOf(hi, rest)))
      == (hi * Pow2(bits) + mid) * Pow2(shift) + lo
  {
    NumberConcat(BitsOf(lo, shift), BitsOf(mid, bits) + BitsOf(hi, rest));
    NumberConcat(BitsOf(mid, bits), BitsOf(hi, rest));
    NumberOfBits(lo, shift);
    NumberOfBits(mid, bits);
    NumberOfBits(hi, rest);
  }

  /** Masking keeps the remainder. */
  lemma AndMask(x: nat, bits: nat, rest: nat)
    requires x < Pow2(bits + rest)
    ensures And(x, Mask(bits), bits + rest) == Mod(x, Pow2(bits))
  {
    var q, r := Div(x, Pow2(bits)), Mod(x, Pow2(bits));
    DivModNat(x, Pow2(bits));
    BitsSplit(q, r, bits, rest);
    BitsSplit(0, Mask(bits), bits, rest);
    OneBits(bits);
    ZeroBits(rest);
    var kept := BitsOf(r, bits) + Repeat(false, rest);
    assert AndBits(BitsOf(x, bits + rest), BitsOf(Mask(bits), bits + rest)) == kept;
    BitsSplit(0, r, bits, rest);
    RemainderFits(x, bits, rest);
    NumberOfBits(r, bits + rest);
  }

  lemma RemainderFits(x: nat, bits: nat, rest: nat)
    ensures Mod(x, Pow2(bits)) < Pow2(bits + rest)
  {
    PowAdd(bits, rest);
    MulLe(1, Pow2(rest), Pow2(bits));
  }

  /** A value shifted into a field has zeros below and above it. */
  lemma ShiftedBits(v: nat, shift: nat, bits: nat, rest: nat)
    requires v < Pow2(bits)
    ensures BitsOf(Shl(v, shift), shift + (bits + rest))
      == Repeat(false, shift) + (BitsOf(v, bits) + Repeat(false, rest))
  {
    FieldBits(0, v, 0, shift, bits, rest);
    ZeroBits(shift);
    ZeroBits(rest);
  }

  lemma NotParts(a: nat, b: nat, c: nat)
    ensures NotBits(Repeat(false, a) + (Repeat(true, b) + Repeat(false, c)))
      == Repeat(true, a) + (Repeat(false, b) + Repeat(true, c))
  {
  }

  lemma AndParts(below: seq<bool>, field: seq<bool>, above: seq<bool>)
    ensures AndBits(below + (field + above), Repeat(true, |below|) + (Repeat(false, |field|) + Repeat(true, |above|)))
      == below + (Repeat(false, |field|) + above)
  {
  }

  lemma OrParts(below: seq<bool>, field: seq<bool>, above: seq<bool>)
    ensures OrBits(below + (Repeat(false, |field|) + above), Repeat(false, |below|) + (field + Repeat(false, |above|)))
      == below + (field + above)
  {
  }

  /** The inverted mask of a field has ones below and above it. */
  lemma InvertedMaskBits(shift: nat, bits: nat, rest: nat)
    ensures BitsOf(Not(Shl(Mask(bits), shift), shift + (bits + rest)), shift + (bits + rest))
      == Repeat(true, shift) + (Repeat(false, bits) + Repeat(true, rest))
  {
    ShiftedBits(Mask(bits), shift, bits, rest);
    OneBits(bits);
    NotBitsOf(Shl(Mask(bits), shift), shift, bits, rest);
  }

  lemma NotBitsOf(mask: nat, a: nat, b: nat, c: nat)
    requires BitsOf(mask, a + (b + c)) == Repeat(false, a) + (Repeat(true, b) + Repeat(false, c))
    ensures BitsOf(Not(mask, a + (b + c)), a + (b + c)) == Repeat(true, a) + (Repeat(false, b) + Repeat(true, c))
  {
    NotParts(a, b, c);
    BitsOfNumber(Repeat(true, a) + (Repeat(false, b) + Repeat(true, c)));
  }

  /** Clearing a field keeps the bits below and above it. */
  lemma ClearedBits(word: nat, inverted: nat, below: seq<bool>, field: seq<bool>, above: seq<bool>)
    requires var width := |below| + (|field| + |above|);
      && BitsOf(word, width) == below + (field + above)
      && BitsOf(inverted, width) == Repeat(true, |below|) + (Repeat(false, |field|) + Repeat(true, |above|))
    ensures var width := |below| + (|field| + |above|);
      BitsOf(And(word, inverted, width), width) == below + (Repeat(false, |field|) + above)
  {
    AndParts(below, field, above);
    BitsOfNumber(below + (Repeat(false, |field|) + above));
  }

  /** Or-ing a value into a cleared field puts its bits there. */
  lemma SetBits(cleared: nat, lo: nat, hi: nat, v: nat, shift: nat, bits: nat, rest: nat)
    requires lo < Pow2(shift) && v < Pow2(bits) && hi < Pow2(rest)
    requires BitsOf(cleared, shift + (bits + rest)) == BitsOf(lo, shift) + (Repeat(false, bits) + BitsOf(hi, rest))
    ensures Or(cleared, Shl(v, shift), shift + (bits + rest)) == (hi * Pow2(bits) + v) * Pow2(shift) + lo
  {
    ShiftedBits(v, shift, bits, rest);
    OrParts(BitsOf(lo, shift), BitsOf(v, bits), BitsOf(hi, rest));
    FieldNumber(lo, v, hi, shift, bits, rest);
  }

  /** The arithmetic write of a word given by its three parts. */
  lemma WriteParts(word: nat, value: nat, shift: nat, bits: nat, rest: nat) returns (lo: nat, mid: nat, hi: nat)
    requires word < Pow2(shift + (bits + rest))
    ensures lo < Pow2(shift) && mid < Pow2(bits) && hi < Pow2(rest)
    ensures word == (hi * Pow2(bits) + mid) * Pow2(shift) + lo
    ensures WriteField(word, value, shift, bits) == (hi * Pow2(bits) + Mod(value, Pow2(bits))) * Pow2(shift) + lo
  {
    var upper := Div(word, Pow2(shift));
    DivModNat(word, Pow2(shift));
    DivModNat(upper, Pow2(bits));
    lo, mid, hi := Mod(word, Pow2(shift)), Mod(upper, Pow2(bits)), Div(upper, Pow2(bits));
    AboveFits(word, shift, bits, rest);
    Regroup(hi * Pow2(bits), mid, Mod(value, Pow2(bits)), Pow2(shift), lo);
  }

  lemma AboveFits(word: nat, shift: nat, bits: nat, rest: nat)
    requires word < Pow2(shift + (bits + rest))
    ensures Div(Div(word, Pow2(shift)), Pow2(bits)) < Pow2(rest)
  {
    var s, b, r := Pow2(shift), Pow2(bits), Pow2(rest);
    PowAdd(bits, rest);
    PowAdd(shift, bits + rest);
    DivDiv(word, s, b);
    Associate(s, b, r);
    FloorLe(word, s * b, r);
  }

  lemma Associate(s: nat, b: nat, r: nat)
    ensures r * (s * b) == s * (b * r)
  {
  }

  lemma Regroup(h: nat, m: nat, v: nat, s: nat, lo: nat)
    ensures (h + v) * s + lo == (h + m) * s + lo - m * s + v * s
  {
  }

  /** Reading a field masks the shifted word. */
  lemma ReadIsBitwise(word: nat, shift: nat, bits: nat, rest: nat)
    requires Div(word, Pow2(shift)) < Pow2(bits + rest)
    ensures And(Div(word, Pow2(shift)), Mask(bits), bits + rest) == ReadField(word, shift, bits)
  {
    AndMask(Div(word, Pow2(shift)), bits, rest);
  }

  lemma ClearThenSet(lo: nat, mid: nat, hi: nat, v: nat, shift: nat, bits: nat, rest: nat)
    requires lo < Pow2(shift) && mid < Pow2(bits) && hi < Pow2(rest) && v < Pow2(bits)
    ensures var width := shift + (bits + rest);
      var word := (hi * Pow2(bits) + mid) * Pow2(shift) + lo;
      Or(And(word, Not(Shl(Mask(bits), shift), width), width), Shl(v, shift), width)
      == (hi * Pow2(bits) + v) * Pow2(shift) + lo
  {
    var width := shift + (bits + rest);
    var word := (hi * Pow2(bits) + mid) * Pow2(shift) + lo;
    var inverted := Not(Shl(Mask(bits), shift), width);
    FieldBits(lo, mid, hi, shift, bits, rest);
    InvertedMaskBits(shift, bits, rest);
    ClearedBits(word, inverted, BitsOf(lo, shift), BitsOf(mid, bits), BitsOf(hi, rest));
    SetBits(And(word, inverted, width), lo, hi, v, shift, bits, rest);
  }

  /**
   * The source's write, `(word & !(mask << shift)) | ((value & mask) << shift)`,
   * is the arithmetic `WriteField`.
   */
  lemma WriteIsBitwise(word: nat, value: nat, shift: nat, bits: nat, rest: nat)
    requires word < Pow2(shift + (bits + rest)) && value < Pow2(bits + (shift + rest))
    ensures var width := shift + (bits + rest);
      Or(And(word, Not(Shl(Mask(bits), shift), width), width), Shl(And(value, Mask(bits), width), shift), width)
      == WriteField(word, value, shift, bits)
  {
    var width := shift + (bits + rest);
    assert width == bits + (shift + rest);
    var lo, mid, hi := WriteParts(word, value, shift, bits, rest);
    AndMask(value, bits, shift + rest);
    ClearThenSet(lo, mid, hi, Mod(value, Pow2(bits)), shift, bits, rest);
  }

  // ---- Packing ----

  /** Setting bits above all others is addition. */
  lemma OrAbove(x: nat, v: nat, k: nat, width: nat)
    requires x < Pow2(k) && v < Pow2(width)
    ensures Or(x, Shl(v, k), k + width) == x + Shl(v, k)
  {
    BitsSplit(0, x, k, width);
    BitsSplit(v, 0, k, width);
    ZeroBits(k);
    ZeroBits(width);
    assert OrBits(BitsOf(x, k + width), BitsOf(Shl(v, k), k + width)) == BitsOf(x, k) + BitsOf(v, width);
    NumberConcat(BitsOf(x, k), BitsOf(v, width));
    NumberOfBits(x, k);
    NumberOfBits(v, width);
  }

  /** The digits or-ed into their places one after the other, as the encoder does. */
  function OrSum(digits: seq<nat>, bits: seq<nat>, n: nat, width: nat): nat
    requires n <= |digits| == |bits|
    decreases n
  {
    if n == 0 then 0 else Or(OrSum(digits, bits, n - 1, width), Shl(digits[n - 1], Offset(bits, n - 1)), width)
  }

  lemma DigitBound(sum: nat, digit: nat, p: nat, q: nat)
    requires sum < p && digit < q
    ensures sum + digit * p < p * q
  {
    MulLe(digit, q - 1, p);
    assert (q - 1) * p == p * q - p;
  }

  lemma {:induction false} SumBound(digits: seq<nat>, bits: seq<nat>, n: nat)
    requires InRadix(digits, bits) && n <= |digits|
    ensures Sum(digits, bits, n) < Pow2(Offset(bits, n))
    decreases n
  {
    if n == 0 {
      PowSmall();
    } else {
      SumBound(digits, bits, n - 1);
      OffsetNext(bits, n - 1);
      PowAdd(Offset(bits, n - 1), bits[n - 1]);
      DigitBound(Sum(digits, bits, n - 1), digits[n - 1], Pow2(Offset(bits, n - 1)), Pow2(bits[n - 1]));
    }
  }

  lemma PowMonotone(a: nat, b: nat)
    requires a <= b
    ensures Pow2(a) <= Pow2(b)
  {
    PowAdd(a, b - a);
    MulLe(1, Pow2(b - a), Pow2(a));
  }

  /** Or-ing disjoint fields adds them up. */
  lemma {:induction false} OrSumIsSum(digits: seq<nat>, bits: seq<nat>, n: nat, width: nat)
    requires InRadix(digits, bits) && n <= |digits| && Offset(bits, n) <= width
    ensures OrSum(digits, bits, n, width) == Sum(digits, bits, n)
    decreases n
  {
    if n > 0 {
      var k := Offset(bits, n - 1);
      OffsetNext(bits, n - 1);
      OrSumIsSum(digits, bits, n - 1, width);
      SumBound(digits, bits, n - 1);
      PowMonotone(bits[n - 1], width - k);
      OrAbove(Sum(digits, bits, n - 1), digits[n - 1], k, width - k);
    }
  }
}
