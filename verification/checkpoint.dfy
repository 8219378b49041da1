/**
 * The checkpoint key and its compare-and-set, of
 * crates/lunarbase-indexer/src/checkpoint.rs: a byte-ordered store that behaves
 * as a numeric maximum. Bytes are numbers and strings compare by byte value.
 */
module Checkpoint {
  import opened Chain
  import opened Integers
  import opened Lexicographic

  const ZERO: nat := 48
  const COLON: nat := 58
  const NEWLINE: nat := 10
  const BRACE: nat := 123

  type Bytes = seq<nat>

  // ---- Fixed-width decimals ----

  function Pow10(w: nat): (p: nat)
    ensures p > 0
  {
    if w == 0 then 1 else 10 * Pow10(w - 1)
  }

  /** A number below ten to the `w`, zero padded to `w` digits. */
  function Decimal(n: nat, w: nat): (s: Bytes)
    requires n < Pow10(w)
    ensures |s| == w
    decreases w
  {
    if w == 0 then []
    else
      var p := Pow10(w - 1);
      DivModNat(n, p);
      [ZERO + Div(n, p)] + Decimal(Mod(n, p), w - 1)
  }

  function Sign(x: int): int { if x < 0 then -1 else if x > 0 then 1 else 0 }

  lemma {:induction false} DecimalOrder(x: nat, y: nat, w: nat)
    requires x < Pow10(w) && y < Pow10(w)
    ensures Compare(Decimal(x, w), Decimal(y, w)) == Sign(x - y)
    decreases w
  {
    if w > 0 {
      var p := Pow10(w - 1);
      DivModNat(x, p);
      DivModNat(y, p);
      DecimalOrder(Mod(x, p), Mod(y, p), w - 1);
      QuotientDecides(x, y, p);
      assert Decimal(x, w)[1..] == Decimal(Mod(x, p), w - 1);
      assert Decimal(y, w)[1..] == Decimal(Mod(y, p), w - 1);
    }
  }

  lemma QuotientDecides(x: nat, y: nat, p: nat)
    requires p > 0
    ensures Div(x, p) < Div(y, p) ==> x < y
    ensures Div(x, p) > Div(y, p) ==> x > y
    ensures Div(x, p) == Div(y, p) ==> Sign(x - y) == Sign(Mod(x, p) - Mod(y, p))
  {
    SmallerQuotient(x, y, p);
    SmallerQuotient(y, x, p);
    DivModNat(x, p);
    DivModNat(y, p);
  }

  lemma SmallerQuotient(x: nat, y: nat, p: nat)
    requires p > 0
    ensures Div(x, p) < Div(y, p) ==> x < y
  {
    FloorLe(x, p, Div(y, p));
    FloorLe(y, p, Div(y, p));
  }

  lemma {:induction false} DecimalDigits(n: nat, w: nat)
    requires n < Pow10(w)
    ensures forall i :: 0 <= i < w ==> ZERO <= Decimal(n, w)[i] < ZERO + 10
    decreases w
  {
    if w > 0 {
      var p := Pow10(w - 1);
      DivModNat(n, p);
      DecimalDigits(Mod(n, p), w - 1);
      if Div(n, p) >= 10 {
        MulLe(10, Div(n, p), p);
      }
    }
  }

  // ---- Colon-separated keys ----

  predicate InWidths(fields: seq<nat>, widths: seq<nat>) {
    |fields| == |widths| && forall i :: 0 <= i < |fields| ==> fields[i] < Pow10(widths[i])
  }

  function Format(fields: seq<nat>, widths: seq<nat>): Bytes
    requires InWidths(fields, widths)
    decreases |fields|
  {
    if fields == [] then []
    else if |fields| == 1 then Decimal(fields[0], widths[0])
    else Decimal(fields[0], widths[0]) + [COLON] + Format(fields[1..], widths[1..])
  }

  /** Byte order of formatted keys is the numeric order of their fields. */
  lemma {:induction false} FormatOrder(a: seq<nat>, b: seq<nat>, widths: seq<nat>)
    requires InWidths(a, widths) && InWidths(b, widths)
    ensures Compare(Format(a, widths), Format(b, widths)) == Compare(a, b)
    decreases |a|
  {
    if a != [] {
      var w := widths[0];
      DecimalOrder(a[0], b[0], w);
      CompareSymmetric(Decimal(a[0], w), Decimal(b[0], w));
      if |a| == 1 {
        assert Compare(a[1..], b[1..]) == 0;
      } else {
        var x, y := Format(a[1..], widths[1..]), Format(b[1..], widths[1..]);
        FormatOrder(a[1..], b[1..], widths[1..]);
        CompareConcat(Decimal(a[0], w), Decimal(b[0], w), [COLON] + x, [COLON] + y);
        CompareConcat([COLON], [COLON], x, y);
        assert Decimal(a[0], w) + [COLON] + x == Decimal(a[0], w) + ([COLON] + x);
        assert Decimal(b[0], w) + [COLON] + y == Decimal(b[0], w) + ([COLON] + y);
      }
    }
  }

  lemma {:induction false} FormatBytes(fields: seq<nat>, widths: seq<nat>)
    requires InWidths(fields, widths)
    ensures forall i :: 0 <= i < |Format(fields, widths)| ==> ZERO <= Format(fields, widths)[i] <= COLON
    decreases |fields|
  {
    if fields != [] {
      DecimalDigits(fields[0], widths[0]);
      if |fields| > 1 {
        FormatBytes(fields[1..], widths[1..]);
      }
    }
  }

  // ---- The cursor key ----

  const U32: nat := 0x1_0000_0000
  const U64: nat := 0x1_0000_0000_0000_0000

  predicate FitsU32(n: Option<nat>) { n.Some? ==> n.value < U32 }
  predicate FitsU64(n: Option<nat>) { n.Some? ==> n.value < U64 }

  /** The integer widths of the cursor's fields. */
  predicate Native(c: ChainCursor) {
    && c.blockNumber < U64 && c.executionBlockNumber < U64
    && FitsU32(c.transactionIndex) && FitsU32(c.logIndex) && FitsU64(c.sourceSequence) && FitsU32(c.sourceSubIndex)
  }

  function Rank(c: Commitment): nat {
    match c
    case Realtime => 0
    case Canonical => 1
    case Finalized => 2
  }

  /** The cursor tuple: its event order, the execution block, the kind of position and the commitment. */
  function Tuple(c: ChainCursor): seq<nat> {
    var unpositioned := c.transactionIndex.None? && c.logIndex.None?;
    [c.blockNumber, c.executionBlockNumber, if unpositioned then 0 else 1,
     OrZero(c.transactionIndex), OrZero(c.logIndex),
     if unpositioned then OrZero(c.sourceSequence) else 0, if unpositioned then OrZero(c.sourceSubIndex) else 0,
     Rank(c.commitment)]
  }

  /** Same block and kind of position: by transaction and log, or without either by the source's own numbering. */
  predicate PrecedesWithin(a: ChainCursor, b: ChainCursor) {
    var (x1, x2) := Coordinates(a);
    var (y1, y2) := Coordinates(b);
    x1 < y1 || (x1 == y1 && (x2 < y2 || (x2 == y2 && Weaker(a.commitment, b.commitment))))
  }

  /** Realtime before canonical before finalized. */
  predicate Weaker(a: Commitment, b: Commitment) {
    a != b && (a.Realtime? || b.Finalized?)
  }

  predicate Positioned(c: ChainCursor) { c.transactionIndex.Some? || c.logIndex.Some? }

  function Coordinates(c: ChainCursor): (nat, nat) {
    if Positioned(c) then (OrZero(c.transactionIndex), OrZero(c.logIndex))
    else (OrZero(c.sourceSequence), OrZero(c.sourceSubIndex))
  }

  /** By block, by execution block, a block before its events, then within the block. */
  predicate Precedes(a: ChainCursor, b: ChainCursor) {
    if a.blockNumber != b.blockNumber then a.blockNumber < b.blockNumber
    else if a.executionBlockNumber != b.executionBlockNumber then a.executionBlockNumber < b.executionBlockNumber
    else if Positioned(a) != Positioned(b) then Positioned(b)
    else PrecedesWithin(a, b)
  }

  /** The order of the tuples is that order of the cursors. */
  lemma TupleOrder(a: ChainCursor, b: ChainCursor)
    ensures Compare(Tuple(a), Tuple(b)) < 0 <==> Precedes(a, b)
  {
    var s, t := Tuple(a), Tuple(b);
    assert s[0..] == s && t[0..] == t;
    TupleHead(s, t);
    TupleTail(s, t);
  }

  lemma TupleHead(s: seq<nat>, t: seq<nat>)
    requires |s| == |t| == 8
    ensures Compare(s[0..], t[0..])
      == if s[0] != t[0] then (if s[0] < t[0] then -1 else 1)
         else if s[1] != t[1] then (if s[1] < t[1] then -1 else 1)
         else if s[2] != t[2] then (if s[2] < t[2] then -1 else 1)
         else Compare(s[3..], t[3..])
  {
    CompareFrom(s, t, 0);
    CompareFrom(s, t, 1);
    CompareFrom(s, t, 2);
  }

  lemma TupleTail(s: seq<nat>, t: seq<nat>)
    requires |s| == |t| == 8
    ensures Compare(s[3..], t[3..])
      == if s[3] != t[3] then (if s[3] < t[3] then -1 else 1)
         else if s[4] != t[4] then (if s[4] < t[4] then -1 else 1)
         else if s[5] != t[5] then (if s[5] < t[5] then -1 else 1)
         else if s[6] != t[6] then (if s[6] < t[6] then -1 else 1)
         else if s[7] != t[7] then (if s[7] < t[7] then -1 else 1) else 0
  {
    CompareFrom(s, t, 3);
    CompareFrom(s, t, 4);
    CompareFrom(s, t, 5);
    CompareFrom(s, t, 6);
    CompareFrom(s, t, 7);
    assert s[8..] == [] && t[8..] == [];
  }

  function Widths(): seq<nat> { [20, 20, 1, 10, 10, 20, 10, 1] }

  lemma PowersOfTen()
    ensures Pow10(1) == 10 && Pow10(10) == 10_000_000_000 && Pow10(20) == 100_000_000_000_000_000_000
  {
    assert Pow10(5) == 100_000;
    assert Pow10(10) == 10_000_000_000;
    assert Pow10(15) == 1_000_000_000_000_000;
    assert Pow10(20) == 100_000_000_000_000_000_000;
  }

  lemma TupleFits(c: ChainCursor)
    requires Native(c)
    ensures InWidths(Tuple(c), Widths())
  {
    PowersOfTen();
  }

  function Order(c: ChainCursor): Bytes
    requires Native(c)
  {
    TupleFits(c);
    Format(Tuple(c), Widths())
  }

  /** Byte order of the key is the numeric order of the cursor tuple. */
  lemma OrderIsNumeric(a: ChainCursor, b: ChainCursor)
    requires Native(a) && Native(b)
    ensures Compare(Order(a), Order(b)) == Compare(Tuple(a), Tuple(b))
  {
    TupleFits(a);
    TupleFits(b);
    FormatOrder(Tuple(a), Tuple(b), Widths());
  }

  lemma OrderBytes(c: ChainCursor)
    requires Native(c)
    ensures forall i :: 0 <= i < |Order(c)| ==> ZERO <= Order(c)[i] <= COLON
    ensures Order(c) != []
  {
    TupleFits(c);
    FormatBytes(Tuple(c), Widths());
  }
}
