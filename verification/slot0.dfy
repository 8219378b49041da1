/**
 * The packed `Lane.slot0` word of crates/lunarbase-math/src/slot0.rs, and the
 * plain record it simulates.
 */
module Slot0 {
  import opened Chain
  import opened Integers
  import opened Bits
  import Bitwise

  type u8 = n: nat | n < 0x100
  type u32 = n: nat | n < 0x1_0000_0000
  type u64 = n: nat | n < 0x1_0000_0000_0000_0000
  type u128 = n: nat | n < 0x1_0000_0000_0000_0000_0000_0000_0000_0000

  /** A 256-bit word. */
  type Word = n: nat | n < Pow2(WORD_BITS)

  datatype FieldError = FieldOverflow(bits: nat)

  const PRICE_BITS: nat := 112
  const FEE_BITS: nat := 20
  const THRESHOLD_BITS: nat := 7
  const FLAG_BITS: nat := 1
  const BLOCK_BITS: nat := 40
  const BLOCK_DELAY_BITS: nat := 8
  const SLIPPAGE_K_BITS: nat := 32
  const RESERVED_BITS: nat := 14

  const PRICE_SHIFT: nat := 0
  const ASK_FEE_SHIFT: nat := 112
  const BID_FEE_SHIFT: nat := 132
  const THRESHOLD_SHIFT: nat := 152
  const THRESHOLD_ENABLED_SHIFT: nat := 159
  const UPDATE_BLOCK_SHIFT: nat := 160
  const EXISTS_SHIFT: nat := 200
  const PAUSED_SHIFT: nat := 201
  const BLOCK_DELAY_SHIFT: nat := 202
  const SLIPPAGE_K_SHIFT: nat := 210
  const RESERVED_SHIFT: nat := 242
  const WORD_BITS: nat := 256

  /** The fields of the word as plain numbers and flags. */
  datatype LaneSlot0 = LaneSlot0(
    price: nat,
    askFeeBps: nat,
    bidFeeBps: nat,
    pricePushThreshold: nat,
    thresholdEnabled: bool,
    latestUpdateBlock: nat,
    exists_: bool,
    paused: bool,
    blockDelay: nat,
    slippageKBps: nat,
    reservedHighBits: nat)

  /** Widths of the eleven fields from bit zero upwards. */
  const LAYOUT: seq<nat> :=
    [PRICE_BITS, FEE_BITS, FEE_BITS, THRESHOLD_BITS, FLAG_BITS, BLOCK_BITS,
     FLAG_BITS, FLAG_BITS, BLOCK_DELAY_BITS, SLIPPAGE_K_BITS, RESERVED_BITS]

  lemma Pow2Values()
    ensures Pow2(FLAG_BITS) == 2 && Pow2(THRESHOLD_BITS) == 0x80 && Pow2(BLOCK_DELAY_BITS) == 0x100
    ensures Pow2(RESERVED_BITS) == 0x4000 && Pow2(FEE_BITS) == 0x10_0000
    ensures Pow2(SLIPPAGE_K_BITS) == 0x1_0000_0000 && Pow2(BLOCK_BITS) == 0x100_0000_0000
    ensures Pow2(PRICE_BITS) == 0x1_0000_0000_0000_0000_0000_0000_0000
  {
    PowSmall();
    PowProduct(1, 1, 2, 2);
    PowProduct(2, 1, 4, 2);
    PowProduct(2, 2, 4, 4);
    PowProduct(3, 4, 8, 16);
    PowProduct(4, 4, 16, 16);
    PowProduct(7, 7, 0x80, 0x80);
    PowProduct(8, 8, 0x100, 0x100);
    PowProduct(16, 4, 0x1_0000, 16);
    PowProduct(16, 16, 0x1_0000, 0x1_0000);
    PowProduct(32, 8, 0x1_0000_0000, 0x100);
    PowProduct(40, 40, 0x100_0000_0000, 0x100_0000_0000);
    PowProduct(80, 32, 0x1_0000_0000_0000_0000_0000, 0x1_0000_0000);
  }

  lemma PowProduct(a: nat, b: nat, x: nat, y: nat)
    requires Pow2(a) == x && Pow2(b) == y
    ensures Pow2(a + b) == x * y
  {
    PowAdd(a, b);
  }

  /** The shifts of the source are the running sums of the widths. */
  lemma LayoutOffsets()
    ensures |LAYOUT| == 11
    ensures Offset(LAYOUT, 0) == PRICE_SHIFT
    ensures Offset(LAYOUT, 1) == ASK_FEE_SHIFT
    ensures Offset(LAYOUT, 2) == BID_FEE_SHIFT
    ensures Offset(LAYOUT, 3) == THRESHOLD_SHIFT
    ensures Offset(LAYOUT, 4) == THRESHOLD_ENABLED_SHIFT
    ensures Offset(LAYOUT, 5) == UPDATE_BLOCK_SHIFT
    ensures Offset(LAYOUT, 6) == EXISTS_SHIFT
    ensures Offset(LAYOUT, 7) == PAUSED_SHIFT
    ensures Offset(LAYOUT, 8) == BLOCK_DELAY_SHIFT
    ensures Offset(LAYOUT, 9) == SLIPPAGE_K_SHIFT
    ensures Offset(LAYOUT, 10) == RESERVED_SHIFT
    ensures Offset(LAYOUT, 11) == WORD_BITS
  {
    LowOffsets();
    OffsetNext(LAYOUT, 6);
    OffsetNext(LAYOUT, 7);
    OffsetNext(LAYOUT, 8);
    OffsetNext(LAYOUT, 9);
    OffsetNext(LAYOUT, 10);
  }

  lemma LowOffsets()
    ensures Offset(LAYOUT, 0) == PRICE_SHIFT
    ensures Offset(LAYOUT, 1) == ASK_FEE_SHIFT
    ensures Offset(LAYOUT, 2) == BID_FEE_SHIFT
    ensures Offset(LAYOUT, 3) == THRESHOLD_SHIFT
    ensures Offset(LAYOUT, 4) == THRESHOLD_ENABLED_SHIFT
    ensures Offset(LAYOUT, 5) == UPDATE_BLOCK_SHIFT
    ensures Offset(LAYOUT, 6) == EXISTS_SHIFT
  {
    OffsetNext(LAYOUT, 0);
    OffsetNext(LAYOUT, 1);
    OffsetNext(LAYOUT, 2);
    OffsetNext(LAYOUT, 3);
    OffsetNext(LAYOUT, 4);
    OffsetNext(LAYOUT, 5);
  }

  function Flag(b: bool): nat { if b then 1 else 0 }

  function Decode(word: Word): LaneSlot0 {
    LaneSlot0(
      ReadField(word, PRICE_SHIFT, PRICE_BITS),
      ReadField(word, ASK_FEE_SHIFT, FEE_BITS),
      ReadField(word, BID_FEE_SHIFT, FEE_BITS),
      ReadField(word, THRESHOLD_SHIFT, THRESHOLD_BITS),
      ReadField(word, THRESHOLD_ENABLED_SHIFT, FLAG_BITS) == 1,
      ReadField(word, UPDATE_BLOCK_SHIFT, BLOCK_BITS),
      ReadField(word, EXISTS_SHIFT, FLAG_BITS) == 1,
      ReadField(word, PAUSED_SHIFT, FLAG_BITS) == 1,
      ReadField(word, BLOCK_DELAY_SHIFT, BLOCK_DELAY_BITS),
      ReadField(word, SLIPPAGE_K_SHIFT, SLIPPAGE_K_BITS),
      ReadField(word, RESERVED_SHIFT, RESERVED_BITS))
  }

  predicate InWidth(f: LaneSlot0) {
    && f.price < Pow2(PRICE_BITS)
    && f.askFeeBps < Pow2(FEE_BITS)
    && f.bidFeeBps < Pow2(FEE_BITS)
    && f.pricePushThreshold < Pow2(THRESHOLD_BITS)
    && f.latestUpdateBlock < Pow2(BLOCK_BITS)
    && f.blockDelay < Pow2(BLOCK_DELAY_BITS)
    && f.slippageKBps < Pow2(SLIPPAGE_K_BITS)
    && f.reservedHighBits < Pow2(RESERVED_BITS)
  }

  /** The error of the first field that is too wide, in the order `encode_lane_slot0` tests them. */
  function WidthError(f: LaneSlot0): Option<FieldError> {
    if f.price >= Pow2(PRICE_BITS) then Some(FieldOverflow(PRICE_BITS))
    else if f.askFeeBps >= Pow2(FEE_BITS) then Some(FieldOverflow(FEE_BITS))
    else if f.bidFeeBps >= Pow2(FEE_BITS) then Some(FieldOverflow(FEE_BITS))
    else if f.pricePushThreshold >= Pow2(THRESHOLD_BITS) then Some(FieldOverflow(THRESHOLD_BITS))
    else if f.latestUpdateBlock >= Pow2(BLOCK_BITS) then Some(FieldOverflow(BLOCK_BITS))
    else if f.reservedHighBits >= Pow2(RESERVED_BITS) then Some(FieldOverflow(RESERVED_BITS))
    else None
  }

  function ToDigits(f: LaneSlot0): seq<nat> {
    [f.price, f.askFeeBps, f.bidFeeBps, f.pricePushThreshold, Flag(f.thresholdEnabled), f.latestUpdateBlock,
     Flag(f.exists_), Flag(f.paused), f.blockDelay, f.slippageKBps, f.reservedHighBits]
  }

  lemma DigitsFit(f: LaneSlot0)
    requires InWidth(f)
    ensures InRadix(ToDigits(f), LAYOUT)
  {
    PowSmall();
  }

  function FromDigits(d: seq<nat>): LaneSlot0
    requires |d| == 11
  {
    LaneSlot0(d[0], d[1], d[2], d[3], d[4] == 1, d[5], d[6] == 1, d[7] == 1, d[8], d[9], d[10])
  }

  lemma FieldAt(d: seq<nat>, i: nat, shift: nat)
    requires InRadix(d, LAYOUT) && i < |LAYOUT| && shift == Offset(LAYOUT, i)
    ensures ReadField(Value(d, LAYOUT), shift, LAYOUT[i]) == d[i]
  {
    ReadDigit(d, LAYOUT, i);
  }

  lemma DecodeValue(d: seq<nat>)
    requires InRadix(d, LAYOUT)
    ensures Value(d, LAYOUT) < Pow2(WORD_BITS)
    ensures Decode(Value(d, LAYOUT)) == FromDigits(d)
  {
    LayoutOffsets();
    ValueBound(d, LAYOUT);
    FieldAt(d, 0, PRICE_SHIFT);
    FieldAt(d, 1, ASK_FEE_SHIFT);
    FieldAt(d, 2, BID_FEE_SHIFT);
    FieldAt(d, 3, THRESHOLD_SHIFT);
    FieldAt(d, 4, THRESHOLD_ENABLED_SHIFT);
    FieldAt(d, 5, UPDATE_BLOCK_SHIFT);
    FieldAt(d, 6, EXISTS_SHIFT);
    FieldAt(d, 7, PAUSED_SHIFT);
    FieldAt(d, 8, BLOCK_DELAY_SHIFT);
    FieldAt(d, 9, SLIPPAGE_K_SHIFT);
    FieldAt(d, 10, RESERVED_SHIFT);
  }

  lemma FromToDigits(f: LaneSlot0)
    ensures FromDigits(ToDigits(f)) == f
  {
  }

  lemma ToFromDigits(d: seq<nat>)
    requires InRadix(d, LAYOUT)
    ensures ToDigits(FromDigits(d)) == d
  {
    PowSmall();
    assert d[4] < Pow2(LAYOUT[4]) && d[6] < Pow2(LAYOUT[6]) && d[7] < Pow2(LAYOUT[7]);
  }

  // ---- Mutual inverses ----

  /** Every field shifted to its place; see `PackIsBitwise` for the source's `|`. */
  function Pack(f: LaneSlot0): nat {
    Shl(f.price, PRICE_SHIFT)
    + Shl(f.askFeeBps, ASK_FEE_SHIFT)
    + Shl(f.bidFeeBps, BID_FEE_SHIFT)
    + Shl(f.pricePushThreshold, THRESHOLD_SHIFT)
    + Shl(Flag(f.thresholdEnabled), THRESHOLD_ENABLED_SHIFT)
    + Shl(f.latestUpdateBlock, UPDATE_BLOCK_SHIFT)
    + Shl(Flag(f.exists_), EXISTS_SHIFT)
    + Shl(Flag(f.paused), PAUSED_SHIFT)
    + Shl(f.blockDelay, BLOCK_DELAY_SHIFT)
    + Shl(f.slippageKBps, SLIPPAGE_K_SHIFT)
    + Shl(f.reservedHighBits, RESERVED_SHIFT)
  }

  lemma PackIsValue(f: LaneSlot0)
    ensures Pack(f) == Value(ToDigits(f), LAYOUT)
  {
    LayoutOffsets();
    ValueIsSum(ToDigits(f), LAYOUT);
    var d := ToDigits(f);
    assert Sum(d, LAYOUT, 1) == Shl(f.price, PRICE_SHIFT);
    assert Sum(d, LAYOUT, 2) == Sum(d, LAYOUT, 1) + Shl(f.askFeeBps, ASK_FEE_SHIFT);
    assert Sum(d, LAYOUT, 3) == Sum(d, LAYOUT, 2) + Shl(f.bidFeeBps, BID_FEE_SHIFT);
    assert Sum(d, LAYOUT, 4) == Sum(d, LAYOUT, 3) + Shl(f.pricePushThreshold, THRESHOLD_SHIFT);
    assert Sum(d, LAYOUT, 5) == Sum(d, LAYOUT, 4) + Shl(Flag(f.thresholdEnabled), THRESHOLD_ENABLED_SHIFT);
    assert Sum(d, LAYOUT, 6) == Sum(d, LAYOUT, 5) + Shl(f.latestUpdateBlock, UPDATE_BLOCK_SHIFT);
    assert Sum(d, LAYOUT, 7) == Sum(d, LAYOUT, 6) + Shl(Flag(f.exists_), EXISTS_SHIFT);
    assert Sum(d, LAYOUT, 8) == Sum(d, LAYOUT, 7) + Shl(Flag(f.paused), PAUSED_SHIFT);
    assert Sum(d, LAYOUT, 9) == Sum(d, LAYOUT, 8) + Shl(f.blockDelay, BLOCK_DELAY_SHIFT);
    assert Sum(d, LAYOUT, 10) == Sum(d, LAYOUT, 9) + Shl(f.slippageKBps, SLIPPAGE_K_SHIFT);
  }

  /** For fields within their widths the encoder's successive `|` give the sum. */
  lemma PackIsBitwise(f: LaneSlot0)
    requires InWidth(f)
    ensures Bitwise.OrSum(ToDigits(f), LAYOUT, |LAYOUT|, WORD_BITS) == Pack(f)
  {
    LayoutOffsets();
    DigitsFit(f);
    PackIsValue(f);
    ValueIsSum(ToDigits(f), LAYOUT);
    Bitwise.OrSumIsSum(ToDigits(f), LAYOUT, |LAYOUT|, WORD_BITS);
  }

  /** The widths the native integer types guarantee and the encoder therefore does not test. */
  predicate Native(f: LaneSlot0) {
    f.blockDelay < Pow2(BLOCK_DELAY_BITS) && f.slippageKBps < Pow2(SLIPPAGE_K_BITS)
  }

  function Encode(f: LaneSlot0): (r: Result<Word, FieldError>)
    requires Native(f)
    ensures r.Ok? <==> InWidth(f)
  {
    match WidthError(f)
    case Some(e) => Err(e)
    case None =>
      PackFits(f);
      Ok(Pack(f))
  }

  lemma PackFits(f: LaneSlot0)
    requires InWidth(f)
    ensures Pack(f) < Pow2(WORD_BITS)
  {
    PackIsValue(f);
    DigitsFit(f);
    LayoutOffsets();
    ValueBound(ToDigits(f), LAYOUT);
  }

  /** Decoding gives back every record the encoder accepts. */
  lemma DecodeEncode(f: LaneSlot0)
    requires InWidth(f)
    ensures Decode(Encode(f).value) == f
  {
    PackIsValue(f);
    DigitsFit(f);
    DecodeValue(ToDigits(f));
    FromToDigits(f);
  }

  /** Every word is the encoding of what it decodes to. */
  lemma EncodeDecode(word: Word)
    ensures Encode(Decode(word)) == Ok(word)
  {
    var d := Digits(word, LAYOUT);
    LayoutOffsets();
    DigitsValue(word, LAYOUT);
    DigitsInRadix(word, LAYOUT);
    DecodeValue(d);
    ToFromDigits(d);
    PackIsValue(Decode(word));
    DecodeInWidth(word);
  }

  lemma DecodeInWidth(word: Word)
    ensures InWidth(Decode(word))
  {
  }

  // ---- Readers used by the quote engine ----

  function Price(word: Word): nat { ReadField(word, PRICE_SHIFT, PRICE_BITS) }

  function AskFeeBps(word: Word): nat { ReadField(word, ASK_FEE_SHIFT, FEE_BITS) }

  function BidFeeBps(word: Word): nat { ReadField(word, BID_FEE_SHIFT, FEE_BITS) }

  function LatestUpdateBlock(word: Word): nat { ReadField(word, UPDATE_BLOCK_SHIFT, BLOCK_BITS) }

  predicate Exists(word: Word) { ReadField(word, EXISTS_SHIFT, FLAG_BITS) == 1 }

  predicate Paused(word: Word) { ReadField(word, PAUSED_SHIFT, FLAG_BITS) == 1 }

  function BlockDelay(word: Word): nat { ReadField(word, BLOCK_DELAY_SHIFT, BLOCK_DELAY_BITS) }

  function SlippageKBps(word: Word): nat { ReadField(word, SLIPPAGE_K_SHIFT, SLIPPAGE_K_BITS) }

  lemma ReaderBounds(word: Word)
    ensures Price(word) < 0x1_0000_0000_0000_0000_0000_0000_0000
    ensures AskFeeBps(word) < 0x10_0000 && BidFeeBps(word) < 0x10_0000
    ensures SlippageKBps(word) < 0x1_0000_0000
  {
    Pow2Values();
  }

  // ---- Updates of the word ----

  datatype Update =
    | SetExists(exists_: bool)
    | SetPaused(paused: bool)
    | SetThreshold(threshold: u8, enabled: bool)
    | SetBlockDelay(delay: u8)
    | SetSlippageK(k: u32)
    | OperatorUpdate(price: u128, fees: u64, blockNumber: u64)

  function Diff(a: nat, b: nat): nat { if a < b then b - a else a - b }

  /** The price moved by more percent than an enabled threshold allows. */
  predicate ExceedsThreshold(f: LaneSlot0, price: nat) {
    f.thresholdEnabled && f.price != 0 && Diff(price, f.price) * 100 > f.price * f.pricePushThreshold
  }

  /** Both products of the comparison fit the `u128` the source computes them in. */
  lemma ThresholdProductsFit(f: LaneSlot0, price: nat)
    requires InWidth(f) && price < Pow2(PRICE_BITS)
    ensures Diff(price, f.price) * 100 < 0x1_0000_0000_0000_0000_0000_0000_0000_0000
    ensures f.price * f.pricePushThreshold < 0x1_0000_0000_0000_0000_0000_0000_0000_0000
  {
    Pow2Values();
    MulLe(f.pricePushThreshold, 0x7F, f.price);
  }

  function ApplyOperatorUpdate(word: Word, price: u128, fees: u64, blockNumber: u64): Result<Word, FieldError> {
    if price >= Pow2(PRICE_BITS) then Err(FieldOverflow(PRICE_BITS))
    else if fees >= Pow2(2 * FEE_BITS) then Err(FieldOverflow(2 * FEE_BITS))
    else if blockNumber >= Pow2(BLOCK_BITS) then Err(FieldOverflow(BLOCK_BITS))
    else
      var f := Decode(word);
      FeesFit(fees);
      Encode(f.(
        price := price,
        askFeeBps := Mod(fees, Pow2(FEE_BITS)),
        bidFeeBps := Div(fees, Pow2(FEE_BITS)),
        latestUpdateBlock := blockNumber,
        paused := f.paused || ExceedsThreshold(f, price)))
  }

  lemma FeesFit(fees: nat)
    requires fees < Pow2(2 * FEE_BITS)
    ensures Mod(fees, Pow2(FEE_BITS)) < 0x10_0000 && Div(fees, Pow2(FEE_BITS)) < 0x10_0000
    ensures fees == Mod(fees, Pow2(FEE_BITS)) + Div(fees, Pow2(FEE_BITS)) * 0x10_0000
  {
    Pow2Values();
    PowAdd(FEE_BITS, FEE_BITS);
    DivModNat(fees, 0x10_0000);
    FloorLe(fees, 0x10_0000, 0x10_0000);
  }

  /** The digits behind a word. */
  lemma Represent(word: Word) returns (d: seq<nat>)
    ensures InRadix(d, LAYOUT) && Value(d, LAYOUT) == word && Decode(word) == FromDigits(d)
  {
    d := Digits(word, LAYOUT);
    LayoutOffsets();
    DigitsValue(word, LAYOUT);
    DigitsInRadix(word, LAYOUT);
    DecodeValue(d);
  }

  lemma UpdatedInRadix(d: seq<nat>, i: nat, y: nat)
    requires InRadix(d, LAYOUT) && i < |LAYOUT| && y < Pow2(LAYOUT[i])
    ensures InRadix(d[i := y], LAYOUT)
  {
  }

  /** Writing field `i` changes digit `i` of the decoded record and no other. */
  lemma WriteDecodes(d: seq<nat>, value: nat, i: nat)
    requires InRadix(d, LAYOUT) && i < |LAYOUT| && value < Pow2(LAYOUT[i])
    ensures InRadix(d[i := value], LAYOUT)
    ensures var w := WriteField(Value(d, LAYOUT), value, Offset(LAYOUT, i), LAYOUT[i]);
      w < Pow2(WORD_BITS) && Decode(w) == FromDigits(d[i := value])
  {
    UpdatedInRadix(d, i, value);
    assert Mod(value, Pow2(LAYOUT[i])) == value by {
      DivUnique(value, Pow2(LAYOUT[i]), 0, value);
    }
    WriteDigit(d, LAYOUT, i, value);
    DecodeValue(d[i := value]);
  }

  /** `write_field` on field `i` of the layout. */
  function Write(word: Word, value: nat, shift: nat, bits: nat, ghost i: nat): (w: Word)
    requires i < |LAYOUT| && shift == Offset(LAYOUT, i) && bits == LAYOUT[i] && value < Pow2(bits)
  {
    WriteStaysInWord(word, value, i);
    WriteField(word, value, shift, bits)
  }

  lemma WriteStaysInWord(word: Word, value: nat, i: nat)
    requires i < |LAYOUT| && value < Pow2(LAYOUT[i])
    ensures WriteField(word, value, Offset(LAYOUT, i), LAYOUT[i]) < Pow2(WORD_BITS)
  {
    var d := Represent(word);
    WriteDecodes(d, value, i);
  }
}
