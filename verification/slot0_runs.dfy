/**
 * The packed word simulates a plain record under every sequence of setters and
 * operator updates.
 */
module Slot0Runs {
  import opened Chain
  import opened Integers
  import opened Bits
  import opened Slot0

  function PutExists(word: Word, b: bool): Word {
    LayoutOffsets(); PowSmall();
    Write(word, Flag(b), EXISTS_SHIFT, FLAG_BITS, 6)
  }

  function PutPaused(word: Word, b: bool): Word {
    LayoutOffsets(); PowSmall();
    Write(word, Flag(b), PAUSED_SHIFT, FLAG_BITS, 7)
  }

  function PutThreshold(word: Word, threshold: u8, enabled: bool): Result<Word, FieldError> {
    if threshold >= Pow2(THRESHOLD_BITS) then Err(FieldOverflow(THRESHOLD_BITS))
    else
      LayoutOffsets(); Pow2Values();
      var w := Write(word, threshold, THRESHOLD_SHIFT, THRESHOLD_BITS, 3);
      Ok(Write(w, Flag(enabled), THRESHOLD_ENABLED_SHIFT, FLAG_BITS, 4))
  }

  function PutBlockDelay(word: Word, delay: u8): Word {
    LayoutOffsets(); Pow2Values();
    Write(word, delay, BLOCK_DELAY_SHIFT, BLOCK_DELAY_BITS, 8)
  }

  function PutSlippageK(word: Word, k: u32): Word {
    LayoutOffsets(); Pow2Values();
    Write(word, k, SLIPPAGE_K_SHIFT, SLIPPAGE_K_BITS, 9)
  }

  // ---- Each setter changes its own fields of the record ----

  lemma PutExistsDecodes(word: Word, b: bool)
    ensures Decode(PutExists(word, b)) == Decode(word).(exists_ := b)
  {
    LayoutOffsets(); Pow2Values();
    var d := Represent(word);
    WriteDecodes(d, Flag(b), 6);
  }

  lemma PutPausedDecodes(word: Word, b: bool)
    ensures Decode(PutPaused(word, b)) == Decode(word).(paused := b)
  {
    LayoutOffsets(); Pow2Values();
    var d := Represent(word);
    WriteDecodes(d, Flag(b), 7);
  }

  lemma ThresholdWrites(word: Word, t: u8, enabled: bool)
    requires t < Pow2(THRESHOLD_BITS)
    ensures Decode(PutThreshold(word, t, enabled).value)
         == Decode(word).(pricePushThreshold := t, thresholdEnabled := enabled)
  {
    LayoutOffsets(); Pow2Values();
    var d := Represent(word);
    WriteDecodes(d, t, 3);
    var e := Represent(Write(word, t, THRESHOLD_SHIFT, THRESHOLD_BITS, 3));
    WriteDecodes(e, Flag(enabled), 4);
  }

  /** The setter is refused exactly beyond the field's width and otherwise changes its two fields only. */
  lemma PutThresholdDecodes(word: Word, t: u8, enabled: bool)
    ensures PutThreshold(word, t, enabled).Ok? <==> t < Pow2(THRESHOLD_BITS)
    ensures PutThreshold(word, t, enabled).Ok? ==>
      Decode(PutThreshold(word, t, enabled).value)
      == Decode(word).(pricePushThreshold := t, thresholdEnabled := enabled)
  {
    if t < Pow2(THRESHOLD_BITS) {
      ThresholdWrites(word, t, enabled);
    }
  }

  lemma PutBlockDelayDecodes(word: Word, delay: u8)
    ensures Decode(PutBlockDelay(word, delay)) == Decode(word).(blockDelay := delay)
  {
    LayoutOffsets(); Pow2Values();
    var d := Represent(word);
    WriteDecodes(d, delay, 8);
  }

  lemma PutSlippageKDecodes(word: Word, k: u32)
    ensures Decode(PutSlippageK(word, k)) == Decode(word).(slippageKBps := k)
  {
    LayoutOffsets(); Pow2Values();
    var d := Represent(word);
    WriteDecodes(d, k, 9);
  }

  // ---- The operator update ----

  /** What an operator update does to the plain record. */
  function Pushed(f: LaneSlot0, price: u128, fees: nat, blockNumber: u64): LaneSlot0
    requires fees < 0x100_0000_0000
  {
    FloorLe(fees, 0x10_0000, 0x10_0000);
    f.(price := price,
       askFeeBps := Mod(fees, 0x10_0000),
       bidFeeBps := Div(fees, 0x10_0000),
       latestUpdateBlock := blockNumber,
       paused := f.paused || ExceedsThreshold(f, price))
  }

  /** It is accepted exactly when its three inputs fit, and then updates the record. */
  lemma OperatorUpdateDecodes(word: Word, price: u128, fees: u64, blockNumber: u64)
    ensures ApplyOperatorUpdate(word, price, fees, blockNumber).Ok? <==>
      price < Pow2(PRICE_BITS) && fees < 0x100_0000_0000 && blockNumber < Pow2(BLOCK_BITS)
    ensures ApplyOperatorUpdate(word, price, fees, blockNumber).Ok? ==>
      Decode(ApplyOperatorUpdate(word, price, fees, blockNumber).value)
      == Pushed(Decode(word), price, fees, blockNumber)
  {
    Pow2Values();
    assert Pow2(2 * FEE_BITS) == 0x100_0000_0000 by {
      PowProduct(FEE_BITS, FEE_BITS, 0x10_0000, 0x10_0000);
    }
    if price < Pow2(PRICE_BITS) && fees < 0x100_0000_0000 && blockNumber < Pow2(BLOCK_BITS) {
      DecodeInWidth(word);
      FeesFit(fees);
      DecodeEncode(Pushed(Decode(word), price, fees, blockNumber));
    }
  }

  /** Both fees as one packed update field. */
  function EncodeFees(ask: nat, bid: nat): (r: Result<nat, FieldError>)
    ensures r.Ok? <==> ask < 0x10_0000 && bid < 0x10_0000
    ensures r.Ok? ==> r.value < 0x100_0000_0000
  {
    if ask >= 0x10_0000 || bid >= 0x10_0000 then Err(FieldOverflow(FEE_BITS)) else Ok(ask + bid * 0x10_0000)
  }

  /** A packed pair of fees arrives as the pair that was packed. */
  lemma FeesRoundTrip(word: Word, price: u128, ask: nat, bid: nat, blockNumber: u64)
    requires EncodeFees(ask, bid).Ok? && price < Pow2(PRICE_BITS) && blockNumber < Pow2(BLOCK_BITS)
    ensures var r := ApplyOperatorUpdate(word, price, EncodeFees(ask, bid).value, blockNumber);
      && r.Ok? && Decode(r.value).askFeeBps == ask && Decode(r.value).bidFeeBps == bid
      && Decode(r.value).price == price && Decode(r.value).latestUpdateBlock == blockNumber
  {
    OperatorUpdateDecodes(word, price, EncodeFees(ask, bid).value, blockNumber);
    DivUnique(EncodeFees(ask, bid).value, 0x10_0000, bid, ask);
  }

  // ---- Runs ----

  function WordStep(word: Word, op: Update): Result<Word, FieldError> {
    match op
    case SetExists(b) => Ok(PutExists(word, b))
    case SetPaused(b) => Ok(PutPaused(word, b))
    case SetThreshold(t, enabled) => PutThreshold(word, t, enabled)
    case SetBlockDelay(delay) => Ok(PutBlockDelay(word, delay))
    case SetSlippageK(k) => Ok(PutSlippageK(word, k))
    case OperatorUpdate(price, fees, blockNumber) => ApplyOperatorUpdate(word, price, fees, blockNumber)
  }

  predicate Accepted(op: Update) {
    match op
    case SetThreshold(t, _) => t < Pow2(THRESHOLD_BITS)
    case OperatorUpdate(price, fees, blockNumber) =>
      price < Pow2(PRICE_BITS) && fees < 0x100_0000_0000 && blockNumber < Pow2(BLOCK_BITS)
    case _ => true
  }

  /** The same update on the plain record, as field assignments. */
  function RecordStep(f: LaneSlot0, op: Update): LaneSlot0 {
    if !Accepted(op) then f
    else match op
      case SetExists(b) => f.(exists_ := b)
      case SetPaused(b) => f.(paused := b)
      case SetThreshold(t, enabled) => f.(pricePushThreshold := t, thresholdEnabled := enabled)
      case SetBlockDelay(delay) => f.(blockDelay := delay)
      case SetSlippageK(k) => f.(slippageKBps := k)
      case OperatorUpdate(price, fees, blockNumber) => Pushed(f, price, fees, blockNumber)
  }

  /** A rejected update leaves the word alone. */
  function RunWord(word: Word, ops: seq<Update>): Word
    decreases |ops|
  {
    if ops == [] then word
    else
      var r := WordStep(word, ops[0]);
      RunWord(if r.Ok? then r.value else word, ops[1..])
  }

  function RunRecord(f: LaneSlot0, ops: seq<Update>): LaneSlot0
    decreases |ops|
  {
    if ops == [] then f else RunRecord(RecordStep(f, ops[0]), ops[1..])
  }

  lemma StepSimulates(word: Word, op: Update)
    ensures WordStep(word, op).Ok? <==> Accepted(op)
    ensures WordStep(word, op).Ok? ==> Decode(WordStep(word, op).value) == RecordStep(Decode(word), op)
  {
    match op
    case SetExists(b) => PutExistsDecodes(word, b);
    case SetPaused(b) => PutPausedDecodes(word, b);
    case SetThreshold(t, enabled) =>
      if t < Pow2(THRESHOLD_BITS) {
        PutThresholdDecodes(word, t, enabled);
      }
    case SetBlockDelay(delay) => PutBlockDelayDecodes(word, delay);
    case SetSlippageK(k) => PutSlippageKDecodes(word, k);
    case OperatorUpdate(price, fees, blockNumber) => OperatorUpdateDecodes(word, price, fees, blockNumber);
  }

  /** After any sequence of updates the word decodes to the record updated field by field. */
  lemma {:induction false} WordSimulatesRecord(word: Word, ops: seq<Update>)
    ensures Decode(RunWord(word, ops)) == RunRecord(Decode(word), ops)
    decreases |ops|
  {
    if ops != [] {
      StepSimulates(word, ops[0]);
      var r := WordStep(word, ops[0]);
      WordSimulatesRecord(if r.Ok? then r.value else word, ops[1..]);
    }
  }

  /** An accepted update moves a positive price by more percent than the enabled threshold, up or down. */
  predicate Trips(f: LaneSlot0, op: Update) {
    && op.OperatorUpdate? && Accepted(op) && f.thresholdEnabled && 0 < f.price
    && (|| 100 * op.price > f.price * (100 + f.pricePushThreshold)
        || 100 * op.price + f.price * f.pricePushThreshold < 100 * f.price)
  }

  lemma TripsExactly(f: LaneSlot0, op: Update)
    requires op.OperatorUpdate? && Accepted(op)
    ensures ExceedsThreshold(f, op.price) <==> Trips(f, op)
  {
    AddMul(100, f.pricePushThreshold, f.price);
  }

  /**
   * In a run without explicit pause writes the lane ends paused exactly when it
   * started paused or some accepted operator update exceeded the threshold in
   * force at that moment. So no operator update ever clears a pause.
   */
  lemma {:induction false} PausedExactlyWhenTripped(word: Word, ops: seq<Update>)
    requires forall i :: 0 <= i < |ops| ==> !ops[i].SetPaused?
    ensures Decode(RunWord(word, ops)).paused <==>
      || Decode(word).paused
      || exists i :: 0 <= i < |ops| && Trips(RunRecord(Decode(word), ops[..i]), ops[i])
  {
    WordSimulatesRecord(word, ops);
    RecordPaused(Decode(word), ops);
  }

  lemma {:induction false} RecordPaused(f: LaneSlot0, ops: seq<Update>)
    requires forall i :: 0 <= i < |ops| ==> !ops[i].SetPaused?
    ensures RunRecord(f, ops).paused <==>
      f.paused || exists i :: 0 <= i < |ops| && Trips(RunRecord(f, ops[..i]), ops[i])
    decreases |ops|
  {
    if ops != [] {
      var g, rest := RecordStep(f, ops[0]), ops[1..];
      RecordPaused(g, rest);
      assert RunRecord(f, ops[..0]) == f;
      forall i | 0 <= i < |rest|
        ensures RunRecord(g, rest[..i]) == RunRecord(f, ops[..i + 1])
      {
        assert ops[..i + 1][1..] == rest[..i];
      }
      if ops[0].OperatorUpdate? && Accepted(ops[0]) {
        TripsExactly(f, ops[0]);
      }
      if Trips(f, ops[0]) {
        assert Trips(RunRecord(f, ops[..0]), ops[0]);
      }
      if i :| 0 <= i < |rest| && Trips(RunRecord(g, rest[..i]), rest[i]) {
        assert Trips(RunRecord(f, ops[..i + 1]), ops[i + 1]);
      }
      if i :| 0 < i < |ops| && Trips(RunRecord(f, ops[..i]), ops[i]) {
        assert Trips(RunRecord(g, rest[..i - 1]), rest[i - 1]);
      }
    }
  }
}
