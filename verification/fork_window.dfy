/**
 * `CanonicalWindow` of crates/lunarbase-source-evm/src/fork.rs with its fields
 * updated in place, proved against the functions of `ForkModel`.
 */
module ForkWindow {
  import opened Chain
  import opened ForkModel
  import opened ForkRuns

  /** Append token: valid only while the window it was prepared against is unchanged. */
  datatype PreparedHead = PreparedHead(
    expectedTip: Option<BlockRef>,
    block: BlockRef,
    nextRetainedBytes: nat,
    append: bool)

  datatype PreparedTip = PreparedTip(expectedTip: BlockRef, block: BlockRef)

  /** The window accepts the token's block, as an append exactly when it is not the tip already. */
  predicate MeantFor(p: PreparedHead, w: Window) {
    PushHead(w, p.block).Ok? && p.append == (w.Tip() != Some(p.block))
  }

  /** The token's byte count is that of the window with its block appended. */
  predicate CountsRight(p: PreparedHead, w: Window) {
    p.append ==> p.nextRetainedBytes == (|w.blocks| + 1) * w.rules.charge
  }

  /** A valid window stays valid under every accepted operation. */
  lemma OutcomeValid(w: Window, op: Operation)
    requires Valid(w) && Outcome(w, op).Ok?
    ensures Valid(Outcome(w, op).value)
  {
    var t := Tracked(w, []);
    assert History(t) == w.blocks;
    StepKeeps(t, op);
  }

  class CanonicalWindow {
    const rules: Rules
    const limits: Limits
    var blocks: seq<BlockRef>
    var finalized: Option<BlockRef>
    var retainedBytes: nat

    /** An empty window; `size_of::<BlockRef>()` is the positive `charge`. */
    constructor (limits: Limits, charge: nat)
      requires 0 < charge && ValidLimits(Rules(charge, Some(RUST_CEILING)), limits)
      ensures View() == Create(Rules(charge, Some(RUST_CEILING)), limits).value
      ensures Consistent()
    {
      rules := Rules(charge, Some(RUST_CEILING));
      this.limits := limits;
      blocks, finalized, retainedBytes := [], None, 0;
    }

    ghost function View(): Window
      reads this
    {
      Window(rules, limits, blocks, finalized)
    }

    ghost predicate Consistent()
      reads this
    {
      Valid(View()) && retainedBytes == |blocks| * rules.charge
    }

    function Tip(): (tip: Option<BlockRef>)
      reads this
      ensures tip == View().Tip()
    {
      if blocks == [] then None else Some(blocks[|blocks| - 1])
    }

    method FindPosition(hash: Hash) returns (k: nat)
      ensures k == Position(blocks, hash)
    {
      k := 0;
      while k < |blocks| && blocks[k].HashOf() != Some(hash)
        invariant k <= |blocks|
        invariant forall i :: 0 <= i < k ==> blocks[i].HashOf() != Some(hash)
      {
        k := k + 1;
      }
      PositionIsFirst(blocks, hash, k);
    }

    /** Validates an append without changing the window. */
    method PrepareHead(b: BlockRef) returns (r: Result<PreparedHead, ForkError>)
      requires Consistent()
      ensures r.Err? <==> PushHead(View(), b).Err?
      ensures r.Err? ==> r.error == PushHead(View(), b).error
      ensures r.Ok? ==>
        && r.value.expectedTip == Tip()
        && r.value.block == b
        && MeantFor(r.value, View()) && CountsRight(r.value, View())
    {
      if !Complete(b) {
        return Err(InvalidIdentity);
      }
      if blocks != [] {
        var tip := blocks[|blocks| - 1];
        if !SameChain(tip, b) {
          return Err(InvalidIdentity);
        }
        if tip == b {
          return Ok(PreparedHead(Some(tip), b, retainedBytes, false));
        }
        if b.Number() != rules.Next(tip.Number()) || b.parentHash != tip.HashOf() {
          return Err(Disconnected);
        }
      }
      if |blocks| + 1 > limits.maxBlocks {
        return Err(BlockBudget);
      }
      if (|blocks| + 1) * rules.charge > limits.maxBytes {
        return Err(ByteBudget);
      }
      r := Ok(PreparedHead(Tip(), b, retainedBytes + rules.charge, true));
    }

    /**
     * Commits a token. Only the tip is compared. On a window that accepts its
     * block this completes the append, and the byte count stays exact if and
     * only if the token's count is that of the window as it is now.
     */
    method CommitHead(p: PreparedHead) returns (appended: bool)
      requires Tip() == p.expectedTip
      modifies this`blocks, this`retainedBytes
      ensures appended == p.append
      ensures blocks == (if p.append then old(blocks) + [p.block] else old(blocks))
      ensures retainedBytes == (if p.append then p.nextRetainedBytes else old(retainedBytes))
      ensures old(Consistent()) && MeantFor(p, old(View())) ==>
        View() == PushHead(old(View()), p.block).value && (Consistent() <==> CountsRight(p, old(View())))
    {
      if old(Consistent()) && MeantFor(p, View()) {
        OutcomeValid(View(), Operation.Push(p.block));
      }
      if !p.append {
        return false;
      }
      blocks := blocks + [p.block];
      retainedBytes := p.nextRetainedBytes;
      return true;
    }

    method Push(b: BlockRef) returns (r: Result<bool, ForkError>)
      requires Consistent()
      modifies this`blocks, this`retainedBytes
      ensures Consistent()
      ensures match PushHead(old(View()), b)
        case Ok(w) => r == Ok(old(Tip()) != Some(b)) && View() == w
        case Err(e) => r == Err(e) && View() == old(View())
    {
      var prepared := PrepareHead(b);
      if prepared.Err? {
        return Err(prepared.error);
      }
      var appended := CommitHead(prepared.value);
      return Ok(appended);
    }

    method PrepareTip(b: BlockRef) returns (r: Result<PreparedTip, ForkError>)
      ensures match ReplaceTip(View(), b)
        case Ok(_) => blocks != [] && r == Ok(PreparedTip(Tip().value, b))
        case Err(e) => r == Err(e)
    {
      if !Complete(b) {
        return Err(InvalidIdentity);
      }
      if blocks == [] {
        return Err(Disconnected);
      }
      var tip := blocks[|blocks| - 1];
      if !SameChain(tip, b) {
        return Err(InvalidIdentity);
      }
      if finalized.Some? && finalized.value.Number() >= b.Number() {
        return Err(FinalizedConflict);
      }
      if tip.Number() != b.Number() || tip.parentHash != b.parentHash {
        return Err(Disconnected);
      }
      return Ok(PreparedTip(tip, b));
    }

    method CommitTip(p: PreparedTip)
      requires Tip() == Some(p.expectedTip)
      modifies this`blocks
      ensures blocks == old(blocks)[|old(blocks)| - 1 := p.block]
      ensures old(Consistent()) && ReplaceTip(old(View()), p.block).Ok? ==>
        Consistent() && View() == ReplaceTip(old(View()), p.block).value
    {
      if old(Consistent()) && ReplaceTip(View(), p.block).Ok? {
        OutcomeValid(View(), Replace(p.block));
      }
      blocks := blocks[|blocks| - 1 := p.block];
    }

    method ReplaceProgressiveTip(b: BlockRef) returns (r: Result<(), ForkError>)
      requires Consistent()
      modifies this`blocks
      ensures Consistent()
      ensures match ReplaceTip(old(View()), b)
        case Ok(w) => r == Ok(()) && View() == w
        case Err(e) => r == Err(e) && View() == old(View())
    {
      var prepared := PrepareTip(b);
      if prepared.Err? {
        return Err(prepared.error);
      }
      CommitTip(prepared.value);
      return Ok(());
    }

    method Advance(b: BlockRef) returns (r: Result<(), ForkError>)
      requires Consistent()
      modifies this`blocks, this`finalized, this`retainedBytes
      ensures Consistent()
      ensures match AdvanceFinalized(old(View()), b)
        case Ok(w) => r == Ok(()) && View() == w
        case Err(e) => r == Err(e) && View() == old(View())
    {
      if !Complete(b) || !b.cursor.commitment.Finalized? {
        return Err(InvalidIdentity);
      }
      if finalized.Some? {
        var previous := finalized.value;
        if !SameChain(previous, b) {
          return Err(InvalidIdentity);
        }
        if b.Number() < previous.Number()
           || (b.Number() == previous.Number() && b.HashOf() != previous.HashOf())
        {
          return Err(FinalizedConflict);
        }
      }
      var index := FindPosition(b.HashOf().value);
      if index == |blocks| {
        return Err(AncestorOutsideWindow);
      }
      var retained := blocks[index];
      if !SameChain(retained, b)
         || retained.Number() != b.Number()
         || retained.cursor.executionBlockNumber != b.cursor.executionBlockNumber
         || retained.parentHash != b.parentHash
      {
        return Err(InvalidIdentity);
      }
      OutcomeValid(View(), Finalize(b));
      blocks := blocks[index..];
      retainedBytes := |blocks| * rules.charge;
      blocks := blocks[0 := b];
      finalized := Some(b);
      assert blocks == [b] + old(blocks)[index + 1..];
      return Ok(());
    }

    method CheckReplacement(plan: ForkResolution) returns (e: Option<ForkError>)
      ensures e == ValidateReplacement(View(), plan)
    {
      if finalized.Some? && plan.commonAncestor.Number() < finalized.value.Number() {
        return Some(FinalizedConflict);
      }
      var parent, i := plan.commonAncestor, 0;
      while i < |plan.newBranch|
        invariant i <= |plan.newBranch|
        invariant BranchError(rules, plan.commonAncestor, plan.newBranch, plan.newTip)
               == BranchError(rules, parent, plan.newBranch[i..], plan.newTip)
      {
        var b := plan.newBranch[i];
        if !Complete(b) || !SameChain(parent, b) {
          return Some(InvalidIdentity);
        }
        if b.Number() != rules.Next(parent.Number()) || b.parentHash != parent.HashOf() {
          return Some(Disconnected);
        }
        parent, i := b, i + 1;
      }
      if parent != plan.newTip {
        return Some(StaleResolution);
      }
      return None;
    }

    /** The staleness tests: the ancestor's index, or the error. */
    method Locate(plan: ForkResolution) returns (r: Result<nat, ForkError>)
      ensures r == LocateAncestor(View(), plan)
    {
      if Tip() != Some(plan.oldTip) {
        return Err(StaleResolution);
      }
      if plan.commonAncestor.HashOf().None? {
        return Err(InvalidIdentity);
      }
      var ancestor := FindPosition(plan.commonAncestor.HashOf().value);
      if ancestor == |blocks| {
        return Err(StaleResolution);
      }
      if blocks[ancestor] != plan.commonAncestor || blocks[ancestor + 1..] != plan.oldBranch {
        return Err(StaleResolution);
      }
      return Ok(ancestor);
    }

    method Apply(plan: ForkResolution) returns (r: Result<(), ForkError>)
      requires Consistent()
      modifies this`blocks, this`retainedBytes
      ensures Consistent()
      ensures match ApplyResolution(old(View()), plan)
        case Ok(w) => r == Ok(()) && View() == w
        case Err(e) => r == Err(e) && View() == old(View())
    {
      var located := Locate(plan);
      if located.Err? {
        return Err(located.error);
      }
      var ancestor := located.value;
      var invalid := CheckReplacement(plan);
      if invalid.Some? {
        return Err(invalid.value);
      }
      var nextLen := ancestor + 1 + |plan.newBranch|;
      if nextLen > limits.maxBlocks {
        return Err(BlockBudget);
      }
      if nextLen * rules.charge > limits.maxBytes {
        return Err(ByteBudget);
      }
      OutcomeValid(View(), Correct(plan));
      blocks := blocks[..ancestor + 1];
      blocks := blocks + plan.newBranch;
      retainedBytes := |blocks| * rules.charge;
      return Ok(());
    }
  }
}
