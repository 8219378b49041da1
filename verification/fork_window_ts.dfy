/**
 * `CanonicalWindow` of packages/source-evm/src/fork.ts: the same window kept
 * behind a moving start index in one array that is compacted only now and
 * then. Proved to refine the plain block sequence of `ForkModel`.
 */
module ForkWindowTs {
  import opened Chain
  import opened ForkModel
  import opened ForkRuns
  import opened ForkWindow

  /** `BLOCK_REF_RETAINED_BYTES`, and heights as unbounded `bigint`s. */
  const TS_RULES: Rules := Rules(512, None)

  const COMPACTION_START: nat := 1024

  function Max(a: nat, b: nat): nat {
    if a < b then b else a
  }

  /** The fields `sameBlock` compares: everything but the event coordinates. */
  predicate SameBlock(a: BlockRef, b: BlockRef) {
    && a.cursor.chainId == b.cursor.chainId
    && a.cursor.blockNumber == b.cursor.blockNumber
    && a.cursor.executionBlockNumber == b.cursor.executionBlockNumber
    && a.cursor.blockHash == b.cursor.blockHash
    && a.cursor.commitment == b.cursor.commitment
    && a.cursor.sourceSequence == b.cursor.sourceSequence
    && a.cursor.sourceSubIndex == b.cursor.sourceSubIndex
    && a.parentHash == b.parentHash
  }

  predicate SameBranch(a: seq<BlockRef>, b: seq<BlockRef>) {
    |a| == |b| && forall i :: 0 <= i < |a| ==> SameBlock(a[i], b[i])
  }

  function Strip(b: BlockRef): BlockRef {
    b.(cursor := b.cursor.(transactionIndex := None, logIndex := None))
  }

  function StripAll(s: seq<BlockRef>): seq<BlockRef> {
    seq(|s|, i requires 0 <= i < |s| => Strip(s[i]))
  }

  /** The plan as `sameBlock` sees it; the replacement branch is validated block by block instead. */
  function StripPlan(r: ForkResolution): ForkResolution {
    ForkResolution(Strip(r.commonAncestor), Strip(r.oldTip), Strip(r.newTip), StripAll(r.oldBranch), r.newBranch)
  }

  lemma SameBranchIsEquality(a: seq<BlockRef>, b: seq<BlockRef>)
    requires forall i :: 0 <= i < |a| ==> Complete(a[i])
    ensures SameBranch(a, b) <==> a == StripAll(b)
  {
    if a == StripAll(b) {
      forall i | 0 <= i < |a|
        ensures SameBlock(a[i], b[i])
      {
        assert a[i] == Strip(b[i]);
      }
    }
  }

  predicate AllComplete(s: seq<BlockRef>) {
    forall i :: 0 <= i < |s| ==> Complete(s[i])
  }

  /** The staleness tests with `sameBlock` in place of equality. */
  function LocateSame(w: Window, r: ForkResolution): Result<nat, ForkError> {
    if w.blocks == [] || !SameBlock(w.Tip().value, r.oldTip) then Err(StaleResolution)
    else if r.commonAncestor.HashOf().None? then Err(InvalidIdentity)
    else
      var k := Position(w.blocks, r.commonAncestor.HashOf().value);
      if k == |w.blocks| || !SameBlock(w.blocks[k], r.commonAncestor) || !SameBranch(w.blocks[k + 1..], r.oldBranch)
      then Err(StaleResolution)
      else Ok(k)
  }

  lemma LocateSameIsStripped(w: Window, r: ForkResolution)
    requires AllComplete(w.blocks)
    ensures LocateSame(w, r) == LocateAncestor(w, StripPlan(r))
  {
    if w.blocks != [] {
      assert SameBlock(w.Tip().value, r.oldTip) <==> w.Tip().value == Strip(r.oldTip);
      if r.commonAncestor.HashOf().Some? {
        var k := Position(w.blocks, r.commonAncestor.HashOf().value);
        if k < |w.blocks| {
          assert SameBlock(w.blocks[k], r.commonAncestor) <==> w.blocks[k] == Strip(r.commonAncestor);
          SameBranchIsEquality(w.blocks[k + 1..], r.oldBranch);
        }
      }
    }
  }

  /** A branch with an incomplete block is never accepted. */
  lemma {:induction false} IncompleteBranchFails(parent: BlockRef, branch: seq<BlockRef>, newTip: BlockRef)
    requires !AllComplete(branch)
    ensures BranchError(TS_RULES, parent, branch, newTip).Some?
    decreases |branch|
  {
    if Complete(branch[0]) {
      assert !AllComplete(branch[1..]) by {
        var i :| 0 <= i < |branch| && !Complete(branch[i]);
        assert branch[1..][i - 1] == branch[i];
      }
      IncompleteBranchFails(branch[0], branch[1..], newTip);
    }
  }

  class CanonicalWindow {
    const limits: Limits
    var storage: seq<BlockRef>
    var start: nat
    var finalizedBlock: Option<BlockRef>

    constructor (limits: Limits)
      requires ValidLimits(TS_RULES, limits)
      ensures Consistent()
      ensures View() == Create(TS_RULES, limits).value
    {
      this.limits := limits;
      storage, start, finalizedBlock := [], 0, None;
    }

    /** The plain window this array stands for. */
    ghost function View(): Window
      requires start <= |storage|
      reads this
    {
      Window(TS_RULES, limits, storage[start..], finalizedBlock)
    }

    /** Longest physical array, with at most one dead prefix in front of the retained blocks. */
    ghost function Capacity(): nat
      requires 0 < limits.maxBlocks
    {
      limits.maxBlocks + Max(COMPACTION_START - 1, limits.maxBlocks - 1)
    }

    ghost predicate Consistent()
      reads this
      ensures Consistent() ==> 0 < limits.maxBlocks && |storage| <= Capacity()
    {
      && start <= |storage|
      && (start == |storage| ==> start == 0)
      && 0 < limits.maxBlocks
      && start <= Max(COMPACTION_START - 1, limits.maxBlocks - 1)
      && Valid(View())
    }

    function Length(): (n: nat)
      requires start <= |storage|
      reads this
      ensures n == |View().blocks|
    {
      |storage| - start
    }

    function Tip(): Option<BlockRef>
      reads this
    {
      if storage == [] then None else Some(storage[|storage| - 1])
    }

    method PositionOf(hash: Hash) returns (index: int)
      requires start <= |storage|
      ensures index < 0 ==> Position(View().blocks, hash) == |View().blocks|
      ensures index >= 0 ==> start <= index < |storage| && Position(View().blocks, hash) == index - start
    {
      ghost var live := View().blocks;
      var i := start;
      while i < |storage|
        invariant start <= i <= |storage|
        invariant forall j :: 0 <= j < i - start ==> live[j].HashOf() != Some(hash)
      {
        if storage[i].HashOf() == Some(hash) {
          PositionIsFirst(live, hash, i - start);
          return i;
        }
        i := i + 1;
      }
      PositionIsFirst(live, hash, |live|);
      return -1;
    }

    method Push(b: BlockRef) returns (r: Result<bool, ForkError>)
      requires Consistent()
      modifies this`storage
      ensures Consistent()
      ensures match PushHead(old(View()), b)
        case Ok(w) => r == Ok(old(Tip()) != Some(b)) && View() == w
        case Err(e) => r == Err(e) && View() == old(View())
    {
      if !Complete(b) {
        return Err(InvalidIdentity);
      }
      if storage != [] {
        var tip := storage[|storage| - 1];
        assert Complete(tip) by {
          assert tip == View().blocks[|View().blocks| - 1];
        }
        if !SameChain(tip, b) {
          return Err(InvalidIdentity);
        }
        if SameBlock(tip, b) {
          assert tip == b;
          return Ok(false);
        }
        if b.Number() != tip.Number() + 1 || b.parentHash != tip.HashOf() {
          return Err(Disconnected);
        }
      }
      if Length() + 1 > limits.maxBlocks {
        return Err(BlockBudget);
      }
      if (Length() + 1) * TS_RULES.charge > limits.maxBytes {
        return Err(ByteBudget);
      }
      OutcomeValid(View(), Operation.Push(b));
      storage := storage + [b];
      assert storage[start..] == old(storage[start..]) + [b];
      return Ok(true);
    }

    method ReplaceProgressiveTip(b: BlockRef) returns (r: Result<(), ForkError>)
      requires Consistent()
      modifies this`storage
      ensures Consistent()
      ensures match ReplaceTip(old(View()), b)
        case Ok(w) => r == Ok(()) && View() == w
        case Err(e) => r == Err(e) && View() == old(View())
    {
      if !Complete(b) {
        return Err(InvalidIdentity);
      }
      if storage == [] {
        return Err(Disconnected);
      }
      var tip := storage[|storage| - 1];
      if !SameChain(tip, b) {
        return Err(InvalidIdentity);
      }
      if finalizedBlock.Some? && finalizedBlock.value.Number() >= b.Number() {
        return Err(FinalizedConflict);
      }
      if tip.Number() != b.Number() || tip.parentHash != b.parentHash {
        return Err(Disconnected);
      }
      OutcomeValid(View(), Replace(b));
      storage := storage[|storage| - 1 := b];
      assert storage[start..] == old(storage[start..])[|old(storage[start..])| - 1 := b];
      return Ok(());
    }

    /** Drops the dead prefix once it is long and at least half of the array. */
    method CompactAfterFinality()
      requires start < |storage| && 0 < limits.maxBlocks && Length() <= limits.maxBlocks
      modifies this`storage, this`start
      ensures start < |storage| && View() == old(View())
      ensures start <= Max(COMPACTION_START - 1, limits.maxBlocks - 1)
    {
      if start < COMPACTION_START || start * 2 < |storage| {
        return;
      }
      storage := storage[start..];
      start := 0;
    }

    /** The tests of `advanceFinalized`: the block's distance from the start index, or the error. */
    method LocateFinalized(b: BlockRef) returns (r: Result<nat, ForkError>)
      requires start <= |storage|
      ensures r == FinalizeAt(View(), b)
    {
      ghost var w := View();
      if !Complete(b) || !b.cursor.commitment.Finalized? {
        return Err(InvalidIdentity);
      }
      if finalizedBlock.Some? {
        var previous := finalizedBlock.value;
        if !SameChain(previous, b) {
          return Err(InvalidIdentity);
        }
        if b.Number() < previous.Number()
           || (b.Number() == previous.Number() && b.HashOf() != previous.HashOf())
        {
          return Err(FinalizedConflict);
        }
      }
      var index := PositionOf(b.HashOf().value);
      if index < 0 {
        return Err(AncestorOutsideWindow);
      }
      var retained := storage[index];
      assert w.blocks[index - start] == retained;
      if !SameChain(retained, b)
         || retained.Number() != b.Number()
         || retained.cursor.executionBlockNumber != b.cursor.executionBlockNumber
         || retained.parentHash != b.parentHash
      {
        return Err(InvalidIdentity);
      }
      return Ok(index - start);
    }

    /** Moves the start index to the finalized block and puts that block there. */
    method MoveStart(k: nat, b: BlockRef)
      requires start + k < |storage|
      modifies this`storage, this`start
      ensures start == old(start) + k && |storage| == old(|storage|)
      ensures storage[start..] == [b] + old(storage[start..])[k + 1..]
    {
      start := start + k;
      storage := storage[start := b];
    }

    method Advance(b: BlockRef) returns (r: Result<(), ForkError>)
      requires Consistent()
      modifies this
      ensures Consistent()
      ensures match AdvanceFinalized(old(View()), b)
        case Ok(w) => r == Ok(()) && View() == w
        case Err(e) => r == Err(e) && View() == old(View())
    {
      ghost var w := View();
      var located := LocateFinalized(b);
      if located.Err? {
        return Err(located.error);
      }
      AdvanceKeepsValid(w, b);
      MoveStart(located.value, b);
      finalizedBlock := Some(b);
      assert View() == AdvanceFinalized(w, b).value;
      CompactAfterFinality();
      return Ok(());
    }

    method CheckReplacement(ancestor: BlockRef, newTip: BlockRef, branch: seq<BlockRef>)
      returns (e: Option<ForkError>)
      requires start <= |storage| && AllComplete(branch)
      ensures e == if CrossesFinality(View(), ancestor) then Some(FinalizedConflict)
                   else BranchError(TS_RULES, Strip(ancestor), branch, Strip(newTip))
    {
      if finalizedBlock.Some? && ancestor.Number() < finalizedBlock.value.Number() {
        return Some(FinalizedConflict);
      }
      var parent, i := ancestor, 0;
      while i < |branch|
        invariant i <= |branch|
        invariant BranchError(TS_RULES, Strip(ancestor), branch, Strip(newTip))
               == BranchError(TS_RULES, Strip(parent), branch[i..], Strip(newTip))
      {
        var b := branch[i];
        if !SameChain(parent, b) {
          return Some(InvalidIdentity);
        }
        if b.Number() != parent.Number() + 1 || b.parentHash != parent.HashOf() {
          return Some(Disconnected);
        }
        assert Strip(b) == b;
        parent, i := b, i + 1;
      }
      if !SameBlock(parent, newTip) {
        return Some(StaleResolution);
      }
      return None;
    }

    /** The staleness tests of `applyResolution`: the ancestor's distance from the start index, or the error. */
    method Locate(plan: ForkResolution) returns (r: Result<nat, ForkError>)
      requires start <= |storage| && (start == |storage| ==> start == 0)
      ensures r == LocateSame(View(), plan)
    {
      ghost var w := View();
      if storage == [] || !SameBlock(storage[|storage| - 1], plan.oldTip) {
        return Err(StaleResolution);
      }
      if plan.commonAncestor.HashOf().None? {
        return Err(InvalidIdentity);
      }
      var ancestor := PositionOf(plan.commonAncestor.HashOf().value);
      if ancestor < 0 {
        return Err(StaleResolution);
      }
      var k: nat := ancestor - start;
      assert w.blocks[k] == storage[ancestor] && w.blocks[k + 1..] == storage[ancestor + 1..];
      if !SameBlock(storage[ancestor], plan.commonAncestor) || !SameBranch(storage[ancestor + 1..], plan.oldBranch) {
        return Err(StaleResolution);
      }
      return Ok(k);
    }

    /** Cuts the array after the ancestor and appends the replacement branch. */
    method Switch(ancestor: nat, branch: seq<BlockRef>)
      requires start <= ancestor < |storage|
      modifies this`storage
      ensures start < |storage|
      ensures storage[start..] == old(storage[start..])[..ancestor - start + 1] + branch
    {
      storage := storage[..ancestor + 1];
      storage := storage + branch;
    }

    /** Every test of `applyResolution`: the array index of the ancestor, or the error. */
    method CheckPlan(plan: ForkResolution) returns (r: Result<nat, ForkError>)
      requires Consistent()
      ensures match ApplyResolution(View(), StripPlan(plan))
        case Ok(w) =>
          && r.Ok? && start <= r.value < |storage|
          && w == View().(blocks := View().blocks[..r.value - start + 1] + plan.newBranch)
        case Err(e) => r.Err? && (AllComplete(plan.newBranch) ==> r.error == e)
    {
      ghost var w, stripped := View(), StripPlan(plan);
      LocateSameIsStripped(w, plan);
      var located := Locate(plan);
      if located.Err? {
        return Err(located.error);
      }
      if !AllComplete(plan.newBranch) {
        IncompleteBranchFails(stripped.commonAncestor, plan.newBranch, stripped.newTip);
        return Err(InvalidIdentity);
      }
      var invalid := CheckReplacement(plan.commonAncestor, plan.newTip, plan.newBranch);
      assert invalid == ValidateReplacement(w, stripped);
      if invalid.Some? {
        return Err(invalid.value);
      }
      var nextLen := located.value + 1 + |plan.newBranch|;
      if nextLen > limits.maxBlocks {
        return Err(BlockBudget);
      }
      if nextLen * TS_RULES.charge > limits.maxBytes {
        return Err(ByteBudget);
      }
      return Ok(start + located.value);
    }

    /**
     * Event coordinates in a plan are ignored, so the window changes as the
     * plain one does under the stripped plan. The error is the same too, except
     * that an incomplete replacement block is reported before anything else
     * about the branch.
     */
    method Apply(plan: ForkResolution) returns (r: Result<(), ForkError>)
      requires Consistent()
      modifies this`storage
      ensures Consistent()
      ensures match ApplyResolution(old(View()), StripPlan(plan))
        case Ok(w) => r == Ok(()) && View() == w
        case Err(e) => r.Err? && View() == old(View()) && (AllComplete(plan.newBranch) ==> r.error == e)
    {
      var checked := CheckPlan(plan);
      if checked.Err? {
        return Err(checked.error);
      }
      OutcomeValid(View(), Correct(StripPlan(plan)));
      Switch(checked.value, plan.newBranch);
      return Ok(());
    }
  }
}
