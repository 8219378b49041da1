/**
 * `ForkResolver::resolve`: the walk over parent hashes that computes a
 * correction plan, and what such a plan does when it is applied.
 */
module ForkResolver {
  import opened Chain
  import opened ForkModel

  /**
   * Exact-hash block lookup. The first argument is the number of the call, so
   * one oracle covers a provider whose answers change over time.
   */
  type Lookup = (nat, Hash, Commitment) -> Result<BlockRef, ForkError>

  /** An answer carries the hash that was asked for and the backend's chain id. */
  ghost predicate Honest(lookup: Lookup, chainId: nat) {
    forall i: nat, h: Hash, c: Commitment :: lookup(i, h, c).Ok? ==>
      lookup(i, h, c).value.HashOf() == Some(h) && lookup(i, h, c).value.cursor.chainId == chainId
  }

  function ReverseBlocks(s: seq<BlockRef>): (r: seq<BlockRef>)
    ensures |r| == |s|
    ensures forall i :: 0 <= i < |s| ==> r[i] == s[|s| - 1 - i]
  {
    if s == [] then [] else ReverseBlocks(s[1..]) + [s[0]]
  }

  // ---- When a plan exists ----

  predicate Retained(w: Window, hash: Hash) {
    Position(w.blocks, hash) < |w.blocks|
  }

  /** The walk may leave `child`: its parent is unknown to the window and may lie above finality. */
  predicate MayDescend(w: Window, child: BlockRef) {
    && Complete(child)
    && !Retained(w, child.parentHash.value)
    && (w.finalized.Some? ==> child.Number() > w.rules.Next(w.finalized.value.Number()))
    && child.Number() != 0
  }

  /** The i-th lookup leads from `child` to `parent`. */
  ghost predicate Descends(w: Window, lookup: Lookup, i: nat, child: BlockRef, parent: BlockRef) {
    && MayDescend(w, child)
    && lookup(i, child.parentHash.value, child.cursor.commitment) == Ok(parent)
    && Complete(parent)
    && w.rules.Next(parent.Number()) == child.Number()
  }

  ghost predicate Walk(w: Window, lookup: Lookup, newTip: BlockRef, d: seq<BlockRef>) {
    && d != []
    && d[0] == newTip
    && Complete(newTip)
    && forall i, j :: 0 <= i < j < |d| && j == i + 1 ==> Descends(w, lookup, i, d[i], d[j])
  }

  /** A walk whose last block hangs from a retained block, with both branches within depth. */
  ghost predicate Reaches(w: Window, lookup: Lookup, newTip: BlockRef, maxDepth: nat, d: seq<BlockRef>) {
    && Walk(w, lookup, newTip, d)
    && |d| <= maxDepth
    && var last := d[|d| - 1];
      && Complete(last)
      && Retained(w, last.parentHash.value)
      && var k := Position(w.blocks, last.parentHash.value);
        && last.Number() == w.rules.Next(w.blocks[k].Number())
        && |w.blocks| - (k + 1) <= maxDepth
  }

  ghost predicate Resolvable(w: Window, lookup: Lookup, newTip: BlockRef, chainId: nat, maxDepth: nat) {
    && Complete(newTip)
    && w.blocks != []
    && SameChain(w.Tip().value, newTip)
    && newTip.cursor.chainId == chainId
    && (w.Tip().value == newTip
        || (AboveFinality(w, newTip) && exists d :: Reaches(w, lookup, newTip, maxDepth, d)))
  }

  /** Higher than the finalized block, or that block itself. */
  predicate AboveFinality(w: Window, newTip: BlockRef) {
    w.finalized.Some? ==>
      w.finalized.value.Number() < newTip.Number() || newTip.HashOf() == w.finalized.value.HashOf()
  }

  /** Walks are determined by the oracle: one that goes on agrees with the lookup. */
  lemma WalkContinues(w: Window, lookup: Lookup, newTip: BlockRef, maxDepth: nat, d: seq<BlockRef>, e: seq<BlockRef>)
    requires d != [] && d <= e && Complete(d[|d| - 1])
    requires !Retained(w, d[|d| - 1].parentHash.value)
    requires Reaches(w, lookup, newTip, maxDepth, e)
    ensures |d| < |e| && Descends(w, lookup, |d| - 1, d[|d| - 1], e[|d|])
  {
    if |d| < |e| {
      assert Descends(w, lookup, |d| - 1, e[|d| - 1], e[|d|]);
    }
  }

  // ---- Plans ----

  /**
   * A plan for `w`: the abandoned branch is what the window holds above the
   * ancestor, the replacement branch is a chain from the ancestor to the new
   * tip, and the ancestor is the nearest one, since no replacement block below
   * the tip is retained.
   */
  ghost predicate IsPlan(w: Window, newTip: BlockRef, plan: ForkResolution, maxDepth: nat) {
    && LocateAncestor(w, plan).Ok?
    && plan.newTip == newTip
    && |plan.oldBranch| <= maxDepth && 1 <= |plan.newBranch| <= maxDepth
    && IsChain(w.rules, [plan.commonAncestor] + plan.newBranch)
    && plan.newBranch[|plan.newBranch| - 1] == newTip
    && (forall i :: 0 <= i < |plan.newBranch| - 1 ==>
          plan.newBranch[i].HashOf().Some? && !Retained(w, plan.newBranch[i].HashOf().value))
  }

  function NoopPlan(tip: BlockRef): ForkResolution {
    ForkResolution(tip, tip, tip, [], [])
  }

  lemma {:induction false} WalkStaysOnChain(
      w: Window, lookup: Lookup, newTip: BlockRef, chainId: nat, d: seq<BlockRef>, i: nat)
    requires Walk(w, lookup, newTip, d) && Honest(lookup, chainId) && newTip.cursor.chainId == chainId
    requires i < |d|
    ensures Complete(d[i]) && d[i].cursor.chainId == chainId
    ensures 0 < i ==> Links(w.rules, d[i], d[i - 1])
  {
    if i > 0 {
      WalkStaysOnChain(w, lookup, newTip, chainId, d, i - 1);
      assert Descends(w, lookup, i - 1, d[i - 1], d[i]);
    }
  }

  lemma ReversedWalkIsChain(w: Window, lookup: Lookup, newTip: BlockRef, chainId: nat, d: seq<BlockRef>, base: BlockRef)
    requires Walk(w, lookup, newTip, d) && Honest(lookup, chainId) && newTip.cursor.chainId == chainId
    requires Complete(base) && Links(w.rules, base, d[|d| - 1])
    ensures IsChain(w.rules, [base] + ReverseBlocks(d))
  {
    var r := ReverseBlocks(d);
    var s := [base] + r;
    forall i | 0 <= i < |d|
      ensures Complete(d[i])
      ensures 0 < i ==> Links(w.rules, d[i], d[i - 1])
    {
      WalkStaysOnChain(w, lookup, newTip, chainId, d, i);
    }
    forall i, j | 0 <= i < j < |s| && j == i + 1
      ensures Links(w.rules, s[i], s[j])
    {
      assert s[j] == d[|d| - j];
      assert i > 0 ==> s[i] == d[|d| - i];
    }
  }

  lemma ReversedWalkUnretained(w: Window, lookup: Lookup, newTip: BlockRef, chainId: nat, d: seq<BlockRef>)
    requires Walk(w, lookup, newTip, d) && Honest(lookup, chainId)
    ensures var r := ReverseBlocks(d);
      forall i :: 0 <= i < |r| - 1 ==> r[i].HashOf().Some? && !Retained(w, r[i].HashOf().value)
  {
    var r := ReverseBlocks(d);
    forall i | 0 <= i < |r| - 1
      ensures r[i].HashOf().Some? && !Retained(w, r[i].HashOf().value)
    {
      var j := |d| - 2 - i;
      assert Descends(w, lookup, j, d[j], d[j + 1]) && r[i] == d[j + 1];
    }
  }

  lemma LocatesFirst(w: Window, k: nat, newTip: BlockRef, hash: Hash, branch: seq<BlockRef>)
    requires k == Position(w.blocks, hash) < |w.blocks|
    ensures LocateAncestor(w, ForkResolution(w.blocks[k], w.Tip().value, newTip, w.blocks[k + 1..], branch)) == Ok(k)
  {
  }

  lemma PlanFromWalk(w: Window, lookup: Lookup, newTip: BlockRef, chainId: nat, maxDepth: nat, d: seq<BlockRef>)
    requires Valid(w) && w.blocks != [] && SameChain(w.Tip().value, newTip)
    requires Honest(lookup, chainId) && newTip.cursor.chainId == chainId
    requires Reaches(w, lookup, newTip, maxDepth, d)
    ensures var k := Position(w.blocks, d[|d| - 1].parentHash.value);
      IsPlan(w, newTip,
        ForkResolution(w.blocks[k], w.Tip().value, newTip, w.blocks[k + 1..], ReverseBlocks(d)), maxDepth)
  {
    var k := Position(w.blocks, d[|d| - 1].parentHash.value);
    LocatesFirst(w, k, newTip, d[|d| - 1].parentHash.value, ReverseBlocks(d));
    ChainMonotone(w.rules, w.blocks, k, |w.blocks| - 1);
    WalkStaysOnChain(w, lookup, newTip, chainId, d, |d| - 1);
    assert Links(w.rules, w.blocks[k], d[|d| - 1]);
    ReversedWalkIsChain(w, lookup, newTip, chainId, d, w.blocks[k]);
    ReversedWalkUnretained(w, lookup, newTip, chainId, d);
    assert ReverseBlocks(d)[|d| - 1] == d[0];
  }

  /** A complete block on the window's chain other than its tip. */
  predicate Comparable(w: Window, newTip: BlockRef, chainId: nat) {
    && Complete(newTip) && w.blocks != [] && w.Tip() != Some(newTip)
    && SameChain(w.Tip().value, newTip) && newTip.cursor.chainId == chainId
  }

  // ---- Competing branches ----

  /** The provider knows the blocks of a branch below its tip by their hashes, whenever it is asked. */
  ghost predicate Serves(lookup: Lookup, branch: seq<BlockRef>) {
    forall j, i: nat, c: Commitment :: 0 <= j < |branch| - 1 && branch[j].HashOf().Some? ==>
      lookup(i, branch[j].HashOf().value, c) == Ok(branch[j])
  }

  /** No block of the branch below its tip has the hash of a retained one. */
  ghost predicate Unknown(w: Window, branch: seq<BlockRef>) {
    forall i, j :: 0 <= i < |w.blocks| && 0 <= j < |branch| - 1 ==> w.blocks[i].HashOf() != branch[j].HashOf()
  }

  /**
   * A branch of new blocks that hangs from the retained block `k`, consecutive in
   * height up to the new tip, within depth on both sides and known to the provider.
   */
  ghost predicate Competes(
      w: Window, lookup: Lookup, newTip: BlockRef, maxDepth: nat, k: nat, branch: seq<BlockRef>)
  {
    && k < |w.blocks| && branch != [] && branch[|branch| - 1] == newTip
    && IsChain(w.rules, [w.blocks[k]] + branch)
    && newTip.Number() == w.blocks[k].Number() + |branch|
    && |branch| <= maxDepth && |w.blocks| - (k + 1) <= maxDepth
    && (forall i :: 0 <= i < k ==> w.blocks[i].HashOf() != w.blocks[k].HashOf())
    && Unknown(w, branch) && Serves(lookup, branch)
  }

  /** Heights along a chain grow by at most one per block. */
  lemma {:induction false} ChainSlow(rules: Rules, s: seq<BlockRef>, i: nat, j: nat)
    requires IsChain(rules, s) && i <= j < |s|
    ensures s[j].Number() <= s[i].Number() + (j - i)
    decreases j - i
  {
    if i < j {
      ChainSlow(rules, s, i, j - 1);
      assert Links(rules, s[j - 1], s[j]);
    }
  }

  lemma CompetingHeight(
      w: Window, lookup: Lookup, newTip: BlockRef, maxDepth: nat, k: nat, branch: seq<BlockRef>, j: nat)
    requires Competes(w, lookup, newTip, maxDepth, k, branch) && j < |branch|
    ensures branch[j].Number() == w.blocks[k].Number() + j + 1
  {
    var s := [w.blocks[k]] + branch;
    ChainSlow(w.rules, s, 0, j + 1);
    ChainSlow(w.rules, s, j + 1, |branch|);
  }

  lemma NotRetained(w: Window, branch: seq<BlockRef>, j: nat)
    requires Unknown(w, branch) && j < |branch| - 1 && branch[j].HashOf().Some?
    ensures !Retained(w, branch[j].HashOf().value)
  {
    PositionIsFirst(w.blocks, branch[j].HashOf().value, |w.blocks|);
  }

  /** One step down a competing branch. */
  lemma CompetingDescends(
      w: Window, lookup: Lookup, newTip: BlockRef, maxDepth: nat, k: nat, branch: seq<BlockRef>, i: nat)
    requires Valid(w) && Competes(w, lookup, newTip, maxDepth, k, branch) && i < |branch| - 1
    ensures var d := ReverseBlocks(branch); Descends(w, lookup, i, d[i], d[i + 1])
  {
    var j := |branch| - 2 - i;
    var s := [w.blocks[k]] + branch;
    assert Links(w.rules, s[j + 1], s[j + 2]) && Complete(s[j + 1]) && Complete(s[j + 2]);
    NotRetained(w, branch, j);
    CompetingHeight(w, lookup, newTip, maxDepth, k, branch, j + 1);
    ChainMonotone(w.rules, w.blocks, 0, k);
  }

  /** A competing branch, read from its tip down, is a walk that reaches the window. */
  lemma CompetingReaches(
      w: Window, lookup: Lookup, newTip: BlockRef, maxDepth: nat, k: nat, branch: seq<BlockRef>)
    requires Valid(w) && Competes(w, lookup, newTip, maxDepth, k, branch)
    ensures Reaches(w, lookup, newTip, maxDepth, ReverseBlocks(branch)) && AboveFinality(w, newTip)
    ensures branch[0].parentHash.Some? && Position(w.blocks, branch[0].parentHash.value) == k
  {
    var s := [w.blocks[k]] + branch;
    assert Links(w.rules, s[0], s[1]) && Complete(s[1]) && s[|branch|] == newTip;
    PositionIsFirst(w.blocks, branch[0].parentHash.value, k);
    ChainMonotone(w.rules, w.blocks, 0, k);
    forall i | 0 <= i < |branch| - 1
      ensures Descends(w, lookup, i, ReverseBlocks(branch)[i], ReverseBlocks(branch)[i + 1])
    {
      CompetingDescends(w, lookup, newTip, maxDepth, k, branch, i);
    }
  }

  lemma {:induction false} ReversedTwice(s: seq<BlockRef>)
    ensures ReverseBlocks(ReverseBlocks(s)) == s
  {
    var r := ReverseBlocks(s);
    assert forall i :: 0 <= i < |s| ==> ReverseBlocks(r)[i] == r[|s| - 1 - i];
  }

  /**
   * A competing block on top of a retained one needs no lookup: every complete
   * child of a retained block is such a branch.
   */
  lemma OneBlockCompetes(w: Window, lookup: Lookup, newTip: BlockRef, maxDepth: nat, k: nat)
    requires Valid(w) && k < |w.blocks| && Complete(newTip)
    requires SameChain(w.blocks[k], newTip) && newTip.parentHash == w.blocks[k].HashOf()
    requires newTip.Number() == w.blocks[k].Number() + 1 == w.rules.Next(w.blocks[k].Number())
    requires 0 < maxDepth && |w.blocks| - (k + 1) <= maxDepth
    requires forall i :: 0 <= i < k ==> w.blocks[i].HashOf() != w.blocks[k].HashOf()
    ensures Competes(w, lookup, newTip, maxDepth, k, [newTip])
  {
  }

  // ---- The resolver ----

  /**
   * Follows parent hashes from a new tip until the window is reached: the
   * walked blocks, child first. It succeeds exactly when such a walk exists.
   */
  method WalkToWindow(w: Window, newTip: BlockRef, maxDepth: nat, lookup: Lookup)
    returns (r: Result<seq<BlockRef>, ForkError>, lookups: nat)
    requires 0 < maxDepth && Complete(newTip)
    ensures lookups < maxDepth
    ensures r.Ok? ==> Reaches(w, lookup, newTip, maxDepth, r.value) && |r.value| == lookups + 1
    ensures r.Ok? ==> forall e :: Reaches(w, lookup, newTip, maxDepth, e) ==> e == r.value
    ensures r.Err? ==> forall e :: !Reaches(w, lookup, newTip, maxDepth, e)
  {
    lookups := 0;
    var descending := [newTip];
    while true
      invariant Walk(w, lookup, newTip, descending)
      invariant Complete(descending[|descending| - 1])
      invariant |descending| == lookups + 1 <= maxDepth
      invariant forall e :: Reaches(w, lookup, newTip, maxDepth, e) ==> descending <= e
      decreases maxDepth - |descending|
    {
      var child := descending[|descending| - 1];
      var parentHash := child.parentHash.value;
      var ancestor := Position(w.blocks, parentHash);
      if ancestor < |w.blocks| {
        StopsHere(w, lookup, newTip, maxDepth, descending);
        if child.Number() != w.rules.Next(w.blocks[ancestor].Number()) {
          return Err(Disconnected), lookups;
        }
        if |w.blocks| - (ancestor + 1) > maxDepth {
          return Err(DepthExceeded), lookups;
        }
        return Ok(descending), lookups;
      }
      forall e | Reaches(w, lookup, newTip, maxDepth, e)
        ensures |descending| < |e| && Descends(w, lookup, lookups, child, e[|descending|])
      {
        WalkContinues(w, lookup, newTip, maxDepth, descending, e);
      }
      if |descending| >= maxDepth {
        return Err(DepthExceeded), lookups;
      }
      if w.finalized.Some? && child.Number() <= w.rules.Next(w.finalized.value.Number()) {
        return Err(FinalizedConflict), lookups;
      }
      if child.Number() == 0 {
        return Err(AncestorOutsideWindow), lookups;
      }
      var answer := lookup(lookups, parentHash, child.cursor.commitment);
      lookups := lookups + 1;
      if answer.Err? {
        return Err(answer.error), lookups;
      }
      var parent := answer.value;
      if !Complete(parent) {
        return Err(InvalidIdentity), lookups;
      }
      if w.rules.Next(parent.Number()) != child.Number() {
        return Err(Disconnected), lookups;
      }
      descending := descending + [parent];
    }
  }

  /** Walks down to the window and cuts it there. */
  method PlanFork(w: Window, newTip: BlockRef, chainId: nat, maxDepth: nat, lookup: Lookup)
    returns (r: Result<ForkResolution, ForkError>, lookups: nat)
    requires Valid(w) && 0 < maxDepth && Honest(lookup, chainId) && Comparable(w, newTip, chainId)
    ensures lookups < maxDepth
    ensures r.Ok? <==> exists d :: Reaches(w, lookup, newTip, maxDepth, d)
    ensures r.Ok? ==> IsPlan(w, newTip, r.value, maxDepth) && |r.value.newBranch| == lookups + 1
    ensures forall k: nat, branch: seq<BlockRef> :: r.Ok? && Competes(w, lookup, newTip, maxDepth, k, branch) ==>
      r.value == ForkResolution(w.blocks[k], w.Tip().value, newTip, w.blocks[k + 1..], branch)
  {
    var walk;
    walk, lookups := WalkToWindow(w, newTip, maxDepth, lookup);
    if walk.Err? {
      return Err(walk.error), lookups;
    }
    var descending := walk.value;
    var ancestor := Position(w.blocks, descending[|descending| - 1].parentHash.value);
    PlanFromWalk(w, lookup, newTip, chainId, maxDepth, descending);
    CompetitorIsWalk(w, lookup, newTip, maxDepth, descending);
    r := Ok(ForkResolution(
      w.blocks[ancestor], w.Tip().value, newTip, w.blocks[ancestor + 1..], ReverseBlocks(descending)));
  }

  /**
   * Computes a correction plan, asking the oracle fewer than `maxDepth` times.
   * It succeeds exactly when a walk within depth reaches the window. A competing
   * branch the provider knows is planned whole; a tip at or below finality is a
   * conflict unless it is the finalized block.
   */
  method Resolve(w: Window, newTip: BlockRef, chainId: nat, maxDepth: nat, lookup: Lookup)
    returns (r: Result<ForkResolution, ForkError>, lookups: nat)
    requires Valid(w) && 0 < maxDepth && Honest(lookup, chainId)
    ensures lookups < maxDepth
    ensures r.Ok? <==> Resolvable(w, lookup, newTip, chainId, maxDepth)
    ensures r.Ok? && w.Tip() == Some(newTip) ==> r.value == NoopPlan(newTip)
    ensures r.Ok? && w.Tip() != Some(newTip) ==>
      IsPlan(w, newTip, r.value, maxDepth) && |r.value.newBranch| == lookups + 1
    ensures w.Tip() != Some(newTip) && newTip.cursor.chainId == chainId ==>
      forall k: nat, branch: seq<BlockRef> :: Competes(w, lookup, newTip, maxDepth, k, branch) ==>
        r == Ok(ForkResolution(w.blocks[k], w.Tip().value, newTip, w.blocks[k + 1..], branch))
    ensures Comparable(w, newTip, chainId) && w.finalized.Some? ==>
      newTip.Number() <= w.finalized.value.Number() && newTip.HashOf() != w.finalized.value.HashOf() ==>
        r == Err(FinalizedConflict) && lookups == 0
  {
    lookups := 0;
    if newTip.cursor.chainId == chainId {
      CompetitorsResolve(w, lookup, newTip, chainId, maxDepth);
    }
    if !Complete(newTip) {
      return Err(InvalidIdentity), 0;
    }
    if w.blocks == [] {
      return Err(AncestorOutsideWindow), 0;
    }
    var oldTip := w.blocks[|w.blocks| - 1];
    if !SameChain(oldTip, newTip) || newTip.cursor.chainId != chainId {
      return Err(InvalidIdentity), 0;
    }
    if oldTip == newTip {
      return Ok(NoopPlan(oldTip)), 0;
    }
    if w.finalized.Some?
       && newTip.Number() <= w.finalized.value.Number() && newTip.HashOf() != w.finalized.value.HashOf()
    {
      return Err(FinalizedConflict), 0;
    }
    r, lookups := PlanFork(w, newTip, chainId, maxDepth, lookup);
  }

  /** A competing branch makes its tip resolvable. */
  lemma CompetitorsResolve(w: Window, lookup: Lookup, newTip: BlockRef, chainId: nat, maxDepth: nat)
    requires Valid(w) && newTip.cursor.chainId == chainId
    ensures (exists k: nat, branch: seq<BlockRef> :: Competes(w, lookup, newTip, maxDepth, k, branch)) ==>
      Resolvable(w, lookup, newTip, chainId, maxDepth)
  {
    if k: nat, branch: seq<BlockRef> :| Competes(w, lookup, newTip, maxDepth, k, branch) {
      CompetingReaches(w, lookup, newTip, maxDepth, k, branch);
      ChainMonotone(w.rules, w.blocks, k, |w.blocks| - 1);
      ChainMonotone(w.rules, [w.blocks[k]] + branch, 0, |branch|);
    }
  }

  /** The only walk that reaches the window is the competing branch. */
  lemma CompetitorIsWalk(w: Window, lookup: Lookup, newTip: BlockRef, maxDepth: nat, d: seq<BlockRef>)
    requires Valid(w) && Reaches(w, lookup, newTip, maxDepth, d)
    requires forall e :: Reaches(w, lookup, newTip, maxDepth, e) ==> e == d
    ensures forall k: nat, branch: seq<BlockRef> :: Competes(w, lookup, newTip, maxDepth, k, branch) ==>
      k == Position(w.blocks, d[|d| - 1].parentHash.value) && branch == ReverseBlocks(d)
  {
    forall k: nat, branch: seq<BlockRef> | Competes(w, lookup, newTip, maxDepth, k, branch)
      ensures k == Position(w.blocks, d[|d| - 1].parentHash.value) && branch == ReverseBlocks(d)
    {
      CompetingReaches(w, lookup, newTip, maxDepth, k, branch);
      ReversedTwice(branch);
    }
  }

  /** A walk that has hit the window cannot be extended. */
  lemma StopsHere(w: Window, lookup: Lookup, newTip: BlockRef, maxDepth: nat, d: seq<BlockRef>)
    requires d != [] && Complete(d[|d| - 1]) && Retained(w, d[|d| - 1].parentHash.value)
    requires forall e :: Reaches(w, lookup, newTip, maxDepth, e) ==> d <= e
    ensures forall e :: Reaches(w, lookup, newTip, maxDepth, e) ==> e == d
  {
    forall e | Reaches(w, lookup, newTip, maxDepth, e)
      ensures e == d
    {
      assert d <= e;
      assert |d| < |e| ==> Descends(w, lookup, |d| - 1, e[|d| - 1], e[|d|]);
    }
  }

  // ---- Applying a plan ----

  /** A located plan whose branch is a chain to its new tip passes validation. */
  lemma PlanValidates(w: Window, plan: ForkResolution)
    requires Valid(w) && LocateAncestor(w, plan).Ok?
    requires IsChain(w.rules, [plan.commonAncestor] + plan.newBranch)
    requires ([plan.commonAncestor] + plan.newBranch)[|plan.newBranch|] == plan.newTip
    ensures ValidateReplacement(w, plan).None?
  {
    BranchErrorExact(w.rules, plan.commonAncestor, plan.newBranch, plan.newTip);
    ChainMonotone(w.rules, w.blocks, 0, LocateAncestor(w, plan).value);
  }

  /**
   * Applied to the window it was computed for, a plan fails only by the block
   * or byte budget. Otherwise the window becomes the old prefix through the
   * ancestor followed by the new branch, a valid window ending at the new tip.
   */
  lemma PlanApplies(w: Window, newTip: BlockRef, plan: ForkResolution, maxDepth: nat)
    requires Valid(w) && IsPlan(w, newTip, plan, maxDepth)
    ensures var k := LocateAncestor(w, plan).value;
      var n := k + 1 + |plan.newBranch|;
      && (Fits(w, n) ==> ApplyResolution(w, plan) == Ok(w.(blocks := w.blocks[..k + 1] + plan.newBranch)))
      && (n > w.limits.maxBlocks ==> ApplyResolution(w, plan) == Err(BlockBudget))
      && (n <= w.limits.maxBlocks && !Fits(w, n) ==> ApplyResolution(w, plan) == Err(ByteBudget))
      && (Fits(w, n) ==> Valid(ApplyResolution(w, plan).value))
      && (Fits(w, n) ==> ApplyResolution(w, plan).value.Tip() == Some(newTip))
  {
    PlanValidates(w, plan);
    if ApplyResolution(w, plan).Ok? {
      ApplyKeepsValid(w, plan);
    }
  }

  /** Located, validated and within budget, a plan is applied. */
  lemma AcceptedPlan(w: Window, plan: ForkResolution, k: nat)
    requires LocateAncestor(w, plan) == Ok(k) && ValidateReplacement(w, plan).None?
    requires Fits(w, k + 1 + |plan.newBranch|)
    ensures ApplyResolution(w, plan) == Ok(w.(blocks := w.blocks[..k + 1] + plan.newBranch))
  {
  }

  lemma ReversedPlanLocates(w: Window, plan: ForkResolution)
    requires Valid(w) && ApplyResolution(w, plan).Ok?
    ensures LocateAncestor(ApplyResolution(w, plan).value, plan.Reversed()) == LocateAncestor(w, plan)
  {
    var k := LocateAncestor(w, plan).value;
    var v := ApplyResolution(w, plan).value;
    ApplyKeepsValid(w, plan);
    assert v.blocks[k] == plan.commonAncestor;
    PositionIsFirst(w.blocks, plan.commonAncestor.HashOf().value, k);
    PositionIsFirst(v.blocks, plan.commonAncestor.HashOf().value, k);
    assert v.blocks[k + 1..] == plan.newBranch;
  }

  lemma ReversedPlanValidates(w: Window, plan: ForkResolution)
    requires Valid(w) && ApplyResolution(w, plan).Ok?
    ensures ValidateReplacement(ApplyResolution(w, plan).value, plan.Reversed()).None?
  {
    var k := LocateAncestor(w, plan).value;
    ApplyKeepsValid(w, plan);
    ReversedPlanLocates(w, plan);
    assert [plan.commonAncestor] + plan.oldBranch == w.blocks[k..];
    ChainSplit(w.rules, w.blocks, k);
    PlanValidates(ApplyResolution(w, plan).value, plan.Reversed());
  }

  /**
   * Undo: whatever plan a valid window accepted, applying it with branches and
   * tips exchanged restores the window exactly.
   */
  lemma ReversedPlanRestores(w: Window, plan: ForkResolution)
    requires Valid(w) && ApplyResolution(w, plan).Ok?
    ensures ApplyResolution(ApplyResolution(w, plan).value, plan.Reversed()) == Ok(w)
  {
    var k := LocateAncestor(w, plan).value;
    var v := ApplyResolution(w, plan).value;
    ReversedPlanLocates(w, plan);
    ReversedPlanValidates(w, plan);
    RestoredBlocks(w, plan);
    AcceptedPlan(v, plan.Reversed(), k);
  }

  /** The kept prefix followed by the abandoned branch is the original window. */
  lemma RestoredBlocks(w: Window, plan: ForkResolution)
    requires ApplyResolution(w, plan).Ok?
    ensures var k, v := LocateAncestor(w, plan).value, ApplyResolution(w, plan).value;
      k < |v.blocks| && v.blocks[..k + 1] + plan.oldBranch == w.blocks && v.(blocks := w.blocks) == w
  {
    var k, v := LocateAncestor(w, plan).value, ApplyResolution(w, plan).value;
    assert v.blocks[..k + 1] == w.blocks[..k + 1];
    assert w.blocks[..k + 1] + w.blocks[k + 1..] == w.blocks;
  }

  /**
   * The plan that leaves the tip in place applies if and only if no older
   * retained block has the tip's hash; otherwise it is rejected as stale.
   */
  lemma NoopPlanExact(w: Window)
    requires Valid(w) && w.blocks != []
    ensures var tip := w.Tip().value;
      ApplyResolution(w, NoopPlan(tip)) ==
        if Position(w.blocks, tip.HashOf().value) == |w.blocks| - 1 then Ok(w) else Err(StaleResolution)
  {
    var tip, n := w.Tip().value, |w.blocks|;
    var k := Position(w.blocks, tip.HashOf().value);
    PositionIsFirst(w.blocks, tip.HashOf().value, k);
    assert w.blocks[n - 1] == tip;
    ChainMonotone(w.rules, w.blocks, 0, n - 1);
    if k == n - 1 {
      assert w.blocks[k + 1..] == [];
      assert w.blocks[..k + 1] + [] == w.blocks;
    } else {
      assert w.blocks[k + 1..] != [];
    }
  }

  /** Two linked blocks with one hash: the plan that keeps the tip is refused. */
  lemma SharedHashRejectsNoop(w: Window, first: BlockRef, tip: BlockRef)
    requires first == BlockRef(ChainCursor(1, 1, 1, Some(7), None, None, None, None, Canonical), Some(0))
    requires tip == BlockRef(ChainCursor(1, 2, 2, Some(7), None, None, None, None, Canonical), Some(7))
    requires w == Window(Rules(1, Some(RUST_CEILING)), ForkModel.Limits(10, 10), [first, tip], None)
    ensures Valid(w) && ApplyResolution(w, NoopPlan(tip)) == Err(StaleResolution)
  {
    assert w.blocks[0] == first && w.blocks[1] == tip;
    NoopPlanExact(w);
  }

  /** A window in which a hash names one height, below the ceiling, never rejects that plan. */
  lemma DistinctHeightsAcceptNoop(w: Window)
    requires Valid(w) && w.blocks != []
    requires w.rules.ceiling.Some? ==> w.Tip().value.Number() < w.rules.ceiling.value
    requires forall i, j :: 0 <= i < j < |w.blocks| && w.blocks[i].HashOf() == w.blocks[j].HashOf() ==>
      w.blocks[i].Number() == w.blocks[j].Number()
    ensures ApplyResolution(w, NoopPlan(w.Tip().value)) == Ok(w)
  {
    NoopPlanExact(w);
    var n := |w.blocks|;
    var k := Position(w.blocks, w.Tip().value.HashOf().value);
    PositionIsFirst(w.blocks, w.Tip().value.HashOf().value, k);
    ChainMonotone(w.rules, w.blocks, k, n - 1);
    ChainConsecutive(w.rules, w.blocks, k);
    ChainConsecutive(w.rules, w.blocks, n - 1);
  }
}
