/**
 * The canonical header window as a value: every operation of
 * crates/lunarbase-source-evm/src/fork.rs as a function from a window to a new
 * window or an error. The Rust class and the TypeScript class are both proved
 * against these functions.
 */
module ForkModel {
  import opened Chain

  datatype ForkError =
    | InvalidIdentity
    | Disconnected
    | InvalidLimits
    | BlockBudget
    | ByteBudget
    | AncestorOutsideWindow
    | DepthExceeded
    | FinalizedConflict
    | StaleResolution
    | Source

  datatype Limits = Limits(maxBlocks: nat, maxBytes: nat)

  /**
   * What differs between the two implementations: the bytes charged per block
   * and whether heights saturate (`u64`) or are unbounded (`bigint`).
   */
  datatype Rules = Rules(charge: nat, ceiling: Option<nat>) {
    /** `saturating_add(1)`, or plain `+ 1` without a ceiling. */
    function Next(n: nat): nat {
      if ceiling == Some(n) then n else n + 1
    }
  }

  const RUST_CEILING: nat := 0xFFFF_FFFF_FFFF_FFFF

  datatype Window = Window(
    rules: Rules,
    limits: Limits,
    blocks: seq<BlockRef>,
    finalized: Option<BlockRef>)
  {
    function Tip(): Option<BlockRef> {
      if blocks == [] then None else Some(blocks[|blocks| - 1])
    }
  }

  datatype ForkResolution = ForkResolution(
    commonAncestor: BlockRef,
    oldTip: BlockRef,
    newTip: BlockRef,
    oldBranch: seq<BlockRef>,
    newBranch: seq<BlockRef>)
  {
    /** The plan that goes back: the two branches and the two tips change places. */
    function Reversed(): ForkResolution {
      ForkResolution(commonAncestor, newTip, oldTip, newBranch, oldBranch)
    }
  }

  // ---- Block identity and linkage ----

  predicate Complete(b: BlockRef) {
    && b.HashOf().Some?
    && b.parentHash.Some?
    && b.cursor.transactionIndex.None?
    && b.cursor.logIndex.None?
  }

  predicate SameChain(a: BlockRef, b: BlockRef) {
    a.cursor.chainId == b.cursor.chainId
  }

  predicate Links(rules: Rules, parent: BlockRef, child: BlockRef) {
    && SameChain(parent, child)
    && child.Number() == rules.Next(parent.Number())
    && child.parentHash == parent.HashOf()
  }

  /** Complete blocks, each the child of the one before it. */
  ghost predicate IsChain(rules: Rules, s: seq<BlockRef>) {
    && (forall i :: 0 <= i < |s| ==> Complete(s[i]))
    && (forall i, j :: 0 <= i < j < |s| && j == i + 1 ==> Links(rules, s[i], s[j]))
  }

  /** The part of a block that identifies it on its chain, whatever its commitment. */
  datatype Identity = Identity(chainId: nat, number: nat, execution: nat, hash: Option<Hash>, parent: Option<Hash>)

  function IdentityOf(b: BlockRef): Identity {
    Identity(b.cursor.chainId, b.Number(), b.cursor.executionBlockNumber, b.HashOf(), b.parentHash)
  }

  function Identities(s: seq<BlockRef>): seq<Identity> {
    seq(|s|, i requires 0 <= i < |s| => IdentityOf(s[i]))
  }

  /** Index of the first retained block with this hash, or the length if there is none. */
  function Position(s: seq<BlockRef>, hash: Hash): (k: nat)
    ensures k <= |s|
    ensures k < |s| ==> s[k].HashOf() == Some(hash)
  {
    if s == [] || s[0].HashOf() == Some(hash) then 0 else 1 + Position(s[1..], hash)
  }

  predicate FirstAt(s: seq<BlockRef>, hash: Hash, k: nat)
    requires k <= |s|
  {
    && (k < |s| ==> s[k].HashOf() == Some(hash))
    && forall i :: 0 <= i < k ==> s[i].HashOf() != Some(hash)
  }

  /** `Position` is the first match, and the first match is `Position`. */
  lemma {:induction false} PositionIsFirst(s: seq<BlockRef>, hash: Hash, k: nat)
    requires k <= |s|
    ensures FirstAt(s, hash, k) <==> k == Position(s, hash)
  {
    if s != [] && s[0].HashOf() != Some(hash) {
      var rest := s[1..];
      if k > 0 {
        assert forall i :: 1 <= i < |s| ==> s[i] == rest[i - 1];
        assert FirstAt(s, hash, k) <==> FirstAt(rest, hash, k - 1) by {
          if FirstAt(s, hash, k) {
            assert forall i :: 0 <= i < k - 1 ==> rest[i] == s[i + 1];
          }
        }
        PositionIsFirst(rest, hash, k - 1);
      }
    }
  }

  // ---- Window operations ----

  predicate ValidLimits(rules: Rules, limits: Limits) {
    0 < limits.maxBlocks && rules.charge <= limits.maxBytes
  }

  predicate Fits(w: Window, blocks: nat) {
    blocks <= w.limits.maxBlocks && blocks * w.rules.charge <= w.limits.maxBytes
  }

  /** The reachable windows: a linked chain inside both budgets with finality at its front. */
  ghost predicate Valid(w: Window) {
    && 0 < w.rules.charge
    && IsChain(w.rules, w.blocks)
    && Fits(w, |w.blocks|)
    && (w.finalized.Some? ==> w.blocks != [] && w.blocks[0] == w.finalized.value)
  }

  function Create(rules: Rules, limits: Limits): Result<Window, ForkError> {
    if ValidLimits(rules, limits) then Ok(Window(rules, limits, [], None)) else Err(InvalidLimits)
  }

  function Preflight(w: Window, blocks: nat): Option<ForkError> {
    if blocks > w.limits.maxBlocks then Some(BlockBudget)
    else if blocks * w.rules.charge > w.limits.maxBytes then Some(ByteBudget)
    else None
  }

  /** Appends one contiguous block; an exact duplicate of the tip changes nothing. */
  function PushHead(w: Window, b: BlockRef): Result<Window, ForkError> {
    if !Complete(b) then Err(InvalidIdentity)
    else if w.blocks != [] && !SameChain(w.Tip().value, b) then Err(InvalidIdentity)
    else if w.Tip() == Some(b) then Ok(w)
    else if w.blocks != [] && !Links(w.rules, w.Tip().value, b) then Err(Disconnected)
    else match Preflight(w, |w.blocks| + 1)
      case Some(e) => Err(e)
      case None => Ok(w.(blocks := w.blocks + [b]))
  }

  /** Replaces the tip by a block of the same height and parent above finality. */
  function ReplaceTip(w: Window, b: BlockRef): Result<Window, ForkError> {
    if !Complete(b) then Err(InvalidIdentity)
    else if w.blocks == [] then Err(Disconnected)
    else
      var tip := w.Tip().value;
      if !SameChain(tip, b) then Err(InvalidIdentity)
      else if w.finalized.Some? && w.finalized.value.Number() >= b.Number() then Err(FinalizedConflict)
      else if tip.Number() != b.Number() || tip.parentHash != b.parentHash then Err(Disconnected)
      else Ok(w.(blocks := w.blocks[|w.blocks| - 1 := b]))
  }

  /** The failure of `advance_finalized`, or the index at which the window is cut. */
  function FinalizeAt(w: Window, b: BlockRef): (r: Result<nat, ForkError>)
    ensures r.Ok? ==> r.value < |w.blocks| && IdentityOf(w.blocks[r.value]) == IdentityOf(b)
  {
    if !Complete(b) || !b.cursor.commitment.Finalized? then Err(InvalidIdentity)
    else if w.finalized.Some? && !SameChain(w.finalized.value, b) then Err(InvalidIdentity)
    else if w.finalized.Some?
         && (b.Number() < w.finalized.value.Number()
             || (b.Number() == w.finalized.value.Number() && b.HashOf() != w.finalized.value.HashOf()))
    then Err(FinalizedConflict)
    else
      var k := Position(w.blocks, b.HashOf().value);
      if k == |w.blocks| then Err(AncestorOutsideWindow)
      else if IdentityOf(w.blocks[k]) != IdentityOf(b) then Err(InvalidIdentity)
      else Ok(k)
  }

  /** Moves finality to a retained block and drops everything older. */
  function AdvanceFinalized(w: Window, b: BlockRef): Result<Window, ForkError> {
    match FinalizeAt(w, b)
    case Err(e) => Err(e)
    case Ok(k) => Ok(w.(blocks := [b] + w.blocks[k + 1..], finalized := Some(b)))
  }

  /** First error of a replacement branch hanging from `parent`, if any. */
  function BranchError(rules: Rules, parent: BlockRef, branch: seq<BlockRef>, newTip: BlockRef): Option<ForkError>
    decreases |branch|
  {
    if branch == [] then (if parent == newTip then None else Some(StaleResolution))
    else if !Complete(branch[0]) || !SameChain(parent, branch[0]) then Some(InvalidIdentity)
    else if !Links(rules, parent, branch[0]) then Some(Disconnected)
    else BranchError(rules, branch[0], branch[1..], newTip)
  }

  /** Failure of a plan that no longer describes the window, or the ancestor's index. */
  function LocateAncestor(w: Window, r: ForkResolution): (k: Result<nat, ForkError>)
    ensures k.Ok? ==> k.value < |w.blocks| && w.blocks[k.value] == r.commonAncestor
  {
    if w.Tip() != Some(r.oldTip) then Err(StaleResolution)
    else if r.commonAncestor.HashOf().None? then Err(InvalidIdentity)
    else
      var k := Position(w.blocks, r.commonAncestor.HashOf().value);
      if k == |w.blocks| || w.blocks[k] != r.commonAncestor || w.blocks[k + 1..] != r.oldBranch
      then Err(StaleResolution)
      else Ok(k)
  }

  predicate CrossesFinality(w: Window, ancestor: BlockRef) {
    w.finalized.Some? && ancestor.Number() < w.finalized.value.Number()
  }

  function ValidateReplacement(w: Window, r: ForkResolution): Option<ForkError> {
    if CrossesFinality(w, r.commonAncestor) then Some(FinalizedConflict)
    else BranchError(w.rules, r.commonAncestor, r.newBranch, r.newTip)
  }

  /** Switches to the replacement branch of a plan. */
  function ApplyResolution(w: Window, r: ForkResolution): Result<Window, ForkError> {
    match LocateAncestor(w, r)
    case Err(e) => Err(e)
    case Ok(k) =>
      if ValidateReplacement(w, r).Some? then Err(ValidateReplacement(w, r).value)
      else match Preflight(w, k + 1 + |r.newBranch|)
        case Some(e) => Err(e)
        case None => Ok(w.(blocks := w.blocks[..k + 1] + r.newBranch))
  }

  // ---- Facts about chains ----

  lemma ChainSplit(rules: Rules, s: seq<BlockRef>, k: nat)
    requires IsChain(rules, s) && k <= |s|
    ensures IsChain(rules, s[..k]) && IsChain(rules, s[k..])
  {
  }

  lemma ChainConcat(rules: Rules, a: seq<BlockRef>, b: seq<BlockRef>)
    requires IsChain(rules, a) && IsChain(rules, b)
    requires a != [] && b != [] ==> Links(rules, a[|a| - 1], b[0])
    ensures IsChain(rules, a + b)
  {
  }

  /** Replacing one block by another with the same identity keeps a chain linked. */
  lemma ChainReplace(rules: Rules, s: seq<BlockRef>, k: nat, b: BlockRef)
    requires IsChain(rules, s) && k < |s| && Complete(b)
    requires IdentityOf(b) == IdentityOf(s[k])
    ensures IsChain(rules, s[k := b])
  {
  }

  /** Cutting a chain after a block and hanging a linked branch from that block. */
  lemma ChainSplice(rules: Rules, s: seq<BlockRef>, k: nat, branch: seq<BlockRef>)
    requires IsChain(rules, s) && k < |s| && IsChain(rules, [s[k]] + branch)
    ensures IsChain(rules, s[..k + 1] + branch)
  {
    var tail := [s[k]] + branch;
    ChainSplit(rules, tail, 1);
    ChainSplit(rules, s, k + 1);
    assert tail[1..] == branch;
    assert branch != [] ==> Links(rules, tail[0], tail[1]);
    ChainConcat(rules, s[..k + 1], branch);
  }

  /** Heights never decrease along a chain. */
  lemma {:induction false} ChainMonotone(rules: Rules, s: seq<BlockRef>, i: nat, j: nat)
    requires IsChain(rules, s) && i <= j < |s|
    ensures s[i].Number() <= s[j].Number()
    ensures SameChain(s[i], s[j])
    decreases j - i
  {
    if i < j {
      ChainMonotone(rules, s, i, j - 1);
      assert Links(rules, s[j - 1], s[j]);
    }
  }

  /** Below the ceiling, heights are consecutive integers. */
  lemma {:induction false} ChainConsecutive(rules: Rules, s: seq<BlockRef>, i: nat)
    requires IsChain(rules, s) && i < |s|
    requires rules.ceiling.Some? ==> s[i].Number() < rules.ceiling.value
    ensures s[i].Number() == s[0].Number() + i
  {
    if i > 0 {
      assert Links(rules, s[i - 1], s[i]);
      ChainConsecutive(rules, s, i - 1);
    }
  }

  /** A branch is accepted exactly when it is a linked chain from the ancestor to the new tip. */
  lemma {:induction false} BranchErrorExact(rules: Rules, parent: BlockRef, branch: seq<BlockRef>, newTip: BlockRef)
    requires Complete(parent)
    ensures BranchError(rules, parent, branch, newTip).None?
       <==> IsChain(rules, [parent] + branch) && ([parent] + branch)[|branch|] == newTip
    decreases |branch|
  {
    var s := [parent] + branch;
    if branch != [] {
      assert s[1] == branch[0];
      var t := [branch[0]] + branch[1..];
      assert t == branch == s[1..];
      assert IsChain(rules, s) ==> Complete(s[1]) && Links(rules, s[0], s[1]);
      if Complete(branch[0]) && Links(rules, parent, branch[0]) {
        BranchErrorExact(rules, branch[0], branch[1..], newTip);
        if IsChain(rules, t) {
          assert s == [parent] + t;
          ChainConcat(rules, [parent], t);
        }
        if IsChain(rules, s) { ChainSplit(rules, s, 1); }
      }
    }
  }

  // ---- When an operation is accepted ----

  /** A block is appended exactly when it is the tip again, or a complete child of the tip within both budgets. */
  lemma PushHeadExact(w: Window, b: BlockRef)
    requires Valid(w)
    ensures PushHead(w, b).Ok? <==>
      || w.Tip() == Some(b)
      || (Complete(b) && (w.blocks == [] || Links(w.rules, w.Tip().value, b)) && Fits(w, |w.blocks| + 1))
    ensures PushHead(w, b).Ok? ==>
      PushHead(w, b).value == if w.Tip() == Some(b) then w else w.(blocks := w.blocks + [b])
  {
  }

  /**
   * The tip is replaced exactly by a complete block above finality that hangs
   * where the tip does; nothing else of the window changes.
   */
  lemma ReplaceTipExact(w: Window, b: BlockRef)
    requires Valid(w)
    ensures var n := |w.blocks|;
      && (ReplaceTip(w, b).Ok? <==>
            && Complete(b) && n > 0 && (w.finalized.Some? ==> w.finalized.value.Number() < b.Number())
            && if n > 1 then Links(w.rules, w.blocks[n - 2], b)
               else SameChain(w.blocks[0], b) && b.Number() == w.blocks[0].Number()
                    && b.parentHash == w.blocks[0].parentHash)
      && (ReplaceTip(w, b).Ok? ==> ReplaceTip(w, b).value == w.(blocks := w.blocks[..n - 1] + [b]))
  {
    var n := |w.blocks|;
    if n > 1 {
      assert Links(w.rules, w.blocks[n - 2], w.blocks[n - 1]);
    }
    if n > 0 {
      assert w.blocks[n - 1 := b] == w.blocks[..n - 1] + [b];
    }
  }

  /**
   * Finality moves exactly to a complete finalized block with the identity of
   * the retained block its hash names first, unless another hash is already
   * finalized at that height.
   */
  lemma AdvanceExact(w: Window, b: BlockRef)
    requires Valid(w)
    ensures AdvanceFinalized(w, b).Ok? <==>
      && Complete(b) && b.cursor.commitment == Finalized
      && (exists k :: 0 <= k < |w.blocks| && FirstAt(w.blocks, b.HashOf().value, k)
            && IdentityOf(w.blocks[k]) == IdentityOf(b))
      && (w.finalized.Some? && w.finalized.value.Number() == b.Number() ==>
            w.finalized.value.HashOf() == b.HashOf())
  {
    if Complete(b) {
      var k := Position(w.blocks, b.HashOf().value);
      PositionIsFirst(w.blocks, b.HashOf().value, k);
      if j :| 0 <= j < |w.blocks| && FirstAt(w.blocks, b.HashOf().value, j) {
        PositionIsFirst(w.blocks, b.HashOf().value, j);
      }
      if k < |w.blocks| {
        ChainMonotone(w.rules, w.blocks, 0, k);
      }
    }
  }

  /** An accepted plan leaves a valid window that ends at the new tip and keeps its front. */
  lemma ApplyKeepsValid(w: Window, r: ForkResolution)
    requires Valid(w) && ApplyResolution(w, r).Ok?
    ensures var v := ApplyResolution(w, r).value;
      Valid(v) && v.Tip() == Some(r.newTip) && v.blocks[0] == w.blocks[0]
  {
    var k := LocateAncestor(w, r).value;
    var v := ApplyResolution(w, r).value;
    BranchErrorExact(w.rules, r.commonAncestor, r.newBranch, r.newTip);
    ChainSplice(w.rules, w.blocks, k, r.newBranch);
    assert v.blocks[k] == r.commonAncestor;
    assert r.newBranch != [] ==> v.blocks[|v.blocks| - 1] == ([r.commonAncestor] + r.newBranch)[|r.newBranch|];
  }

  /** Moving finality keeps a valid window; only the front block is exchanged, for one of equal identity. */
  lemma AdvanceKeepsValid(w: Window, b: BlockRef)
    requires Valid(w) && AdvanceFinalized(w, b).Ok?
    ensures var v, k := AdvanceFinalized(w, b).value, FinalizeAt(w, b).value;
      Valid(v) && v.blocks == w.blocks[k := b][k..]
  {
    var v, k := AdvanceFinalized(w, b).value, FinalizeAt(w, b).value;
    ChainReplace(w.rules, w.blocks, k, b);
    ChainSplit(w.rules, w.blocks[k := b], k);
    assert v.blocks == w.blocks[k := b][k..];
    assert |v.blocks| * w.rules.charge <= |w.blocks| * w.rules.charge;
  }
}
