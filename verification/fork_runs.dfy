/**
 * Finality over whole runs of window operations: what was finalized stays, in
 * order, and everything later descends from it.
 */
module ForkRuns {
  import opened Chain
  import opened ForkModel

  datatype Operation =
    | Push(head: BlockRef)
    | Replace(tip: BlockRef)
    | Finalize(watermark: BlockRef)
    | Correct(plan: ForkResolution)

  /** A window together with the blocks finality has dropped from it so far. */
  datatype Tracked = Tracked(window: Window, pruned: seq<BlockRef>)

  function Outcome(w: Window, op: Operation): Result<Window, ForkError> {
    match op
    case Push(b) => PushHead(w, b)
    case Replace(b) => ReplaceTip(w, b)
    case Finalize(b) => AdvanceFinalized(w, b)
    case Correct(r) => ApplyResolution(w, r)
  }

  /** One operation; a rejected one leaves the window as it was. */
  function Step(t: Tracked, op: Operation): Tracked {
    match Outcome(t.window, op)
    case Err(_) => t
    case Ok(w) =>
      if op.Finalize? then Tracked(w, t.pruned + t.window.blocks[..FinalizeAt(t.window, op.watermark).value])
      else Tracked(w, t.pruned)
  }

  function Run(t: Tracked, ops: seq<Operation>): Tracked
    decreases |ops|
  {
    if ops == [] then t else Run(Step(t, ops[0]), ops[1..])
  }

  /** Everything ever canonical below the tip: dropped blocks, then retained ones. */
  function History(t: Tracked): seq<BlockRef> {
    t.pruned + t.window.blocks
  }

  /** Identities at or below the finalized watermark. */
  function FinalizedHistory(t: Tracked): seq<Identity> {
    if t.window.finalized.None? then []
    else Identities(t.pruned) + [IdentityOf(t.window.finalized.value)]
  }

  ghost predicate Invariant(t: Tracked) {
    && Valid(t.window)
    && IsChain(t.window.rules, History(t))
    && (t.window.finalized.None? ==> t.pruned == [])
  }

  // ---- One step of each kind ----

  lemma FinalizedIsPrefix(u: Tracked)
    requires Invariant(u)
    ensures FinalizedHistory(u) <= Identities(History(u))
  {
    if u.window.finalized.Some? {
      assert FinalizedHistory(u) == Identities(History(u))[..|u.pruned| + 1];
    }
  }

  lemma PushKeeps(t: Tracked, b: BlockRef)
    requires Invariant(t) && PushHead(t.window, b).Ok?
    ensures Invariant(Step(t, Push(b)))
    ensures History(t) <= History(Step(t, Push(b)))
    ensures Step(t, Push(b)).window.finalized == t.window.finalized
  {
    var w, u := t.window, Step(t, Push(b));
    if u != t {
      assert History(u) == History(t) + [b];
      ChainConcat(w.rules, w.blocks, [b]);
      if w.blocks == [] {
        assert History(u) == [b];
      } else {
        assert History(t)[|History(t)| - 1] == w.Tip().value;
        ChainConcat(w.rules, History(t), [b]);
      }
    }
  }

  lemma ReplaceKeeps(t: Tracked, b: BlockRef)
    requires Invariant(t) && ReplaceTip(t.window, b).Ok?
    ensures var u := Step(t, Replace(b));
      && Invariant(u)
      && u.window.finalized == t.window.finalized
      && u.pruned == t.pruned
      && u.window.blocks == t.window.blocks[|t.window.blocks| - 1 := b]
      && (t.window.finalized.Some? ==> 1 < |t.window.blocks|)
  {
    var w, u := t.window, Step(t, Replace(b));
    var h, n := History(t), |History(t)|;
    assert h[n - 1] == w.Tip().value;
    assert History(u) == h[n - 1 := b];
    assert w.finalized.Some? ==> w.Tip().value != w.blocks[0];
  }

  lemma FinalizeKeeps(t: Tracked, b: BlockRef)
    requires Invariant(t) && AdvanceFinalized(t.window, b).Ok?
    ensures var u := Step(t, Finalize(b));
      && Invariant(u)
      && u.window.finalized == Some(b)
      && Identities(History(u)) == Identities(History(t))
      && t.pruned <= u.pruned
      && FinalizedHistory(t) <= FinalizedHistory(u)
  {
    var w, u := t.window, Step(t, Finalize(b));
    var k := FinalizeAt(w, b).value;
    var at := |t.pruned| + k;
    AdvanceKeepsValid(w, b);
    assert History(t)[at] == w.blocks[k];
    ChainReplace(w.rules, History(t), at, b);
    assert History(u) == History(t)[at := b];
    if w.finalized.Some? && k > 0 {
      assert u.pruned[|t.pruned|] == w.finalized.value;
    }
  }

  lemma CorrectKeeps(t: Tracked, r: ForkResolution)
    requires Invariant(t) && ApplyResolution(t.window, r).Ok?
    ensures var u := Step(t, Correct(r));
      && Invariant(u)
      && u.window.finalized == t.window.finalized
      && u.pruned == t.pruned
      && u.window.blocks[0] == t.window.blocks[0]
      && u.window.Tip() == Some(r.newTip)
  {
    var w, u := t.window, Step(t, Correct(r));
    var k := LocateAncestor(w, r).value;
    ApplyKeepsValid(w, r);
    BranchErrorExact(w.rules, r.commonAncestor, r.newBranch, r.newTip);
    assert History(t)[|t.pruned| + k] == w.blocks[k];
    ChainSplice(w.rules, History(t), |t.pruned| + k, r.newBranch);
    assert History(u) == History(t)[..|t.pruned| + k + 1] + r.newBranch;
  }

  /** Every operation keeps the invariant and only ever extends finalized history. */
  lemma StepKeeps(t: Tracked, op: Operation)
    requires Invariant(t)
    ensures Invariant(Step(t, op))
    ensures t.pruned <= Step(t, op).pruned
    ensures FinalizedHistory(t) <= FinalizedHistory(Step(t, op))
    ensures FinalizedHistory(t) <= Identities(History(Step(t, op)))
    ensures Step(t, op).window.rules == t.window.rules
  {
    var u := Step(t, op);
    if Outcome(t.window, op).Ok? {
      match op
      case Push(b) => PushKeeps(t, b);
      case Replace(b) => ReplaceKeeps(t, b);
      case Finalize(b) => FinalizeKeeps(t, b);
      case Correct(r) => CorrectKeeps(t, r);
    }
    FinalizedIsPrefix(u);
  }

  lemma {:induction false} RunKeeps(t: Tracked, ops: seq<Operation>)
    requires Invariant(t)
    ensures Invariant(Run(t, ops))
    ensures t.pruned <= Run(t, ops).pruned
    ensures FinalizedHistory(t) <= FinalizedHistory(Run(t, ops))
    ensures Run(t, ops).window.rules == t.window.rules
    decreases |ops|
  {
    if ops != [] {
      StepKeeps(t, ops[0]);
      RunKeeps(Step(t, ops[0]), ops[1..]);
    }
  }

  // ---- The theorem ----

  /**
   * Between any two moments of any run of any window: dropped and retained
   * blocks form one parent-linked chain, finalized history at the first moment
   * is a prefix of finalized history at the second, and so of everything
   * canonical then. No append, tip replacement or correction touches it.
   */
  lemma FinalizedHistoryIsAppendOnly(rules: Rules, limits: Limits, before: seq<Operation>, after: seq<Operation>)
    requires 0 < rules.charge && Create(rules, limits).Ok?
    ensures var t := Run(Tracked(Create(rules, limits).value, []), before);
      var u := Run(t, after);
      && IsChain(rules, History(u))
      && t.pruned <= u.pruned
      && FinalizedHistory(t) <= FinalizedHistory(u) <= Identities(History(u))
      && Fits(u.window, |u.window.blocks|)
      && (u.window.finalized.Some? ==> u.window.blocks != [] && u.window.blocks[0] == u.window.finalized.value)
  {
    var s := Tracked(Create(rules, limits).value, []);
    RunKeeps(s, before);
    RunKeeps(Run(s, before), after);
    FinalizedIsPrefix(Run(Run(s, before), after));
  }

  /**
   * The block finalized at height n by one watermark is the ancestor at height
   * n of every later tip, as long as heights stay below the ceiling: it is at
   * the same distance from the first block of the run.
   */
  lemma WatermarkIsAncestorOfLaterTips(rules: Rules, limits: Limits, before: seq<Operation>, after: seq<Operation>)
    requires 0 < rules.charge && Create(rules, limits).Ok?
    requires Run(Tracked(Create(rules, limits).value, []), before).window.finalized.Some?
    ensures var t := Run(Tracked(Create(rules, limits).value, []), before);
      var u := Run(t, after);
      var mark := t.window.finalized.value;
      && |t.pruned| < |History(u)|
      && IdentityOf(History(u)[|t.pruned|]) == IdentityOf(mark)
      && u.window.finalized.Some? && u.window.Tip().Some?
      && mark.Number() <= u.window.finalized.value.Number() <= u.window.Tip().value.Number()
      && (forall i :: 0 <= i < |History(u)|
            && (rules.ceiling.Some? ==> History(u)[i].Number() < rules.ceiling.value)
            ==> History(u)[i].Number() == History(u)[0].Number() + i)
  {
    var t := Run(Tracked(Create(rules, limits).value, []), before);
    var u := Run(t, after);
    FinalizedHistoryIsAppendOnly(rules, limits, before, after);
    RunKeeps(Tracked(Create(rules, limits).value, []), before);
    RunKeeps(t, after);
    var h := History(u);
    assert |FinalizedHistory(t)| <= |FinalizedHistory(u)|;
    assert FinalizedHistory(t)[|t.pruned|] == Identities(h)[|t.pruned|];
    assert h[|u.pruned|] == u.window.finalized.value;
    ChainMonotone(rules, h, |t.pruned|, |u.pruned|);
    ChainMonotone(rules, h, |u.pruned|, |h| - 1);
    forall i | 0 <= i < |h| && (rules.ceiling.Some? ==> h[i].Number() < rules.ceiling.value)
      ensures h[i].Number() == h[0].Number() + i
    {
      ChainConsecutive(rules, h, i);
    }
  }
}
