/** Tokens committed to a window that changed since they were prepared. */
module ForkTokens {
  import opened Chain
  import opened ForkModel
  import opened ForkRuns

  /** No operation changes the height at which the history begins. */
  lemma FrontHeightKept(t: Tracked, op: Operation)
    requires Invariant(t) && History(t) != []
    ensures var h := History(Step(t, op)); h != [] && h[0].Number() == History(t)[0].Number()
  {
    if Outcome(t.window, op).Ok? {
      match op
      case Push(b) => PushKeeps(t, b);
      case Replace(b) => ReplaceKeeps(t, b);
      case Finalize(b) =>
        FinalizeKeeps(t, b);
        assert Identities(History(Step(t, op)))[0] == Identities(History(t))[0];
      case Correct(r) => CorrectKeeps(t, r);
    }
  }

  lemma {:induction false} FrontHeightKeptOverRun(t: Tracked, ops: seq<Operation>)
    requires Invariant(t) && History(t) != []
    ensures var h := History(Run(t, ops)); h != [] && h[0].Number() == History(t)[0].Number()
    decreases |ops|
  {
    if ops != [] {
      FrontHeightKept(t, ops[0]);
      StepKeeps(t, ops[0]);
      FrontHeightKeptOverRun(Step(t, ops[0]), ops[1..]);
    }
  }

  /** Two histories that begin and end at the same heights below the ceiling are equally long. */
  lemma SameHeightsSameLength(rules: Rules, a: seq<BlockRef>, b: seq<BlockRef>)
    requires IsChain(rules, a) && IsChain(rules, b) && a != [] && b != []
    requires a[0].Number() == b[0].Number() && a[|a| - 1] == b[|b| - 1]
    requires rules.ceiling.Some? ==> a[|a| - 1].Number() < rules.ceiling.value
    ensures |a| == |b|
  {
    ChainConsecutive(rules, a, |a| - 1);
    ChainConsecutive(rules, b, |b| - 1);
  }

  lemma FreshHistory(w: Window)
    requires Valid(w)
    ensures Invariant(Tracked(w, [])) && History(Tracked(w, [])) == w.blocks
  {
    assert History(Tracked(w, [])) == w.blocks;
  }

  lemma SameTipSameLength(w: Window, u: Tracked)
    requires Valid(w) && w.blocks != [] && Invariant(u) && u.window.rules == w.rules && u.window.Tip() == w.Tip()
    requires w.rules.ceiling.Some? ==> w.Tip().value.Number() < w.rules.ceiling.value
    requires History(u) != [] && History(u)[0].Number() == w.blocks[0].Number()
    ensures |w.blocks| == |u.window.blocks| + |u.pruned|
  {
    assert History(u)[|History(u)| - 1] == u.window.Tip().value;
    SameHeightsSameLength(w.rules, w.blocks, History(u));
  }

  /** With the tip in place, what the window lost is what was pruned. */
  lemma LostIsPruned(w: Window, ops: seq<Operation>)
    requires Valid(w) && Run(Tracked(w, []), ops).window.Tip() == w.Tip()
    requires w.Tip().Some? && w.rules.ceiling.Some? ==> w.Tip().value.Number() < w.rules.ceiling.value
    ensures |w.blocks| == |Run(Tracked(w, []), ops).window.blocks| + |Run(Tracked(w, []), ops).pruned|
  {
    var t := Tracked(w, []);
    var u := Run(t, ops);
    FreshHistory(w);
    RunKeeps(t, ops);
    if w.blocks != [] {
      FrontHeightKeptOverRun(t, ops);
      SameTipSameLength(w, u);
    }
  }

  /**
   * A token prepared for a window and committed after any operations that leave
   * the tip in place: the tip test passes, yet the count it stores exceeds the
   * true one by a charge per block pruned in between. Below the ceiling it is
   * right if and only if nothing was pruned.
   */
  lemma StaleTokenOvercharges(w: Window, b: BlockRef, ops: seq<Operation>)
    requires Valid(w) && PushHead(w, b).Ok? && w.Tip() != Some(b)
    requires Run(Tracked(w, []), ops).window.Tip() == w.Tip()
    requires w.Tip().Some? && w.rules.ceiling.Some? ==> w.Tip().value.Number() < w.rules.ceiling.value
    ensures var u := Run(Tracked(w, []), ops);
      var stored, right := (|w.blocks| + 1) * w.rules.charge, (|u.window.blocks| + 1) * w.rules.charge;
      && stored == right + |u.pruned| * w.rules.charge
      && (stored == right <==> u.pruned == [])
  {
    LostIsPruned(w, ops);
    var u := Run(Tracked(w, []), ops);
    Distribute(|u.window.blocks| + 1, |u.pruned|, w.rules.charge);
  }

  lemma Distribute(a: nat, b: nat, c: nat)
    ensures (a + b) * c == a * c + b * c
    ensures 0 < c ==> (b * c == 0 <==> b == 0)
  {
  }

  // ---- An example ----

  function Header(n: nat, c: Commitment): BlockRef
    requires 0 < n
  {
    BlockRef(ChainCursor(1, n, n, Some(n), None, None, None, None, c), Some(n - 1))
  }

  function Canon(n: nat): BlockRef
    requires 0 < n
  {
    Header(n, Canonical)
  }

  /**
   * Three appends, a token for the fourth block, and finality at the second: the
   * tip has not moved, but the token counts four blocks where three are left.
   */
  lemma StaleTokenExample(empty: Window)
    requires empty == Window(Rules(1, Some(RUST_CEILING)), ForkModel.Limits(10, 10), [], None)
    ensures var w := Run(Tracked(empty, []), [Push(Canon(1)), Push(Canon(2)), Push(Canon(3))]).window;
      var u := Run(Tracked(w, []), [Finalize(Header(2, Finalized))]).window;
      && PushHead(w, Canon(4)).Ok? && u.Tip() == w.Tip()
      && (|w.blocks| + 1) * w.rules.charge == 4 && (|u.blocks| + 1) * u.rules.charge == 3
  {
    var ops := [Push(Canon(1)), Push(Canon(2)), Push(Canon(3))];
    var t0 := Tracked(empty, []);
    var t1 := Step(t0, ops[0]);
    var t2 := Step(t1, ops[1]);
    var t3 := Step(t2, ops[2]);
    assert t3.window.blocks == [Canon(1), Canon(2), Canon(3)];
    assert ops[1..] == [ops[1], ops[2]] && ops[2..] == [ops[2]];
    assert Run(t0, ops) == Run(t1, ops[1..]) == Run(t2, ops[1..][1..]) == Run(t3, []);
    var w := t3.window;
    var mark := Header(2, Finalized);
    PositionIsFirst(w.blocks, 2, 1);
    assert FinalizeAt(w, mark) == Ok(1);
    assert Step(Tracked(w, []), Finalize(mark)).window.blocks == [mark, Canon(3)];
    assert Run(Tracked(w, []), [Finalize(mark)]) == Run(Step(Tracked(w, []), Finalize(mark)), []);
  }
}
