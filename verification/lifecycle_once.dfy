/**
 * How often a log reaches the consumer over every run and in every delivery
 * mode: applied at most once more often than it is taken back, except for a
 * proposal that lost its place while it executed.
 */
module LifecycleOnce {
  import opened Chain
  import opened Lifecycle
  import opened LifecycleBudget
  import opened LifecycleDelivery
  import opened LifecycleBranch
  import opened LifecycleVisibility

  // ---- Buffers only hold what was handed in ----

  lemma PublishHolds(cfg: Config, st: State, sequence: nat, id: Hash, c: Commitment, x: ExecutionLog)
    requires id in st.proposals
    ensures var u := Publish(cfg, st, sequence, id, c).value.0;
      Held(u, x) + (if cfg.emitRemovedLogs && !c.Finalized? then 0 else Copies(st.proposals[id].logs, x)) == Held(st, x)
  {
    var u := Publish(cfg, st, sequence, id, c).value.0;
    TotalUpdate(st.proposals, id, u.proposals[id], CopiesOf(x));
    assert u.proposals == st.proposals[id := u.proposals[id]];
  }

  lemma AdvanceHolds(st: State, sequence: nat, id: Hash, stage: Stage, x: ExecutionLog)
    requires id in st.proposals
    ensures Held(Advance(st, sequence, id, stage), x) == Held(st, x)
  {
    TotalUpdate(st.proposals, id, Advance(st, sequence, id, stage).proposals[id], CopiesOf(x));
  }

  lemma FinishHolds(st: State, sequence: nat, hash: Hash, x: ExecutionLog)
    requires st.active.Some? && st.active.value.id !in st.proposals
    ensures Held(Finish(st, sequence, hash), x) == Held(st, x)
  {
    var a := st.active.value;
    HashKeepsCopies(a.logs, hash, x);
    TotalInsert(st.proposals, a.id, Completed(a, sequence, hash), CopiesOf(x));
  }

  /** Of what a record holds and takes in, it keeps or releases no more. */
  ghost predicate Holds(cfg: Config, st: State, r: Record, u: State, x: ExecutionLog) {
    Held(u, x) + ReleasedIn(cfg, st, r, x) <= Held(st, x) + AcceptedIn(st, r, x)
  }

  lemma LogHolds(cfg: Config, st: State, r: Record, x: ExecutionLog)
    requires Process(cfg, st, r).Ok? && st.synchronized && r.input.Log?
    ensures Holds(cfg, st, r, Process(cfg, st, r).value.0, x)
  {
    var a := st.active.value;
    var log := BuildLog(a, r.sequence, r.input);
    assert (a.logs + [log])[..|a.logs|] == a.logs;
  }

  lemma EndHolds(cfg: Config, st: State, r: Record, x: ExecutionLog)
    requires Process(cfg, st, r).Ok? && st.synchronized && r.input.End?
    ensures Holds(cfg, st, r, Process(cfg, st, r).value.0, x)
  {
    assert st == st.(synchronized := true);
    var a, done := st.active.value, Finish(st, r.sequence, r.input.blockHash);
    FinishHolds(st, r.sequence, r.input.blockHash, x);
    HashKeepsCopies(a.logs, r.input.blockHash, x);
    if cfg.delivery.BlockOrderedDelivery? {
      PublishHolds(cfg, done, r.sequence, a.id, Canonical, x);
    }
  }

  lemma QcHolds(cfg: Config, st: State, r: Record, x: ExecutionLog)
    requires Process(cfg, st, r).Ok? && st.synchronized && r.input.Qc?
    ensures Holds(cfg, st, r, Process(cfg, st, r).value.0, x)
  {
    assert st == st.(synchronized := true);
    var id := r.input.id;
    if id in st.proposals && st.proposals[id].stage.Proposed? {
      AdvanceHolds(st, r.sequence, id, Voted, x);
      if !cfg.delivery.FinalizedDelivery? {
        PublishHolds(cfg, Advance(st, r.sequence, id, Voted), r.sequence, id, Canonical, x);
      }
    }
  }

  lemma FinalizeHolds(cfg: Config, st: State, r: Record, x: ExecutionLog)
    requires Invariant(cfg, st) && Process(cfg, st, r).Ok? && st.synchronized && r.input.Finalize?
    ensures Holds(cfg, st, r, Process(cfg, st, r).value.0, x)
  {
    FinalizeRecord(cfg, st, r);
    FinalizeReleases(cfg, st, r, x);
    if r.input.id in st.proposals {
      FinalizeStepHolds(cfg, st, r.sequence, r.input.id, r.input.blockNumber, x);
    }
  }

  lemma FinalizeReleases(cfg: Config, st: State, r: Record, x: ExecutionLog)
    requires st.synchronized && r.input.Finalize?
    ensures AcceptedIn(st, r, x) == 0
    ensures ReleasedIn(cfg, st, r, x)
      == if r.input.id in st.proposals then Copies(st.proposals[r.input.id].logs, x) else 0
    ensures r.input.id !in st.proposals ==>
      FinalizeStep(cfg, st, r.sequence, r.input.id, r.input.blockNumber) == Ok((st, []))
  {
  }

  lemma FinalizeStepHolds(cfg: Config, st: State, sequence: nat, id: Hash, h: nat, x: ExecutionLog)
    requires Invariant(cfg, st) && id in st.proposals && FinalizeStep(cfg, st, sequence, id, h).Ok?
    ensures Held(FinalizeStep(cfg, st, sequence, id, h).value.0, x) + Copies(st.proposals[id].logs, x) <= Held(st, x)
  {
    FinalizeUnfolds(cfg, st, sequence, id, h);
    EmptiedIs(cfg, st, sequence, id);
    FinalizePrunes(cfg, st, sequence, id, h);
    EmptiedTotals(st, Emptied(cfg, st, sequence, id), id, h, x);
  }

  lemma VerifyHolds(cfg: Config, st: State, r: Record, x: ExecutionLog)
    requires Process(cfg, st, r).Ok? && st.synchronized && r.input.Verify?
    ensures Holds(cfg, st, r, Process(cfg, st, r).value.0, x)
  {
    assert st == st.(synchronized := true);
    var h := r.input.blockNumber;
    if h in st.byHeight {
      TotalRemove(st.proposals, st.byHeight[h][0], CopiesOf(x));
    }
  }

  lemma OtherHolds(cfg: Config, st: State, r: Record, x: ExecutionLog)
    requires Process(cfg, st, r).Ok?
    requires st.synchronized ==>
      r.input.Start? || r.input.SkippedLog? || r.input.Ignore? || r.input.Fatal? || r.input.Reject?
    ensures Holds(cfg, st, r, Process(cfg, st, r).value.0, x)
  {
  }

  lemma ProcessHolds(cfg: Config, st: State, r: Record, x: ExecutionLog)
    requires Invariant(cfg, st) && Process(cfg, st, r).Ok?
    ensures Holds(cfg, st, r, Process(cfg, st, r).value.0, x)
  {
    if st.synchronized && r.input.Log? {
      LogHolds(cfg, st, r, x);
    } else if st.synchronized && r.input.End? {
      EndHolds(cfg, st, r, x);
    } else if st.synchronized && r.input.Qc? {
      QcHolds(cfg, st, r, x);
    } else if st.synchronized && r.input.Finalize? {
      FinalizeHolds(cfg, st, r, x);
    } else if st.synchronized && r.input.Verify? {
      VerifyHolds(cfg, st, r, x);
    } else {
      OtherHolds(cfg, st, r, x);
    }
  }

  // ---- Runs ----

  /** What a run did with the copies of one log. */
  datatype Tally = Tally(takenBack: nat, released: nat, orphaned: nat)

  ghost function TallyOf(cfg: Config, st: State, records: seq<Record>, x: ExecutionLog): Tally
    requires Run(cfg, st, records).Ok?
    decreases |records|
  {
    if records == [] then Tally(0, 0, 0)
    else
      var r := records[0];
      var rest := TallyOf(cfg, Process(cfg, st, r).value.0, records[1..], x);
      Tally(Copies(TakenBack(cfg, st, r), x) + rest.takenBack,
            ReleasedIn(cfg, st, r, x) + rest.released,
            OrphanedIn(cfg, st, r, x) + rest.orphaned)
  }

  /** Names are used once: in realtime no proposal starts under the name of one that is still retained. */
  predicate FreshNames(cfg: Config, st: State, records: seq<Record>)
    requires Run(cfg, st, records).Ok?
    decreases |records|
  {
    records == []
    || ((cfg.delivery.RealtimeDelivery? ==> FreshStart(st, records[0]))
        && FreshNames(cfg, Process(cfg, st, records[0]).value.0, records[1..]))
  }

  /** In realtime every proposal that ends is still the published one at its height. */
  predicate EndsInPlace(cfg: Config, st: State, records: seq<Record>)
    requires Run(cfg, st, records).Ok?
    decreases |records|
  {
    records == []
    || (EndsPublished(cfg, st, records[0])
        && EndsInPlace(cfg, Process(cfg, st, records[0]).value.0, records[1..]))
  }

  /** A fresh start leaves the executing proposal's name unused, and nothing else takes it. */
  lemma FreshStays(cfg: Config, st: State, r: Record)
    requires Invariant(cfg, st) && FreshActive(st) && FreshStart(st, r) && Process(cfg, st, r).Ok?
    ensures FreshActive(Process(cfg, st, r).value.0)
  {
    if st.synchronized && r.input.Finalize? && r.input.id in st.proposals {
      FinalizeRecord(cfg, st, r);
      FinalizePrunes(cfg, st, r.sequence, r.input.id, r.input.blockNumber);
    } else if !r.input.Start? && !r.input.End? {
      NamesKept(cfg, st, r);
    }
  }

  lemma NamesKept(cfg: Config, st: State, r: Record)
    requires Process(cfg, st, r).Ok? && !r.input.Start? && !r.input.End?
    requires st.synchronized && r.input.Finalize? ==> r.input.id !in st.proposals
    ensures var u := Process(cfg, st, r).value.0;
      && u.proposals.Keys <= st.proposals.Keys
      && (u.active.Some? ==> st.active.Some? && u.active.value.id == st.active.value.id)
  {
  }

  lemma {:induction false} RunBalances(cfg: Config, st: State, records: seq<Record>, x: ExecutionLog)
    requires Invariant(cfg, st) && Coherent(cfg, st) && Run(cfg, st, records).Ok?
    ensures var t, e := TallyOf(cfg, st, records, x), Run(cfg, st, records).value;
      && Applied(e.1, x) + Visible(cfg, st, x) <= t.takenBack + Visible(cfg, e.0, x) + t.released + t.orphaned
      && Held(e.0, x) + t.released <= Held(st, x) + Accepted(cfg, st, records, x)
    decreases |records|
  {
    if records != [] {
      var first := Process(cfg, st, records[0]).value;
      ProcessBalances(cfg, st, records[0], x);
      ProcessHolds(cfg, st, records[0], x);
      ProcessKeeps(cfg, st, records[0]);
      ProcessCoherent(cfg, st, records[0]);
      RunBalances(cfg, first.0, records[1..], x);
      AppliedConcat(first.1, Run(cfg, first.0, records[1..]).value.1, x);
    }
  }

  lemma {:induction false} FreshRunBalances(cfg: Config, st: State, records: seq<Record>, x: ExecutionLog)
    requires Invariant(cfg, st) && Coherent(cfg, st) && Run(cfg, st, records).Ok? && FreshNames(cfg, st, records)
    requires cfg.delivery.RealtimeDelivery? ==> FreshActive(st)
    ensures var t, e := TallyOf(cfg, st, records, x), Run(cfg, st, records).value;
      Applied(e.1, x) + Visible(cfg, st, x) == t.takenBack + Visible(cfg, e.0, x) + t.released + t.orphaned
    decreases |records|
  {
    if records != [] {
      var first := Process(cfg, st, records[0]).value;
      ProcessBalances(cfg, st, records[0], x);
      ProcessKeeps(cfg, st, records[0]);
      ProcessCoherent(cfg, st, records[0]);
      if cfg.delivery.RealtimeDelivery? {
        FreshStays(cfg, st, records[0]);
      }
      FreshRunBalances(cfg, first.0, records[1..], x);
      AppliedConcat(first.1, Run(cfg, first.0, records[1..]).value.1, x);
    }
  }

  lemma {:induction false} NothingOrphaned(cfg: Config, st: State, records: seq<Record>, x: ExecutionLog)
    requires Run(cfg, st, records).Ok? && EndsInPlace(cfg, st, records)
    ensures TallyOf(cfg, st, records, x).orphaned == 0
    decreases |records|
  {
    if records != [] {
      NothingOrphaned(cfg, Process(cfg, st, records[0]).value.0, records[1..], x);
    }
  }

  /** A log is orphaned at most as often as it is handed in. */
  lemma OrphansLeave(cfg: Config, st: State, r: Record, x: ExecutionLog)
    requires Invariant(cfg, st) && Process(cfg, st, r).Ok?
    ensures ActiveSize(Process(cfg, st, r).value.0.active, CopiesOf(x)) + OrphanedIn(cfg, st, r, x)
      <= ActiveSize(st.active, CopiesOf(x)) + AcceptedIn(st, r, x)
  {
    if r.input.Start? || r.input.Log? || r.input.SkippedLog? || r.input.End? {
      ExecutionActive(cfg, st, r, x);
    } else {
      ConsensusActive(cfg, st, r);
    }
  }

  lemma ExecutionActive(cfg: Config, st: State, r: Record, x: ExecutionLog)
    requires Process(cfg, st, r).Ok? && (r.input.Start? || r.input.Log? || r.input.SkippedLog? || r.input.End?)
    ensures ActiveSize(Process(cfg, st, r).value.0.active, CopiesOf(x)) + OrphanedIn(cfg, st, r, x)
      <= ActiveSize(st.active, CopiesOf(x)) + AcceptedIn(st, r, x)
  {
    if st.synchronized && r.input.Log? {
      var a := st.active.value;
      var log := BuildLog(a, r.sequence, r.input);
      assert (a.logs + [log])[..|a.logs|] == a.logs;
    }
  }

  /** Consensus records leave the executing proposal alone. */
  lemma ConsensusActive(cfg: Config, st: State, r: Record)
    requires Invariant(cfg, st) && Process(cfg, st, r).Ok?
    requires !r.input.Start? && !r.input.Log? && !r.input.SkippedLog? && !r.input.End?
    ensures Process(cfg, st, r).value.0.active == st.active
  {
    if st.synchronized && r.input.Finalize? {
      FinalizeRecord(cfg, st, r);
      if r.input.id in st.proposals {
        FinalizePrunes(cfg, st, r.sequence, r.input.id, r.input.blockNumber);
      }
    }
  }

  lemma {:induction false} OrphanedWasAccepted(cfg: Config, st: State, records: seq<Record>, x: ExecutionLog)
    requires Invariant(cfg, st) && Run(cfg, st, records).Ok?
    ensures TallyOf(cfg, st, records, x).orphaned <= ActiveSize(st.active, CopiesOf(x)) + Accepted(cfg, st, records, x)
    decreases |records|
  {
    if records != [] {
      OrphansLeave(cfg, st, records[0], x);
      ProcessKeeps(cfg, st, records[0]);
      OrphanedWasAccepted(cfg, Process(cfg, st, records[0]).value.0, records[1..], x);
    }
  }

  lemma InitiallyCoherent(cfg: Config, st: State, x: ExecutionLog)
    requires Initial(st)
    ensures Invariant(cfg, st) && Coherent(cfg, st) && Visible(cfg, st, x) == 0 && Held(st, x) == 0 && FreshActive(st)
  {
    assert ShownOf(st.proposals, st.published) == map[];
  }

  /**
   * Where every applied copy of a log is, over every run and in every delivery
   * mode: it was taken back, is visible in a buffer, was released from one, or
   * was orphaned when its proposal ended out of place. Of the copies handed in
   * no more are visible or released.
   */
  lemma AppliedIsAccountedFor(cfg: Config, st: State, records: seq<Record>, x: ExecutionLog)
    requires Initial(st) && Run(cfg, st, records).Ok?
    ensures var t, e := TallyOf(cfg, st, records, x), Run(cfg, st, records).value;
      && Applied(e.1, x) <= t.takenBack + Visible(cfg, e.0, x) + t.released + t.orphaned
      && (FreshNames(cfg, st, records) ==>
            Applied(e.1, x) == t.takenBack + Visible(cfg, e.0, x) + t.released + t.orphaned)
      && Visible(cfg, e.0, x) + t.released <= Accepted(cfg, st, records, x)
  {
    InitiallyCoherent(cfg, st, x);
    RunBalances(cfg, st, records, x);
    VisibleIsHeld(cfg, Run(cfg, st, records).value.0, x);
    if FreshNames(cfg, st, records) {
      FreshRunBalances(cfg, st, records, x);
    }
  }

  /**
   * With increasing sequences a log is applied at most once more often than it
   * is taken back, in every run in which realtime proposals end in place; with
   * names used once it is never taken back more often than applied.
   */
  lemma AppliedAtMostOnceMore(cfg: Config, st: State, records: seq<Record>, x: ExecutionLog)
    requires Initial(st) && Run(cfg, st, records).Ok? && Increasing(records)
    ensures var t, applied := TallyOf(cfg, st, records, x), Applied(Run(cfg, st, records).value.1, x);
      && (EndsInPlace(cfg, st, records) ==> applied <= t.takenBack + 1)
      && (FreshNames(cfg, st, records) ==> t.takenBack <= applied)
  {
    AppliedIsAccountedFor(cfg, st, records, x);
    AcceptedOnce(cfg, st, records, x);
    if EndsInPlace(cfg, st, records) {
      NothingOrphaned(cfg, st, records, x);
    }
  }

  /** It is applied more often than that if and only if it was orphaned and is visible or released all the same. */
  lemma AppliedTwiceExactly(cfg: Config, st: State, records: seq<Record>, x: ExecutionLog)
    requires Initial(st) && Run(cfg, st, records).Ok? && Increasing(records) && FreshNames(cfg, st, records)
    ensures var t, e := TallyOf(cfg, st, records, x), Run(cfg, st, records).value;
      Applied(e.1, x) > t.takenBack + 1 <==> t.orphaned > 0 && Visible(cfg, e.0, x) + t.released > 0
  {
    AppliedIsAccountedFor(cfg, st, records, x);
    AcceptedOnce(cfg, st, records, x);
    InitiallyCoherent(cfg, st, x);
    OrphanedWasAccepted(cfg, st, records, x);
  }

  // ---- Exactly once ----

  predicate NoReorg(events: seq<Event>) {
    forall i :: 0 <= i < |events| ==> !events[i].ReorgEvent?
  }

  ghost predicate AllShown(st: State) {
    forall id :: id in st.proposals ==> Shown(st.proposals, st.published, id)
  }

  /** Copies that are due when their proposal ends. */
  function Due(cfg: Config, st: State, x: ExecutionLog): nat {
    if cfg.delivery.RealtimeDelivery? then 0 else ActiveSize(st.active, CopiesOf(x))
  }

  /** A completed proposal has been shown, or has nothing left to show. */
  lemma ShownOrEmpty(cfg: Config, st: State, id: Hash)
    requires Coherent(cfg, st) && !cfg.delivery.FinalizedDelivery? && id in st.proposals
    requires cfg.emitRemovedLogs ==> AllShown(st)
    ensures Shown(st.proposals, st.published, id) || st.proposals[id].logs == []
  {
    assert !cfg.emitRemovedLogs ==> Empties(cfg, st, id);
  }

  /** Publishing it once more applies nothing. */
  lemma PromoteAppliesNothing(cfg: Config, st: State, sequence: nat, id: Hash, stage: Stage, c: Commitment,
                              x: ExecutionLog)
    requires Coherent(cfg, st) && !cfg.delivery.FinalizedDelivery? && id in st.proposals
    requires cfg.emitRemovedLogs ==> AllShown(st)
    ensures Applied(Publish(cfg, Advance(st, sequence, id, stage), sequence, id, c).value.1, x) == 0
  {
    var next := Advance(st, sequence, id, stage);
    ShownOrEmpty(cfg, st, id);
    assert Shown(next.proposals, next.published, id) <==> Shown(st.proposals, st.published, id);
    PublishApplies(cfg, next, sequence, id, c, x);
  }

  /** What a record applies is what comes in or has become due. */
  ghost predicate Delivers(cfg: Config, st: State, r: Record, u: State, output: seq<Event>, x: ExecutionLog) {
    Applied(output, x) + Due(cfg, u, x) == Due(cfg, st, x) + AcceptedIn(st, r, x)
  }

  lemma LogDelivers(cfg: Config, st: State, r: Record, x: ExecutionLog)
    requires !cfg.delivery.FinalizedDelivery? && (cfg.delivery.RealtimeDelivery? || st.active.Some?)
    requires Process(cfg, st, r).Ok? && st.synchronized && r.input.Log?
    ensures Delivers(cfg, st, r, Process(cfg, st, r).value.0, Process(cfg, st, r).value.1, x)
  {
    var a := st.active.value;
    var log := BuildLog(a, r.sequence, r.input);
    OneApplied(log, x);
    assert (a.logs + [log])[..|a.logs|] == a.logs;
  }

  lemma EndDelivers(cfg: Config, st: State, r: Record, x: ExecutionLog)
    requires !cfg.delivery.FinalizedDelivery? && Coherent(cfg, st)
    requires Process(cfg, st, r).Ok? && st.synchronized && r.input.End?
    ensures Delivers(cfg, st, r, Process(cfg, st, r).value.0, Process(cfg, st, r).value.1, x)
  {
    assert st == st.(synchronized := true);
    if cfg.delivery.RealtimeDelivery? {
      NoLogsApplied(Process(cfg, st, r).value.1, x);
    } else {
      FinishApplies(cfg, st, r.sequence, r.input.blockHash, x);
    }
  }

  lemma FinishApplies(cfg: Config, st: State, sequence: nat, hash: Hash, x: ExecutionLog)
    requires cfg.delivery.BlockOrderedDelivery? && Coherent(cfg, st)
    requires st.active.Some? && st.active.value.id !in st.proposals
    ensures var a := st.active.value;
      Applied(Publish(cfg, Finish(st, sequence, hash), sequence, a.id, Canonical).value.1, x) == Copies(a.logs, x)
    ensures Publish(cfg, Finish(st, sequence, hash), sequence, st.active.value.id, Canonical).value.0.active.None?
  {
    var a := st.active.value;
    FinishCoherent(cfg, st, sequence, hash);
    HashKeepsCopies(a.logs, hash, x);
    PublishApplies(cfg, Finish(st, sequence, hash), sequence, a.id, Canonical, x);
  }

  lemma ConsensusDelivers(cfg: Config, st: State, r: Record, x: ExecutionLog)
    requires !cfg.delivery.FinalizedDelivery? && Invariant(cfg, st) && Coherent(cfg, st) && Process(cfg, st, r).Ok?
    requires st.synchronized && (r.input.Qc? || r.input.Finalize?) && (cfg.emitRemovedLogs ==> AllShown(st))
    ensures Delivers(cfg, st, r, Process(cfg, st, r).value.0, Process(cfg, st, r).value.1, x)
  {
    ConsensusActive(cfg, st, r);
    var id := r.input.id;
    if r.input.Finalize? {
      FinalizeRecord(cfg, st, r);
      if id in st.proposals {
        FinalizeShows(cfg, st, r.sequence, id, r.input.blockNumber);
        PromoteAppliesNothing(cfg, st, r.sequence, id, Settled, Finalized, x);
      }
    } else {
      assert st == st.(synchronized := true);
      if id in st.proposals && st.proposals[id].stage.Proposed? {
        PromoteAppliesNothing(cfg, st, r.sequence, id, Voted, Canonical, x);
      }
    }
  }

  lemma ProcessDelivers(cfg: Config, st: State, r: Record, x: ExecutionLog)
    requires !cfg.delivery.FinalizedDelivery? && Invariant(cfg, st) && Coherent(cfg, st) && Process(cfg, st, r).Ok?
    requires cfg.emitRemovedLogs ==> AllShown(st)
    ensures Delivers(cfg, st, r, Process(cfg, st, r).value.0, Process(cfg, st, r).value.1, x)
  {
    if r.input.Start? {
      StartAppliesNothing(cfg, st, r, x);
    } else if st.synchronized && r.input.Log? {
      LogDelivers(cfg, st, r, x);
    } else if st.synchronized && r.input.End? {
      EndDelivers(cfg, st, r, x);
    } else if st.synchronized && (r.input.Qc? || r.input.Finalize?) {
      ConsensusDelivers(cfg, st, r, x);
    } else {
      OtherDelivers(cfg, st, r, x);
    }
  }

  lemma OtherDelivers(cfg: Config, st: State, r: Record, x: ExecutionLog)
    requires Process(cfg, st, r).Ok? && !r.input.Start?
    requires st.synchronized ==> !r.input.Log? && !r.input.End? && !r.input.Qc? && !r.input.Finalize?
    ensures Delivers(cfg, st, r, Process(cfg, st, r).value.0, Process(cfg, st, r).value.1, x)
  {
    NoLogsApplied(Process(cfg, st, r).value.1, x);
  }

  // ---- Without a reorg everything stays shown ----

  lemma DisplacingIsReorg(cfg: Config, st: State, sequence: nat, id: Hash, head: ExecutionHead, rest: seq<Event>)
    requires var h := head.blockNumber; h in st.published && st.published[h] in st.proposals && st.published[h] != id
    ensures !NoReorg(SwitchBranch(cfg, st, sequence, id, head) + rest)
  {
    var switch := SwitchBranch(cfg, st, sequence, id, head);
    assert (switch + rest)[|switch| - 1].ReorgEvent?;
  }

  lemma SwitchIsReorg(cfg: Config, st: State, sequence: nat, id: Hash, head: ExecutionHead, rest: seq<Event>)
    requires NoReorg(SwitchBranch(cfg, st, sequence, id, head) + rest)
    ensures var h := head.blockNumber; h in st.published && st.published[h] in st.proposals ==> st.published[h] == id
  {
    var h := head.blockNumber;
    if h in st.published && st.published[h] in st.proposals && st.published[h] != id {
      DisplacingIsReorg(cfg, st, sequence, id, head, rest);
    }
  }

  lemma StartStaysShown(cfg: Config, st: State, r: Record)
    requires Coherent(cfg, st) && AllShown(st) && Process(cfg, st, r).Ok? && r.input.Start?
    requires NoReorg(Process(cfg, st, r).value.1)
    ensures AllShown(Process(cfg, st, r).value.0)
  {
    if cfg.delivery.RealtimeDelivery? {
      var s, h := st.(synchronized := true), r.input.blockNumber;
      var head := ExecutionHead(r.sequence, h, None, Some(r.input.parentHash), Realtime);
      SwitchIsReorg(cfg, s, r.sequence, r.input.id, head, [HeadEvent(head)]);
      assert h in st.published ==> AtHome(cfg, st, h);
    }
  }

  lemma EndStaysShown(cfg: Config, st: State, r: Record)
    requires !cfg.delivery.FinalizedDelivery? && Coherent(cfg, st) && AllShown(st) && EndsPublished(cfg, st, r)
    requires Process(cfg, st, r).Ok? && st.synchronized && r.input.End? && NoReorg(Process(cfg, st, r).value.1)
    ensures AllShown(Process(cfg, st, r).value.0)
  {
    assert st == st.(synchronized := true);
    if cfg.delivery.BlockOrderedDelivery? {
      var a, done := st.active.value, Finish(st, r.sequence, r.input.blockHash);
      FinishCoherent(cfg, st, r.sequence, r.input.blockHash);
      assert a.blockNumber in st.published ==> AtHome(cfg, st, a.blockNumber);
      PublishKeepsPlace(cfg, done, r.sequence, a.id, Canonical);
    }
  }

  /** Without a reorg a proposal is published only where nothing else is. */
  lemma PublishKeepsPlace(cfg: Config, st: State, sequence: nat, id: Hash, c: Commitment)
    requires id in st.proposals && NoReorg(Publish(cfg, st, sequence, id, c).value.1)
    ensures var h := st.proposals[id].blockNumber;
      h in st.published && st.published[h] in st.proposals ==> st.published[h] == id
  {
    var p := st.proposals[id];
    var head := HeadOf(p, sequence, c);
    var changed := !(p.blockNumber in st.published && st.published[p.blockNumber] == id);
    var apply := p.publishedCommitment.None? || changed;
    var applied := if apply then LogEvents(p.logs, None, p.blockHash, c, false) else [];
    assert Publish(cfg, st, sequence, id, c).value.1
      == SwitchBranch(cfg, st, sequence, id, head) + (applied + [HeadEvent(head)]);
    SwitchIsReorg(cfg, st, sequence, id, head, applied + [HeadEvent(head)]);
  }

  lemma ConsensusStaysShown(cfg: Config, st: State, r: Record)
    requires Invariant(cfg, st) && AllShown(st) && Process(cfg, st, r).Ok?
    requires st.synchronized && (r.input.Qc? || r.input.Finalize? || r.input.Verify?)
    ensures AllShown(Process(cfg, st, r).value.0)
  {
    if r.input.Finalize? {
      FinalizeRecord(cfg, st, r);
      if r.input.id in st.proposals {
        FinalizePrunes(cfg, st, r.sequence, r.input.id, r.input.blockNumber);
      }
    } else if r.input.Verify? {
      VerifyStaysShown(cfg, st, r);
    } else {
      QcStaysShown(cfg, st, r);
    }
  }

  lemma VerifyStaysShown(cfg: Config, st: State, r: Record)
    requires Invariant(cfg, st) && AllShown(st) && Process(cfg, st, r).Ok? && st.synchronized && r.input.Verify?
    ensures AllShown(Process(cfg, st, r).value.0)
  {
    assert st == st.(synchronized := true);
    if r.input.blockNumber in st.byHeight {
      VerifyForgets(st, r.sequence, r.input.blockNumber);
    }
  }

  lemma QcStaysShown(cfg: Config, st: State, r: Record)
    requires AllShown(st) && Process(cfg, st, r).Ok? && st.synchronized && r.input.Qc?
    ensures AllShown(Process(cfg, st, r).value.0)
  {
  }

  lemma ProcessStaysShown(cfg: Config, st: State, r: Record)
    requires !cfg.delivery.FinalizedDelivery? && Invariant(cfg, st) && Coherent(cfg, st) && AllShown(st)
    requires Process(cfg, st, r).Ok? && NoReorg(Process(cfg, st, r).value.1) && EndsPublished(cfg, st, r)
    ensures AllShown(Process(cfg, st, r).value.0)
  {
    if r.input.Start? {
      StartStaysShown(cfg, st, r);
    } else if st.synchronized && r.input.End? {
      EndStaysShown(cfg, st, r);
    } else if st.synchronized && (r.input.Qc? || r.input.Finalize? || r.input.Verify?) {
      ConsensusStaysShown(cfg, st, r);
    }
  }

  lemma {:induction false} RunDelivers(cfg: Config, st: State, records: seq<Record>, x: ExecutionLog)
    requires !cfg.delivery.FinalizedDelivery? && Invariant(cfg, st) && Coherent(cfg, st) && Run(cfg, st, records).Ok?
    requires cfg.emitRemovedLogs ==>
      AllShown(st) && NoReorg(Run(cfg, st, records).value.1) && EndsInPlace(cfg, st, records)
    ensures var e := Run(cfg, st, records).value;
      Applied(e.1, x) + Due(cfg, e.0, x) == Due(cfg, st, x) + Accepted(cfg, st, records, x)
    decreases |records|
  {
    if records != [] {
      var first := Process(cfg, st, records[0]).value;
      var rest := Run(cfg, first.0, records[1..]).value;
      ProcessDelivers(cfg, st, records[0], x);
      ProcessKeeps(cfg, st, records[0]);
      ProcessCoherent(cfg, st, records[0]);
      if cfg.emitRemovedLogs {
        assert forall i :: 0 <= i < |first.1| ==> first.1[i] == (first.1 + rest.1)[i];
        assert forall i :: 0 <= i < |rest.1| ==> rest.1[i] == (first.1 + rest.1)[|first.1| + i];
        ProcessStaysShown(cfg, st, records[0]);
      }
      RunDelivers(cfg, first.0, records[1..], x);
      AppliedConcat(first.1, rest.1, x);
    }
  }

  /**
   * In realtime and block-ordered delivery every log handed in has been applied
   * exactly once, at once in realtime and otherwise when its proposal ends, over
   * every run that emits no reorg and in which realtime proposals end in place.
   * Without removed logs in the output that holds over every run, reorgs or not.
   */
  lemma AppliedExactlyOnce(cfg: Config, st: State, records: seq<Record>, x: ExecutionLog)
    requires !cfg.delivery.FinalizedDelivery? && Initial(st) && Run(cfg, st, records).Ok?
    requires cfg.emitRemovedLogs ==> NoReorg(Run(cfg, st, records).value.1) && EndsInPlace(cfg, st, records)
    ensures var e := Run(cfg, st, records).value;
      Accepted(cfg, st, records, x) == Applied(e.1, x)
        + if cfg.delivery.RealtimeDelivery? then 0 else ActiveSize(e.0.active, CopiesOf(x))
  {
    InitiallyCoherent(cfg, st, x);
    RunDelivers(cfg, st, records, x);
  }
}
