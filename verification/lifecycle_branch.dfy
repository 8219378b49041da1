/** Which proposal is published at each height, and what every accepted record keeps of that, in every delivery mode. */
module LifecycleBranch {
  import opened Chain
  import opened Lifecycle
  import opened LifecycleBudget
  import opened LifecycleDelivery

  // ---- The published branch ----

  /** The proposal is the one published at its height. */
  predicate Shown(ps: map<Hash, Proposal>, published: map<nat, Hash>, id: Hash) {
    id in ps && ps[id].blockNumber in published && published[ps[id].blockNumber] == id
  }

  /** What is published at a height is a proposal completed at that height or, in realtime, executing there. */
  predicate AtHome(cfg: Config, st: State, h: nat)
    requires h in st.published
  {
    var id := st.published[h];
    || (id in st.proposals && st.proposals[id].blockNumber == h)
    || (&& cfg.delivery.RealtimeDelivery? && st.active.Some?
        && st.active.value.id == id && st.active.value.blockNumber == h)
  }

  ghost predicate Homed(cfg: Config, st: State) {
    forall h :: h in st.published ==> AtHome(cfg, st, h)
  }

  /** A published proposal knows that it was, and in realtime every one was. */
  ghost predicate Announced(cfg: Config, st: State) {
    && (forall id :: id in st.proposals ==>
          cfg.delivery.RealtimeDelivery? || Shown(st.proposals, st.published, id) ==>
            st.proposals[id].publishedCommitment.Some?)
    && (cfg.delivery.RealtimeDelivery? && st.active.Some? ==> st.active.value.publishedCommitment.Some?)
  }

  /** Buffers that need not be taken back are empty. */
  ghost predicate Drained(cfg: Config, st: State) {
    && (forall id :: id in st.proposals ==> Empties(cfg, st, id) ==> st.proposals[id].logs == [])
    && (cfg.delivery.RealtimeDelivery? && !cfg.emitRemovedLogs && st.active.Some? ==> st.active.value.logs == [])
  }

  predicate Empties(cfg: Config, st: State, id: Hash)
    requires id in st.proposals
  {
    || st.proposals[id].stage.Settled?
    || if cfg.delivery.FinalizedDelivery? then Shown(st.proposals, st.published, id) else !cfg.emitRemovedLogs
  }

  ghost predicate Coherent(cfg: Config, st: State) {
    Homed(cfg, st) && Announced(cfg, st) && Drained(cfg, st)
  }

  // ---- One record keeps the branch coherent ----

  /** As `Drained`, with one buffer about to be published left out. */
  ghost predicate DrainedBut(cfg: Config, st: State, id: Hash) {
    && (forall x :: x in st.proposals && x != id ==> Empties(cfg, st, x) ==> st.proposals[x].logs == [])
    && (cfg.delivery.RealtimeDelivery? && !cfg.emitRemovedLogs && st.active.Some? ==> st.active.value.logs == [])
  }

  ghost predicate CoherentBut(cfg: Config, st: State, id: Hash) {
    Homed(cfg, st) && Announced(cfg, st) && DrainedBut(cfg, st, id)
  }

  lemma PublishHomed(cfg: Config, st: State, sequence: nat, id: Hash, c: Commitment)
    requires Homed(cfg, st) && id in st.proposals
    ensures Homed(cfg, Publish(cfg, st, sequence, id, c).value.0)
  {
    var u := Publish(cfg, st, sequence, id, c).value.0;
    forall h | h in u.published
      ensures AtHome(cfg, u, h)
    {
      if h != st.proposals[id].blockNumber {
        assert AtHome(cfg, st, h);
      }
    }
  }

  lemma PublishAnnounced(cfg: Config, st: State, sequence: nat, id: Hash, c: Commitment)
    requires Announced(cfg, st) && id in st.proposals
    ensures Announced(cfg, Publish(cfg, st, sequence, id, c).value.0)
  {
    var u := Publish(cfg, st, sequence, id, c).value.0;
    forall x | x in u.proposals && (cfg.delivery.RealtimeDelivery? || Shown(u.proposals, u.published, x))
      ensures u.proposals[x].publishedCommitment.Some?
    {
      if x != id {
        assert cfg.delivery.RealtimeDelivery? || Shown(st.proposals, st.published, x);
      }
    }
  }

  lemma PublishDrained(cfg: Config, st: State, sequence: nat, id: Hash, c: Commitment)
    requires DrainedBut(cfg, st, id) && id in st.proposals
    requires c.Finalized? || (!st.proposals[id].stage.Settled? && !cfg.delivery.FinalizedDelivery?)
    ensures Drained(cfg, Publish(cfg, st, sequence, id, c).value.0)
  {
    var u := Publish(cfg, st, sequence, id, c).value.0;
    forall x | x in u.proposals && Empties(cfg, u, x)
      ensures u.proposals[x].logs == []
    {
      if x != id {
        assert u.proposals[x] == st.proposals[x] && Empties(cfg, st, x);
      }
    }
  }

  lemma PublishCoherent(cfg: Config, st: State, sequence: nat, id: Hash, c: Commitment)
    requires CoherentBut(cfg, st, id) && id in st.proposals
    requires c.Finalized? || (!st.proposals[id].stage.Settled? && !cfg.delivery.FinalizedDelivery?)
    ensures Coherent(cfg, Publish(cfg, st, sequence, id, c).value.0)
  {
    PublishHomed(cfg, st, sequence, id, c);
    PublishAnnounced(cfg, st, sequence, id, c);
    PublishDrained(cfg, st, sequence, id, c);
  }

  lemma AdvanceCoherent(cfg: Config, st: State, sequence: nat, id: Hash, stage: Stage)
    requires Coherent(cfg, st) && id in st.proposals
    ensures CoherentBut(cfg, Advance(st, sequence, id, stage), id)
    ensures !stage.Settled? && !st.proposals[id].stage.Settled? ==> Coherent(cfg, Advance(st, sequence, id, stage))
  {
    var u := Advance(st, sequence, id, stage);
    forall h | h in u.published
      ensures AtHome(cfg, u, h)
    {
      assert AtHome(cfg, st, h);
    }
    forall x | x in u.proposals
      ensures Shown(u.proposals, u.published, x) <==> Shown(st.proposals, st.published, x)
    {
    }
  }

  lemma StartCoherent(cfg: Config, st: State, sequence: nat, id: Hash, h: nat, parentHash: Hash)
    requires Coherent(cfg, st) && StartStep(cfg, st, sequence, id, h, parentHash).Ok?
    ensures Coherent(cfg, StartStep(cfg, st, sequence, id, h, parentHash).value.0)
  {
    var u := StartStep(cfg, st, sequence, id, h, parentHash).value.0;
    forall k | k in u.published
      ensures AtHome(cfg, u, k)
    {
      if k in st.published {
        assert AtHome(cfg, st, k);
      }
    }
  }

  lemma LogCoherent(cfg: Config, st: State, sequence: nat, block: Option<nat>, input: Input)
    requires Coherent(cfg, st) && input.Log? && LogStep(cfg, st, sequence, block, input).Ok?
    ensures Coherent(cfg, LogStep(cfg, st, sequence, block, input).value.0)
  {
    ActiveCoherent(cfg, st, LogStep(cfg, st, sequence, block, input).value.0);
  }

  lemma SkippedCoherent(cfg: Config, st: State, block: Option<nat>)
    requires Coherent(cfg, st) && NextLogIndex(st, block).Ok?
    ensures Coherent(cfg, NextLogIndex(st, block).value)
  {
    ActiveCoherent(cfg, st, NextLogIndex(st, block).value);
  }

  /** The executing proposal may change as long as it keeps its name, its height and its announcement. */
  lemma ActiveCoherent(cfg: Config, st: State, u: State)
    requires Coherent(cfg, st) && u.proposals == st.proposals && u.published == st.published
    requires st.active.Some? && u.active.Some? && u.active.value.id == st.active.value.id
    requires u.active.value.blockNumber == st.active.value.blockNumber
    requires u.active.value.publishedCommitment == st.active.value.publishedCommitment
    requires cfg.delivery.RealtimeDelivery? && !cfg.emitRemovedLogs ==> u.active.value.logs == st.active.value.logs
    ensures Coherent(cfg, u)
  {
    forall h | h in u.published
      ensures AtHome(cfg, u, h)
    {
      assert AtHome(cfg, st, h);
    }
    assert forall id :: id in st.proposals ==> (Empties(cfg, u, id) <==> Empties(cfg, st, id));
  }

  lemma FinishCoherent(cfg: Config, st: State, sequence: nat, hash: Hash)
    requires Coherent(cfg, st) && st.active.Some? && st.active.value.id !in st.proposals
    ensures CoherentBut(cfg, Finish(st, sequence, hash), st.active.value.id)
    ensures !cfg.delivery.BlockOrderedDelivery? ==> Coherent(cfg, Finish(st, sequence, hash))
    ensures !cfg.delivery.RealtimeDelivery? ==>
      !Shown(Finish(st, sequence, hash).proposals, st.published, st.active.value.id)
  {
    var a, u := st.active.value, Finish(st, sequence, hash);
    forall h | h in u.published
      ensures AtHome(cfg, u, h)
    {
      assert AtHome(cfg, st, h);
    }
    forall id | id in u.proposals && id != a.id
      ensures Shown(u.proposals, u.published, id) <==> Shown(st.proposals, st.published, id)
    {
    }
    assert a.blockNumber in st.published ==> AtHome(cfg, st, a.blockNumber);
  }

  lemma EndCoherent(cfg: Config, st: State, sequence: nat, block: Option<nat>, hash: Hash)
    requires Coherent(cfg, st) && EndStep(cfg, st, sequence, block, hash).Ok?
    ensures Coherent(cfg, EndStep(cfg, st, sequence, block, hash).value.0)
  {
    FinishCoherent(cfg, st, sequence, hash);
    if cfg.delivery.BlockOrderedDelivery? {
      PublishCoherent(cfg, Finish(st, sequence, hash), sequence, st.active.value.id, Canonical);
    }
  }

  lemma QcCoherent(cfg: Config, st: State, sequence: nat, id: Hash, h: nat)
    requires Coherent(cfg, st) && QcStep(cfg, st, sequence, id, h).Ok?
    ensures Coherent(cfg, QcStep(cfg, st, sequence, id, h).value.0)
  {
    if id in st.proposals && st.proposals[id].stage.Proposed? {
      AdvanceCoherent(cfg, st, sequence, id, Voted);
      if !cfg.delivery.FinalizedDelivery? {
        PublishCoherent(cfg, Advance(st, sequence, id, Voted), sequence, id, Canonical);
      }
    }
  }

  /** Fewer proposals, none of them shown. */
  lemma FewerCoherent(cfg: Config, st: State, u: State)
    requires Coherent(cfg, st) && DropsHidden(st, u)
    ensures Coherent(cfg, u)
  {
    forall h | h in u.published
      ensures AtHome(cfg, u, h)
    {
      assert AtHome(cfg, st, h);
      assert st.published[h] in st.proposals && st.proposals[st.published[h]].blockNumber == h ==>
        Shown(st.proposals, st.published, st.published[h]);
    }
    assert forall id :: id in u.proposals ==> (Empties(cfg, u, id) <==> Empties(cfg, st, id));
  }

  /** The published winner's competitors go; nothing shown does. */
  ghost predicate DropsHidden(st: State, u: State) {
    && u.published == st.published && u.active == st.active
    && (forall x :: x in u.proposals ==> x in st.proposals && u.proposals[x] == st.proposals[x])
    && (forall x :: Shown(st.proposals, st.published, x) ==> x in u.proposals)
  }

  lemma DropHides(cfg: Config, st: State, id: Hash, h: nat)
    requires Accounted(cfg, st) && id in st.proposals && st.proposals[id].blockNumber == h
    requires h in st.published && st.published[h] == id && h in st.byHeight
    ensures DropsHidden(st, Dropped(st, id, h))
  {
    DropKeeps(cfg, st, id, h);
    DropFrames(cfg, st, id, h);
    assert st.published[h := id] == st.published;
  }

  lemma DropCoherent(cfg: Config, st: State, id: Hash, h: nat)
    requires Accounted(cfg, st) && Coherent(cfg, st) && id in st.proposals && st.proposals[id].blockNumber == h
    requires h in st.published && st.published[h] == id && h in st.byHeight
    ensures Coherent(cfg, Dropped(st, id, h))
  {
    DropHides(cfg, st, id, h);
    FewerCoherent(cfg, st, Dropped(st, id, h));
  }

  lemma FinalizeCoherent(cfg: Config, st: State, sequence: nat, id: Hash, h: nat)
    requires Invariant(cfg, st) && Coherent(cfg, st) && FinalizeStep(cfg, st, sequence, id, h).Ok?
    ensures Coherent(cfg, FinalizeStep(cfg, st, sequence, id, h).value.0)
  {
    if id in st.proposals {
      FinalizeUnfolds(cfg, st, sequence, id, h);
      AdvanceCoherent(cfg, st, sequence, id, Settled);
      PublishCoherent(cfg, Advance(st, sequence, id, Settled), sequence, id, Finalized);
      EmptiedKeeps(cfg, st, sequence, id);
      EmptiedIs(cfg, st, sequence, id);
      DropCoherent(cfg, Emptied(cfg, st, sequence, id), id, h);
    }
  }

  /** From `st` to `u` the only proposal of a height, settled, and what is published there are forgotten. */
  ghost predicate Forgets(st: State, u: State, id: Hash, h: nat) {
    && id in st.proposals && st.proposals[id].blockNumber == h && st.proposals[id].stage.Settled?
    && (forall x :: x in st.proposals && st.proposals[x].blockNumber == h ==> x == id)
    && u.proposals == st.proposals - {id} && u.published == st.published - {h} && u.active == st.active
  }

  lemma ForgetCoherent(cfg: Config, st: State, u: State, id: Hash, h: nat)
    requires Coherent(cfg, st) && Forgets(st, u, id, h)
    ensures Coherent(cfg, u)
  {
    forall k | k in u.published
      ensures AtHome(cfg, u, k)
    {
      assert AtHome(cfg, st, k);
    }
    forall x | x in u.proposals
      ensures Shown(u.proposals, u.published, x) <==> Shown(st.proposals, st.published, x)
      ensures Empties(cfg, u, x) <==> Empties(cfg, st, x)
    {
    }
  }

  lemma VerifyForgets(st: State, sequence: nat, h: nat)
    requires Indexed(st.proposals, st.byHeight) && VerifyStep(st, sequence, h).Ok? && h in st.byHeight
    ensures |st.byHeight[h]| == 1 && Forgets(st, VerifyStep(st, sequence, h).value.0, st.byHeight[h][0], h)
  {
    assert st.byHeight[h][0] in st.byHeight[h];
  }

  lemma VerifyCoherent(cfg: Config, st: State, sequence: nat, h: nat)
    requires Invariant(cfg, st) && Coherent(cfg, st) && VerifyStep(st, sequence, h).Ok?
    ensures Coherent(cfg, VerifyStep(st, sequence, h).value.0)
  {
    if h in st.byHeight {
      VerifyForgets(st, sequence, h);
      ForgetCoherent(cfg, st, VerifyStep(st, sequence, h).value.0, st.byHeight[h][0], h);
    }
  }

  lemma SynchronizedCoherent(cfg: Config, st: State)
    ensures Coherent(cfg, st.(synchronized := true)) <==> Coherent(cfg, st)
  {
    var u := st.(synchronized := true);
    assert forall h :: h in st.published ==> (AtHome(cfg, u, h) <==> AtHome(cfg, st, h));
    assert forall id :: id in st.proposals ==> (Empties(cfg, u, id) <==> Empties(cfg, st, id));
  }

  lemma ExecutionCoherent(cfg: Config, st: State, r: Record)
    requires Coherent(cfg, st) && Process(cfg, st, r).Ok?
    requires r.input.Start? || r.input.Log? || r.input.SkippedLog? || r.input.End?
    ensures Coherent(cfg, Process(cfg, st, r).value.0)
  {
    var s := st.(synchronized := true);
    SynchronizedCoherent(cfg, st);
    if r.input.Start? {
      StartCoherent(cfg, s, r.sequence, r.input.id, r.input.blockNumber, r.input.parentHash);
    } else if st.synchronized {
      if r.input.Log? {
        LogCoherent(cfg, s, r.sequence, r.blockNumber, r.input);
      } else if r.input.SkippedLog? {
        SkippedCoherent(cfg, s, r.blockNumber);
      } else {
        EndCoherent(cfg, s, r.sequence, r.blockNumber, r.input.blockHash);
      }
    }
  }

  lemma ConsensusCoherent(cfg: Config, st: State, r: Record)
    requires Invariant(cfg, st) && Coherent(cfg, st) && Process(cfg, st, r).Ok?
    requires r.input.Qc? || r.input.Finalize? || r.input.Verify?
    ensures Coherent(cfg, Process(cfg, st, r).value.0)
  {
    var s := st.(synchronized := true);
    SynchronizedCoherent(cfg, st);
    SynchronizedInvariant(cfg, st);
    if st.synchronized {
      if r.input.Qc? {
        QcCoherent(cfg, s, r.sequence, r.input.id, r.input.blockNumber);
      } else if r.input.Finalize? {
        FinalizeCoherent(cfg, s, r.sequence, r.input.id, r.input.blockNumber);
      } else {
        VerifyCoherent(cfg, s, r.sequence, r.input.blockNumber);
      }
    }
  }

  /** Every accepted record keeps the published branch coherent, in every delivery mode. */
  lemma ProcessCoherent(cfg: Config, st: State, r: Record)
    requires Invariant(cfg, st) && Coherent(cfg, st) && Process(cfg, st, r).Ok?
    ensures Coherent(cfg, Process(cfg, st, r).value.0)
  {
    if r.input.Start? || r.input.Log? || r.input.SkippedLog? || r.input.End? {
      ExecutionCoherent(cfg, st, r);
    } else if r.input.Qc? || r.input.Finalize? || r.input.Verify? {
      ConsensusCoherent(cfg, st, r);
    } else {
      SynchronizedCoherent(cfg, st);
    }
  }
}
