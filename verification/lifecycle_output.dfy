/** Heads, reorg notices and log numbers in the output of the proposal lifecycle, over every run and delivery mode. */
module LifecycleOutput {
  import opened Chain
  import opened Lifecycle
  import opened LifecycleBudget
  import opened LifecycleDelivery
  import opened LifecycleFinality
  import opened LifecycleBranch
  import opened LifecycleVisibility
  import opened LifecycleOnce

  // ---- Reorg notices connect heads the consumer sees ----

  /** The head under which a proposal was last announced. */
  function LastHead(p: Proposal): ExecutionHead {
    ExecutionHead(p.lastSequence, p.blockNumber, Some(p.blockHash), Some(p.parentHash),
                  CommitmentOr(p.publishedCommitment))
  }

  ghost predicate HeadsSeen(ps: map<Hash, Proposal>, seen: seq<Event>) {
    forall id :: id in ps && ps[id].publishedCommitment.Some? ==> HeadEvent(LastHead(ps[id])) in seen
  }

  /** In finalized delivery only finalized proposals have been announced. */
  ghost predicate LateOnly(cfg: Config, st: State) {
    cfg.delivery.FinalizedDelivery? ==>
      && (st.active.Some? ==> st.active.value.publishedCommitment.None?)
      && forall id :: id in st.proposals ==>
        st.proposals[id].publishedCommitment.Some? ==> st.proposals[id].stage.Settled?
  }

  /** A notice at a height comes after its old head and before its new one. */
  predicate Connects(seen: seq<Event>, output: seq<Event>, i: nat)
    requires i < |output|
  {
    output[i].ReorgEvent? ==>
      && output[i].oldHead.blockNumber == output[i].newHead.blockNumber
      && HeadEvent(output[i].oldHead) in seen + output[..i]
      && HeadEvent(output[i].newHead) in output[i + 1..]
  }

  ghost predicate AllConnect(seen: seq<Event>, output: seq<Event>) {
    forall i :: 0 <= i < |output| ==> Connects(seen, output, i)
  }

  lemma ConnectConcat(seen: seq<Event>, a: seq<Event>, b: seq<Event>)
    requires AllConnect(seen, a) && AllConnect(seen + a, b)
    ensures AllConnect(seen, a + b)
  {
    forall i | 0 <= i < |a + b|
      ensures Connects(seen, a + b, i)
    {
      if i < |a| {
        assert Connects(seen, a, i);
        assert (a + b)[..i] == a[..i] && (a + b)[i + 1..] == a[i + 1..] + b;
      } else {
        assert Connects(seen + a, b, i - |a|);
        assert seen + (a + b)[..i] == seen + a + b[..i - |a|] && (a + b)[i + 1..] == b[i - |a| + 1..];
      }
    }
  }

  lemma SeenStays(ps: map<Hash, Proposal>, seen: seq<Event>, more: seq<Event>)
    requires HeadsSeen(ps, seen)
    ensures HeadsSeen(ps, seen + more)
  {
  }

  /** Whatever is published and retained has been announced. */
  lemma PublishedIsAnnounced(cfg: Config, st: State, h: nat)
    requires Homed(cfg, st) && Announced(cfg, st) && h in st.published && st.published[h] in st.proposals
    ensures st.proposals[st.published[h]].publishedCommitment.Some?
    ensures !cfg.delivery.RealtimeDelivery? ==> st.proposals[st.published[h]].blockNumber == h
  {
    assert AtHome(cfg, st, h);
  }

  lemma SwitchConnects(cfg: Config, st: State, sequence: nat, id: Hash, head: ExecutionHead, rest: seq<Event>,
                       seen: seq<Event>)
    requires Homed(cfg, st) && Announced(cfg, st) && Named(cfg, st) && HeadsSeen(st.proposals - {id}, seen)
    requires HeadEvent(head) in rest && NoReorg(rest)
    ensures AllConnect(seen, SwitchBranch(cfg, st, sequence, id, head) + rest)
  {
    var h := head.blockNumber;
    var switch := SwitchBranch(cfg, st, sequence, id, head);
    if h in st.published && st.published[h] != id && st.published[h] in st.proposals {
      var was := st.proposals[st.published[h]];
      PublishedIsAnnounced(cfg, st, h);
      NamedIsHome(cfg, st, h);
      assert HeadEvent(LastHead((st.proposals - {id})[st.published[h]])) in seen;
      NoticeConnects(seen, switch[..|switch| - 1], ReorgEvent(LastHead(was), head), rest);
      assert switch == switch[..|switch| - 1] + [ReorgEvent(LastHead(was), head)];
    } else {
      assert switch + rest == rest;
    }
  }

  lemma NoticeConnects(seen: seq<Event>, before: seq<Event>, notice: Event, rest: seq<Event>)
    requires NoReorg(before) && NoReorg(rest) && notice.ReorgEvent?
    requires notice.oldHead.blockNumber == notice.newHead.blockNumber
    requires HeadEvent(notice.oldHead) in seen && HeadEvent(notice.newHead) in rest
    ensures AllConnect(seen, before + [notice] + rest)
  {
    var output := before + [notice] + rest;
    assert output[|before|] == notice && output[|before| + 1..] == rest;
    forall i | 0 <= i < |output|
      ensures Connects(seen, output, i)
    {
      if i < |before| {
        assert output[i] == before[i];
      } else if i > |before| {
        assert output[i] == rest[i - |before| - 1];
      }
    }
  }

  /** Publishing announces the proposal anew and connects it with the one it displaces. */
  lemma PublishConnects(cfg: Config, st: State, sequence: nat, id: Hash, c: Commitment, seen: seq<Event>)
    requires Homed(cfg, st) && Announced(cfg, st) && Named(cfg, st) && id in st.proposals
    requires HeadsSeen(st.proposals - {id}, seen)
    ensures var r := Publish(cfg, st, sequence, id, c).value;
      AllConnect(seen, r.1) && HeadsSeen(r.0.proposals, seen + r.1)
  {
    var p, r := st.proposals[id], Publish(cfg, st, sequence, id, c).value;
    var head := HeadOf(p, sequence, c);
    var switch := SwitchBranch(cfg, st, sequence, id, head);
    var changed := !(p.blockNumber in st.published && st.published[p.blockNumber] == id);
    var apply := p.publishedCommitment.None? || changed;
    var rest := (if apply then LogEvents(p.logs, None, p.blockHash, c, false) else []) + [HeadEvent(head)];
    assert r.1 == switch + rest && rest[|rest| - 1] == HeadEvent(head);
    SwitchConnects(cfg, st, sequence, id, head, rest, seen);
    AnnouncedAnew(st.proposals, id, r.0.proposals[id], seen, r.1);
    assert r.0.proposals == st.proposals[id := r.0.proposals[id]];
  }

  lemma AnnouncedAnew(ps: map<Hash, Proposal>, id: Hash, q: Proposal, seen: seq<Event>, output: seq<Event>)
    requires HeadsSeen(ps - {id}, seen) && (q.publishedCommitment.Some? ==> HeadEvent(LastHead(q)) in output)
    ensures HeadsSeen(ps[id := q], seen + output)
  {
    var qs := ps[id := q];
    forall x | x in qs && qs[x].publishedCommitment.Some?
      ensures HeadEvent(LastHead(qs[x])) in seen + output
    {
      if x != id {
        assert (ps - {id})[x] == qs[x];
      }
    }
  }

  // ---- One record ----

  /** What every record with a fresh name keeps, given the output so far. */
  ghost predicate Tracked(cfg: Config, st: State, seen: seq<Event>) {
    && Invariant(cfg, st) && Coherent(cfg, st) && Named(cfg, st)
    && HeadsSeen(st.proposals, seen) && LateOnly(cfg, st)
  }

  /** A record connects its notices, and what is announced afterwards has been seen. */
  ghost predicate Announces(cfg: Config, st: State, r: Record, seen: seq<Event>)
    requires Process(cfg, st, r).Ok?
  {
    var next := Process(cfg, st, r).value;
    AllConnect(seen, next.1) && HeadsSeen(next.0.proposals, seen + next.1) && LateOnly(cfg, next.0)
  }

  lemma StartAnnounces(cfg: Config, st: State, r: Record, seen: seq<Event>)
    requires Coherent(cfg, st) && HeadsSeen(st.proposals, seen) && LateOnly(cfg, st)
    requires Process(cfg, st, r).Ok? && r.input.Start?
    ensures Announces(cfg, st, r, seen)
  {
    var s := st.(synchronized := true);
    SynchronizedCoherent(cfg, st);
    SeenStays(st.proposals, seen, Process(cfg, st, r).value.1);
    if cfg.delivery.RealtimeDelivery? {
      var head := ExecutionHead(r.sequence, r.input.blockNumber, None, Some(r.input.parentHash), Realtime);
      SwitchConnects(cfg, s, r.sequence, r.input.id, head, [HeadEvent(head)], seen);
    }
  }

  lemma EndAnnounces(cfg: Config, st: State, r: Record, seen: seq<Event>)
    requires Coherent(cfg, st) && HeadsSeen(st.proposals, seen) && LateOnly(cfg, st)
    requires Process(cfg, st, r).Ok? && st.synchronized && r.input.End?
    ensures Announces(cfg, st, r, seen)
  {
    assert st == st.(synchronized := true);
    var a, done := st.active.value, Finish(st, r.sequence, r.input.blockHash);
    FinishCoherent(cfg, st, r.sequence, r.input.blockHash);
    assert done.proposals - {a.id} == st.proposals;
    if cfg.delivery.BlockOrderedDelivery? {
      PublishConnects(cfg, done, r.sequence, a.id, Canonical, seen);
    } else {
      AnnouncedAnew(st.proposals, a.id, done.proposals[a.id], seen, Process(cfg, st, r).value.1);
      assert st.proposals - {a.id} == st.proposals;
    }
  }

  /** A proposal that reaches a new stage and is published at once. */
  lemma PromoteAnnounces(cfg: Config, st: State, sequence: nat, id: Hash, stage: Stage, c: Commitment, seen: seq<Event>)
    requires Coherent(cfg, st) && Named(cfg, st) && HeadsSeen(st.proposals, seen) && id in st.proposals
    ensures var r := Publish(cfg, Advance(st, sequence, id, stage), sequence, id, c).value;
      AllConnect(seen, r.1) && HeadsSeen(r.0.proposals, seen + r.1)
  {
    var next := Advance(st, sequence, id, stage);
    AdvanceCoherent(cfg, st, sequence, id, stage);
    assert next.proposals - {id} == st.proposals - {id};
    PublishConnects(cfg, next, sequence, id, c, seen);
  }

  lemma QcAnnounces(cfg: Config, st: State, r: Record, seen: seq<Event>)
    requires Coherent(cfg, st) && Named(cfg, st) && HeadsSeen(st.proposals, seen) && LateOnly(cfg, st)
    requires Process(cfg, st, r).Ok? && st.synchronized && r.input.Qc?
    ensures Announces(cfg, st, r, seen)
  {
    assert st == st.(synchronized := true);
    var id := r.input.id;
    if id in st.proposals && st.proposals[id].stage.Proposed? {
      if cfg.delivery.FinalizedDelivery? {
        AnnouncedAnew(st.proposals, id, Advance(st, r.sequence, id, Voted).proposals[id], seen, []);
        assert seen + [] == seen;
      } else {
        PromoteAnnounces(cfg, st, r.sequence, id, Voted, Canonical, seen);
      }
    } else {
      SeenStays(st.proposals, seen, []);
    }
  }

  lemma FinalizeAnnounces(cfg: Config, st: State, r: Record, seen: seq<Event>)
    requires Tracked(cfg, st, seen)
    requires Process(cfg, st, r).Ok? && st.synchronized && r.input.Finalize?
    ensures Announces(cfg, st, r, seen)
  {
    var id, h := r.input.id, r.input.blockNumber;
    FinalizeRecord(cfg, st, r);
    if id in st.proposals {
      PromoteAnnounces(cfg, st, r.sequence, id, Settled, Finalized, seen);
      FinalizeShows(cfg, st, r.sequence, id, h);
      FinalizeKeepsOthers(cfg, st, r.sequence, id, h);
    } else {
      SeenStays(st.proposals, seen, []);
    }
  }

  lemma FinalizeKeepsOthers(cfg: Config, st: State, sequence: nat, id: Hash, h: nat)
    requires Invariant(cfg, st) && id in st.proposals && FinalizeStep(cfg, st, sequence, id, h).Ok?
    ensures var next, u := Emptied(cfg, st, sequence, id), FinalizeStep(cfg, st, sequence, id, h).value.0;
      && (forall x :: x in u.proposals ==> x in next.proposals && u.proposals[x] == next.proposals[x])
      && u.active == st.active
      && (forall x :: x in u.proposals && x != id ==> x in st.proposals && u.proposals[x] == st.proposals[x])
      && (id in u.proposals ==> u.proposals[id].stage.Settled?)
  {
    FinalizeUnfolds(cfg, st, sequence, id, h);
    EmptiedKeeps(cfg, st, sequence, id);
    EmptiedIs(cfg, st, sequence, id);
    DropHides(cfg, Emptied(cfg, st, sequence, id), id, h);
  }

  lemma OtherAnnounces(cfg: Config, st: State, r: Record, seen: seq<Event>)
    requires HeadsSeen(st.proposals, seen) && LateOnly(cfg, st) && Process(cfg, st, r).Ok? && !r.input.Start?
    requires st.synchronized ==> !r.input.End? && !r.input.Qc? && !r.input.Finalize?
    ensures Announces(cfg, st, r, seen)
  {
    SeenStays(st.proposals, seen, Process(cfg, st, r).value.1);
  }

  lemma RecordAnnounces(cfg: Config, st: State, r: Record, seen: seq<Event>)
    requires Tracked(cfg, st, seen)
    requires Process(cfg, st, r).Ok?
    ensures Announces(cfg, st, r, seen)
  {
    if r.input.Start? {
      StartAnnounces(cfg, st, r, seen);
    } else if st.synchronized && r.input.End? {
      EndAnnounces(cfg, st, r, seen);
    } else if st.synchronized && r.input.Qc? {
      QcAnnounces(cfg, st, r, seen);
    } else if st.synchronized && r.input.Finalize? {
      FinalizeAnnounces(cfg, st, r, seen);
    } else {
      OtherAnnounces(cfg, st, r, seen);
    }
  }

  lemma {:induction false} RunConnects(cfg: Config, st: State, records: seq<Record>, seen: seq<Event>)
    requires Tracked(cfg, st, seen)
    requires Run(cfg, st, records).Ok? && FreshNames(cfg, st, records)
    ensures AllConnect(seen, Run(cfg, st, records).value.1)
    decreases |records|
  {
    if records != [] {
      var first := Process(cfg, st, records[0]).value;
      RecordAnnounces(cfg, st, records[0], seen);
      ProcessKeeps(cfg, st, records[0]);
      ProcessCoherent(cfg, st, records[0]);
      if cfg.delivery.RealtimeDelivery? {
        FreshStays(cfg, st, records[0]);
      }
      RunConnects(cfg, first.0, records[1..], seen + first.1);
      ConnectConcat(seen, first.1, Run(cfg, first.0, records[1..]).value.1);
    }
  }

  /**
   * Over every run with names used once, in every delivery mode: each reorg
   * notice leads, at one height, from a head emitted before it to a head emitted
   * after it.
   */
  lemma ReorgsConnectHeads(cfg: Config, st: State, records: seq<Record>, i: nat)
    requires Initial(st) && Run(cfg, st, records).Ok? && FreshNames(cfg, st, records)
    requires i < |Run(cfg, st, records).value.1| && Run(cfg, st, records).value.1[i].ReorgEvent?
    ensures var output := Run(cfg, st, records).value.1;
      && output[i].oldHead.blockNumber == output[i].newHead.blockNumber
      && HeadEvent(output[i].oldHead) in output[..i] && HeadEvent(output[i].newHead) in output[i + 1..]
  {
    var output := Run(cfg, st, records).value.1;
    InitiallyConnected(cfg, st);
    RunConnects(cfg, st, records, []);
    assert Connects([], output, i);
    assert [] + output[..i] == output[..i];
  }

  lemma InitiallyConnected(cfg: Config, st: State)
    requires Initial(st)
    ensures Tracked(cfg, st, [])
  {
  }

  // ---- Heads ----

  /** The head a record emits: whose block it is and how firm the record makes it. */
  function HeadDue(cfg: Config, st: State, r: Record): Option<ExecutionHead> {
    match r.input
    case Start(_, h, parent) =>
      if cfg.delivery.RealtimeDelivery? then Some(ExecutionHead(r.sequence, h, None, Some(parent), Realtime)) else None
    case End(hash) =>
      if !st.synchronized || st.active.None? || cfg.delivery.FinalizedDelivery? then None
      else
        var a := st.active.value;
        Some(ExecutionHead(r.sequence, a.blockNumber, Some(hash), Some(a.parentHash),
                           if cfg.delivery.RealtimeDelivery? then Realtime else Canonical))
    case Qc(id, _) =>
      if st.synchronized && id in st.proposals && st.proposals[id].stage.Proposed? && !cfg.delivery.FinalizedDelivery?
      then BlockHead(st.proposals[id], r.sequence, Canonical) else None
    case Finalize(id, _) =>
      if st.synchronized && id in st.proposals then BlockHead(st.proposals[id], r.sequence, Finalized) else None
    case Verify(h) =>
      if st.synchronized && h in st.byHeight && |st.byHeight[h]| == 1 && st.byHeight[h][0] in st.proposals
      then BlockHead(st.proposals[st.byHeight[h][0]], r.sequence, Finalized) else None
    case _ => None
  }

  function BlockHead(p: Proposal, sequence: nat, c: Commitment): Option<ExecutionHead> {
    Some(ExecutionHead(sequence, p.blockNumber, Some(p.blockHash), Some(p.parentHash), c))
  }

  predicate NoHead(events: seq<Event>) {
    forall i :: 0 <= i < |events| ==> !events[i].HeadEvent?
  }

  /** The output ends with its only head, or has none. */
  predicate EndsWith(output: seq<Event>, head: Option<ExecutionHead>) {
    if head.None? then NoHead(output)
    else output != [] && output[|output| - 1] == HeadEvent(head.value) && NoHead(output[..|output| - 1])
  }

  lemma PublishEndsWithHead(cfg: Config, st: State, sequence: nat, id: Hash, c: Commitment)
    requires id in st.proposals
    ensures EndsWith(Publish(cfg, st, sequence, id, c).value.1, BlockHead(st.proposals[id], sequence, c))
  {
    var output := Publish(cfg, st, sequence, id, c).value.1;
    assert output[..|output| - 1] + [output[|output| - 1]] == output;
  }

  lemma StartEndsWithHead(cfg: Config, st: State, r: Record)
    requires Process(cfg, st, r).Ok? && r.input.Start?
    ensures EndsWith(Process(cfg, st, r).value.1, HeadDue(cfg, st, r))
  {
  }

  /** In realtime a proposal executes under its first announcement. */
  predicate RealtimeActive(cfg: Config, st: State) {
    cfg.delivery.RealtimeDelivery? && st.active.Some? ==> st.active.value.publishedCommitment == Some(Realtime)
  }

  lemma EndEndsWithHead(cfg: Config, st: State, r: Record)
    requires RealtimeActive(cfg, st) && Process(cfg, st, r).Ok? && st.synchronized && r.input.End?
    ensures EndsWith(Process(cfg, st, r).value.1, HeadDue(cfg, st, r))
  {
    assert st == st.(synchronized := true);
    if cfg.delivery.BlockOrderedDelivery? {
      PublishEndsWithHead(cfg, Finish(st, r.sequence, r.input.blockHash), r.sequence, st.active.value.id, Canonical);
    }
  }

  lemma ConsensusEndsWithHead(cfg: Config, st: State, r: Record)
    requires Process(cfg, st, r).Ok? && st.synchronized && (r.input.Qc? || r.input.Finalize?)
    ensures EndsWith(Process(cfg, st, r).value.1, HeadDue(cfg, st, r))
  {
    assert st == st.(synchronized := true);
    var id := r.input.id;
    if id in st.proposals {
      if r.input.Qc? {
        PublishEndsWithHead(cfg, Advance(st, r.sequence, id, Voted), r.sequence, id, Canonical);
      } else {
        PublishEndsWithHead(cfg, Advance(st, r.sequence, id, Settled), r.sequence, id, Finalized);
      }
    }
  }

  lemma VerifyEndsWithHead(cfg: Config, st: State, r: Record)
    requires Process(cfg, st, r).Ok? && st.synchronized && r.input.Verify?
    ensures EndsWith(Process(cfg, st, r).value.1, HeadDue(cfg, st, r))
  {
  }

  lemma RecordEndsWithHead(cfg: Config, st: State, r: Record)
    requires RealtimeActive(cfg, st) && Process(cfg, st, r).Ok?
    ensures EndsWith(Process(cfg, st, r).value.1, HeadDue(cfg, st, r))
  {
    if r.input.Start? {
      StartEndsWithHead(cfg, st, r);
    } else if st.synchronized && r.input.End? {
      EndEndsWithHead(cfg, st, r);
    } else if st.synchronized && (r.input.Qc? || r.input.Finalize?) {
      ConsensusEndsWithHead(cfg, st, r);
    } else if st.synchronized && r.input.Verify? {
      VerifyEndsWithHead(cfg, st, r);
    }
  }

  lemma RealtimeStays(cfg: Config, st: State, r: Record)
    requires Invariant(cfg, st) && RealtimeActive(cfg, st) && Process(cfg, st, r).Ok?
    ensures RealtimeActive(cfg, Process(cfg, st, r).value.0)
  {
    if !r.input.Start? && !r.input.Log? && !r.input.SkippedLog? && !r.input.End? {
      ConsensusActive(cfg, st, r);
    }
  }

  lemma {:induction false} RunRealtime(cfg: Config, st: State, records: seq<Record>)
    requires Invariant(cfg, st) && RealtimeActive(cfg, st) && Run(cfg, st, records).Ok?
    ensures RealtimeActive(cfg, Run(cfg, st, records).value.0)
    decreases |records|
  {
    if records != [] {
      ProcessKeeps(cfg, st, records[0]);
      RealtimeStays(cfg, st, records[0]);
      RunRealtime(cfg, Process(cfg, st, records[0]).value.0, records[1..]);
    }
  }

  /**
   * In every run each record emits at most one head, as its last event: a start
   * in realtime, an end unless delivery is finalized, a first vote unless it is,
   * a finalization and a verification always, each for its own block.
   */
  lemma HeadsAreLast(cfg: Config, st: State, records: seq<Record>, k: nat)
    requires Initial(st) && Run(cfg, st, records).Ok? && k < |records|
    ensures var u := At(cfg, st, records, k);
      Process(cfg, u, records[k]).Ok? && EndsWith(Process(cfg, u, records[k]).value.1, HeadDue(cfg, u, records[k]))
  {
    assert records[..k] + records[k..] == records;
    RunSplits(cfg, st, records[..k], records[k..]);
    RunRealtime(cfg, st, records[..k]);
    var pre, post := OutputAround(cfg, st, records, k);
    RecordEndsWithHead(cfg, At(cfg, st, records, k), records[k]);
  }

  // ---- Log numbers ----

  /** Log records, skipped ones included, since the last start. */
  function SinceStart(records: seq<Record>): nat {
    if records == [] then 0
    else
      var last := records[|records| - 1].input;
      if last.Start? then 0
      else SinceStart(records[..|records| - 1]) + if last.Log? || last.SkippedLog? then 1 else 0
  }

  lemma OneRun(cfg: Config, st: State, r: Record)
    requires Run(cfg, st, [r]).Ok?
    ensures Process(cfg, st, r).Ok? && Run(cfg, st, [r]).value.0 == Process(cfg, st, r).value.0
  {
    assert [r][1..] == [];
  }

  /** One record's effect on the next log index. */
  lemma NextIndex(cfg: Config, st: State, r: Record)
    requires Invariant(cfg, st) && Process(cfg, st, r).Ok? && (st.active.Some? ==> st.synchronized)
    ensures var u := Process(cfg, st, r).value.0;
      u.active.Some? ==>
        && u.synchronized
        && (!r.input.Start? ==> st.active.Some?)
        && u.active.value.nextLogIndex ==
          if r.input.Start? then 0
          else st.active.value.nextLogIndex + if r.input.Log? || r.input.SkippedLog? then 1 else 0
  {
    if !r.input.Start? && !r.input.Log? && !r.input.SkippedLog? && !r.input.End? {
      ConsensusActive(cfg, st, r);
      if st.active.Some? {
        StaysSynchronized(cfg, st, r);
      }
    }
  }

  lemma StaysSynchronized(cfg: Config, st: State, r: Record)
    requires Invariant(cfg, st) && Process(cfg, st, r).Ok? && st.synchronized
    ensures Process(cfg, st, r).value.0.synchronized
  {
    if r.input.Finalize? {
      FinalizeRecord(cfg, st, r);
      if r.input.id in st.proposals {
        FinalizeSynchronized(cfg, st, r.sequence, r.input.id, r.input.blockNumber);
      }
    }
  }

  lemma FinalizeSynchronized(cfg: Config, st: State, sequence: nat, id: Hash, h: nat)
    requires Invariant(cfg, st) && id in st.proposals && FinalizeStep(cfg, st, sequence, id, h).Ok?
    ensures FinalizeStep(cfg, st, sequence, id, h).value.0.synchronized == st.synchronized
  {
    FinalizeUnfolds(cfg, st, sequence, id, h);
    EmptiedKeeps(cfg, st, sequence, id);
    var next := Emptied(cfg, st, sequence, id);
    RemoveAllEffect(next.(byHeight := next.byHeight[h := [id]]), Others(next.byHeight[h], id));
  }

  /**
   * At every moment of every run the next log of the executing proposal gets the
   * number of log records since its start, skipped ones included.
   */
  lemma {:induction false} LogsAreNumbered(cfg: Config, st: State, records: seq<Record>)
    requires Initial(st) && Run(cfg, st, records).Ok?
    ensures var u := Run(cfg, st, records).value.0;
      u.active.Some? ==> u.synchronized && u.active.value.nextLogIndex == SinceStart(records)
    decreases |records|
  {
    if records != [] {
      var n := |records| - 1;
      assert records == records[..n] + [records[n]];
      RunSplits(cfg, st, records[..n], [records[n]]);
      LogsAreNumbered(cfg, st, records[..n]);
      BudgetsAreExact(cfg, st, records[..n]);
      var s := Run(cfg, st, records[..n]).value.0;
      OneRun(cfg, s, records[n]);
      NextIndex(cfg, s, records[n]);
    }
  }
}
