/**
 * Finalized delivery: every buffered log leaves exactly once when its proposal
 * is finalized, and never otherwise.
 */
module LifecycleDelivery {
  import opened Chain
  import opened Lifecycle
  import opened LifecycleBudget

  /** In finalized delivery nothing is published early and a finalized buffer is empty. */
  ghost predicate Quiet(st: State) {
    && QuietActive(st.active)
    && QuietProposals(st.proposals)
    && PublishedSettled(st.proposals, st.published)
  }

  ghost predicate QuietActive(a: Option<ActiveProposal>) {
    a.Some? ==> a.value.publishedCommitment.None? && InOrder(a.value.logs, a.value.nextLogIndex)
  }

  ghost predicate QuietProposals(ps: map<Hash, Proposal>) {
    forall id :: id in ps ==> Waiting(ps[id]) || Delivered(ps[id])
  }

  /** What is published at a height is the live proposal finalized there. */
  ghost predicate PublishedSettled(ps: map<Hash, Proposal>, published: map<nat, Hash>) {
    forall h :: h in published ==> SettledAt(ps, published[h], h)
  }

  /** Log indices increase strictly and stay below a bound. */
  predicate InOrder(logs: seq<ExecutionLog>, bound: nat) {
    && (forall i, j :: 0 <= i < j < |logs| ==> logs[i].logIndex < logs[j].logIndex)
    && (forall i :: 0 <= i < |logs| ==> logs[i].logIndex < bound)
  }

  ghost predicate Waiting(p: Proposal) {
    !p.stage.Settled? && p.publishedCommitment.None? && exists bound :: InOrder(p.logs, bound)
  }

  predicate Delivered(p: Proposal) {
    p.stage.Settled? && p.logs == []
  }

  // ---- Logs among events ----

  predicate NoLogs(events: seq<Event>) {
    forall i :: 0 <= i < |events| ==> !events[i].LogEvent?
  }

  /** Applied copies of a log in an output. */
  function Applied(events: seq<Event>, x: ExecutionLog): nat {
    if events == [] then 0
    else
      var e := events[|events| - 1];
      Applied(events[..|events| - 1], x) + (if e.LogEvent? && !e.log.removed && Core(e.log) == x then 1 else 0)
  }

  lemma {:induction false} AppliedConcat(a: seq<Event>, b: seq<Event>, x: ExecutionLog)
    ensures Applied(a + b, x) == Applied(a, x) + Applied(b, x)
    decreases |b|
  {
    if b == [] {
      assert a + b == a;
    } else {
      AppliedConcat(a, b[..|b| - 1], x);
      assert (a + b)[..|a + b| - 1] == a + b[..|b| - 1];
    }
  }

  lemma {:induction false} NoLogsApplied(events: seq<Event>, x: ExecutionLog)
    requires NoLogs(events)
    ensures Applied(events, x) == 0
    decreases |events|
  {
    if events != [] {
      NoLogsApplied(events[..|events| - 1], x);
    }
  }

  lemma {:induction false} MaterializedApplied(logs: seq<ExecutionLog>, hash: Hash, c: Commitment, x: ExecutionLog)
    ensures Applied(LogEvents(logs, None, hash, c, false), x) == Copies(logs, x)
    decreases |logs|
  {
    if logs != [] {
      var n := |logs| - 1;
      MaterializedApplied(logs[..n], hash, c, x);
      assert LogEvents(logs, None, hash, c, false)[..n] == LogEvents(logs[..n], None, hash, c, false);
    }
  }

  lemma {:induction false} HashKeepsCopies(logs: seq<ExecutionLog>, hash: Hash, x: ExecutionLog)
    ensures Copies(WithHash(logs, hash), x) == Copies(logs, x)
    decreases |logs|
  {
    if logs != [] {
      var n := |logs| - 1;
      HashKeepsCopies(logs[..n], hash, x);
      assert WithHash(logs, hash)[..n] == WithHash(logs[..n], hash);
    }
  }

  // ---- The finalization record ----

  /** The applied logs of a block: as they were buffered, under its hash and commitment. */
  function Stamped(logs: seq<ExecutionLog>, hash: Hash, c: Commitment): seq<Event> {
    seq(|logs|, i requires 0 <= i < |logs| =>
      LogEvent(logs[i].(blockHash := Some(hash), commitment := c, removed := false)))
  }

  lemma StampedLogs(logs: seq<ExecutionLog>, hash: Hash, c: Commitment)
    ensures LogEvents(logs, None, hash, c, false) == Stamped(logs, hash, c)
  {
  }

  /** Output of finalizing a live proposal: at most a reorg notice, its logs, its head. */
  ghost predicate DeliversBefore(output: seq<Event>, p: Proposal, sequence: nat) {
    exists notice: seq<Event> ::
      && output == notice + Stamped(p.logs, p.blockHash, Finalized)
        + [HeadEvent(HeadOf(p, sequence, Finalized))]
      && NoLogs(notice)
  }

  lemma SwitchIsSilent(cfg: Config, st: State, sequence: nat, id: Hash, head: ExecutionHead)
    requires forall h :: h in st.published && st.published[h] in st.proposals && st.published[h] != id ==>
      st.proposals[st.published[h]].logs == []
    ensures NoLogs(SwitchBranch(cfg, st, sequence, id, head))
  {
  }

  /** What finalizing a waiting proposal emits: its logs in increasing index, directly before its head. */
  lemma FinalizeDelivers(cfg: Config, st: State, sequence: nat, id: Hash, h: nat)
    requires cfg.delivery.FinalizedDelivery? && Quiet(st) && id in st.proposals
    requires FinalizeStep(cfg, st, sequence, id, h).Ok?
    ensures Waiting(st.proposals[id]) && st.proposals[id].blockNumber == h
    ensures DeliversBefore(FinalizeStep(cfg, st, sequence, id, h).value.1, st.proposals[id], sequence)
  {
    var p, settled := st.proposals[id], Advance(st, sequence, id, Settled);
    var q := settled.proposals[id];
    var head := HeadOf(q, sequence, Finalized);
    SwitchIsSilent(cfg, settled, sequence, id, head);
    StampedLogs(p.logs, p.blockHash, Finalized);
    assert head == HeadOf(p, sequence, Finalized);
    assert Publish(cfg, settled, sequence, id, Finalized).value.1
      == SwitchBranch(cfg, settled, sequence, id, head)
        + LogEvents(p.logs, None, p.blockHash, Finalized, false) + [HeadEvent(head)];
  }

  lemma DeliveredCopies(output: seq<Event>, p: Proposal, sequence: nat, x: ExecutionLog)
    requires DeliversBefore(output, p, sequence)
    ensures Applied(output, x) == Copies(p.logs, x)
  {
    var logs := Stamped(p.logs, p.blockHash, Finalized);
    var head := [HeadEvent(HeadOf(p, sequence, Finalized))];
    var notice: seq<Event> :| output == notice + logs + head && NoLogs(notice);
    AppliedConcat(notice + logs, head, x);
    AppliedConcat(notice, logs, x);
    NoLogsApplied(notice, x);
    NoLogsApplied(head, x);
    StampedLogs(p.logs, p.blockHash, Finalized);
    MaterializedApplied(p.logs, p.blockHash, Finalized, x);
  }

  // ---- Competitors ----

  /** Sum over a list of proposals. */
  function SumSizes(ps: map<Hash, Proposal>, ids: seq<Hash>, m: Measure): nat {
    if ids == [] then 0
    else (if ids[0] in ps then SizeOf(ps[ids[0]], m) else 0) + SumSizes(ps, ids[1..], m)
  }

  lemma {:induction false} SumIgnores(ps: map<Hash, Proposal>, ids: seq<Hash>, id: Hash, m: Measure)
    requires id !in ids
    ensures SumSizes(ps - {id}, ids, m) == SumSizes(ps, ids, m)
  {
    if ids != [] {
      SumIgnores(ps, ids[1..], id, m);
    }
  }

  lemma {:induction false} RemoveAllTotal(st: State, ids: seq<Hash>, m: Measure)
    requires Distinct(ids)
    ensures Total(RemoveAll(st, ids).proposals, m) + SumSizes(st.proposals, ids, m) == Total(st.proposals, m)
    decreases |ids|
  {
    if ids != [] {
      var v := RemoveProposal(st, ids[0]);
      RemoveAllTotal(v, ids[1..], m);
      SumIgnores(st.proposals, ids[1..], ids[0], m);
      if ids[0] in st.proposals {
        TotalRemove(st.proposals, ids[0], m);
      } else {
        assert st.proposals - {ids[0]} == st.proposals;
      }
    }
  }

  lemma {:induction false} OthersDistinct(ids: seq<Hash>, id: Hash)
    requires Distinct(ids)
    ensures Distinct(Others(ids, id))
  {
    if ids != [] {
      OthersDistinct(ids[1..], id);
      OthersAre(ids[1..], id);
      assert ids[0] !in ids[1..];
    }
  }

  // ---- One record keeps finalized delivery quiet ----

  lemma CompletedWaits(a: ActiveProposal, sequence: nat, hash: Hash)
    requires QuietActive(Some(a))
    ensures Waiting(Completed(a, sequence, hash))
  {
    assert InOrder(WithHash(a.logs, hash), a.nextLogIndex);
  }

  lemma EndQuiet(cfg: Config, st: State, sequence: nat, block: Option<nat>, hash: Hash)
    requires cfg.delivery.FinalizedDelivery? && Quiet(st) && EndStep(cfg, st, sequence, block, hash).Ok?
    ensures Quiet(EndStep(cfg, st, sequence, block, hash).value.0)
  {
    CompletedWaits(st.active.value, sequence, hash);
  }

  lemma QcQuiet(cfg: Config, st: State, sequence: nat, id: Hash, h: nat)
    requires cfg.delivery.FinalizedDelivery? && Quiet(st) && QcStep(cfg, st, sequence, id, h).Ok?
    ensures Quiet(QcStep(cfg, st, sequence, id, h).value.0)
  {
  }

  /** The state between publishing a finalized proposal and dropping its competitors. */
  function Emptied(cfg: Config, st: State, sequence: nat, id: Hash): State
    requires id in st.proposals
  {
    Publish(cfg, Advance(st, sequence, id, Settled), sequence, id, Finalized).value.0
  }

  /** What publishing a finalized proposal changes, counters aside. */
  predicate EmptiesOne(st: State, u: State, id: Hash, h: nat) {
    && id in st.proposals && st.proposals[id].blockNumber == h
    && id in u.proposals && u.proposals == st.proposals[id := u.proposals[id]]
    && Delivered(u.proposals[id]) && u.proposals[id].blockNumber == h
    && u.published == st.published[h := id] && u.active == st.active && u.byHeight == st.byHeight
  }

  lemma EmptiedIs(cfg: Config, st: State, sequence: nat, id: Hash)
    requires id in st.proposals
    ensures EmptiesOne(st, Emptied(cfg, st, sequence, id), id, st.proposals[id].blockNumber)
  {
  }

  lemma EmptiedKeeps(cfg: Config, st: State, sequence: nat, id: Hash)
    requires Accounted(cfg, st) && id in st.proposals
    ensures Accounted(cfg, Emptied(cfg, st, sequence, id))
  {
    AdvanceKeeps(cfg, st, sequence, id, Settled);
    PublishKeeps(cfg, Advance(st, sequence, id, Settled), sequence, id, Finalized);
  }

  lemma DropFrames(cfg: Config, st: State, id: Hash, h: nat)
    requires Accounted(cfg, st) && h in st.byHeight
    ensures DropCompetitors(st, id, h).published == st.published && DropCompetitors(st, id, h).active == st.active
  {
    RemoveAllEffect(st.(byHeight := st.byHeight[h := [id]]), Others(st.byHeight[h], id));
  }

  /** A finalization of `id` from `st` to `u` leaves other heights alone and only the emptied `id` at its own. */
  ghost predicate Pruned(st: State, u: State, id: Hash, h: nat) {
    && id in u.proposals && Delivered(u.proposals[id]) && u.proposals[id].blockNumber == h
    && (forall x :: x in u.proposals <==> x in st.proposals && (st.proposals[x].blockNumber == h ==> x == id))
    && (forall x :: x in u.proposals && x != id ==> u.proposals[x] == st.proposals[x])
    && u.published == st.published[h := id] && u.active == st.active
  }

  function Dropped(st: State, id: Hash, h: nat): State
    requires h in st.byHeight
  {
    var pruned := DropCompetitors(st, id, h);
    pruned.(published := pruned.published[h := id])
  }

  lemma FinalizeUnfolds(cfg: Config, st: State, sequence: nat, id: Hash, h: nat)
    requires id in st.proposals && FinalizeStep(cfg, st, sequence, id, h).Ok?
    ensures st.proposals[id].blockNumber == h && !st.proposals[id].stage.Settled?
    ensures h in Emptied(cfg, st, sequence, id).byHeight
    ensures FinalizeStep(cfg, st, sequence, id, h).value.0 == Dropped(Emptied(cfg, st, sequence, id), id, h)
  {
  }

  lemma FinalizeRecord(cfg: Config, st: State, r: Record)
    requires st.synchronized && r.input.Finalize?
    ensures Process(cfg, st, r) == FinalizeStep(cfg, st, r.sequence, r.input.id, r.input.blockNumber)
  {
    assert st == st.(synchronized := true);
  }

  lemma PruneComposes(st: State, next: State, u: State, id: Hash, h: nat)
    requires EmptiesOne(st, next, id, h)
    requires forall x :: x in u.proposals <==> x in next.proposals && (next.proposals[x].blockNumber == h ==> x == id)
    requires forall x :: x in u.proposals ==> u.proposals[x] == next.proposals[x]
    requires u.published == next.published && u.active == next.active
    ensures Pruned(st, u.(published := u.published[h := id]), id, h)
  {
    assert u.published[h := id] == st.published[h := id];
  }

  lemma DropPrunes(cfg: Config, st: State, next: State, id: Hash, h: nat)
    requires Accounted(cfg, next) && EmptiesOne(st, next, id, h)
    ensures h in next.byHeight
    ensures Pruned(st, Dropped(next, id, h), id, h)
  {
    DropKeeps(cfg, next, id, h);
    DropFrames(cfg, next, id, h);
    PruneComposes(st, next, DropCompetitors(next, id, h), id, h);
  }

  lemma FinalizePrunes(cfg: Config, st: State, sequence: nat, id: Hash, h: nat)
    requires Invariant(cfg, st) && id in st.proposals && FinalizeStep(cfg, st, sequence, id, h).Ok?
    ensures Pruned(st, FinalizeStep(cfg, st, sequence, id, h).value.0, id, h)
  {
    FinalizeUnfolds(cfg, st, sequence, id, h);
    EmptiedIs(cfg, st, sequence, id);
    EmptiedKeeps(cfg, st, sequence, id);
    DropPrunes(cfg, st, Emptied(cfg, st, sequence, id), id, h);
  }

  lemma FinalizeQuiet(cfg: Config, st: State, sequence: nat, id: Hash, h: nat)
    requires Invariant(cfg, st) && Quiet(st) && FinalizeStep(cfg, st, sequence, id, h).Ok?
    ensures Quiet(FinalizeStep(cfg, st, sequence, id, h).value.0)
  {
    if id in st.proposals {
      FinalizePrunes(cfg, st, sequence, id, h);
    }
  }

  lemma VerifyQuiet(cfg: Config, st: State, sequence: nat, h: nat)
    requires Invariant(cfg, st) && Quiet(st) && VerifyStep(st, sequence, h).Ok?
    ensures Quiet(VerifyStep(st, sequence, h).value.0)
  {
    if h in st.byHeight {
      assert st.byHeight[h][0] in st.byHeight[h];
    }
  }

  lemma StartQuiet(cfg: Config, st: State, sequence: nat, id: Hash, blockNumber: nat, parentHash: Hash)
    requires cfg.delivery.FinalizedDelivery? && Quiet(st)
    requires StartStep(cfg, st, sequence, id, blockNumber, parentHash).Ok?
    ensures Quiet(StartStep(cfg, st, sequence, id, blockNumber, parentHash).value.0)
  {
  }

  lemma LogQuiet(cfg: Config, st: State, sequence: nat, block: Option<nat>, input: Input)
    requires cfg.delivery.FinalizedDelivery? && Quiet(st) && input.Log? && LogStep(cfg, st, sequence, block, input).Ok?
    ensures Quiet(LogStep(cfg, st, sequence, block, input).value.0)
  {
  }

  lemma SkippedQuiet(st: State, block: Option<nat>)
    requires Quiet(st) && NextLogIndex(st, block).Ok?
    ensures Quiet(NextLogIndex(st, block).value)
  {
  }

  lemma SynchronizedQuiet(st: State)
    ensures Quiet(st.(synchronized := true)) <==> Quiet(st)
  {
  }

  lemma ExecutionQuiet(cfg: Config, st: State, r: Record)
    requires cfg.delivery.FinalizedDelivery? && Quiet(st) && Process(cfg, st, r).Ok?
    requires r.input.Start? || r.input.Log? || r.input.SkippedLog? || r.input.End?
    ensures Quiet(Process(cfg, st, r).value.0)
  {
    var s := st.(synchronized := true);
    SynchronizedQuiet(st);
    if r.input.Start? {
      StartQuiet(cfg, s, r.sequence, r.input.id, r.input.blockNumber, r.input.parentHash);
    } else if st.synchronized {
      if r.input.Log? {
        LogQuiet(cfg, s, r.sequence, r.blockNumber, r.input);
      } else if r.input.SkippedLog? {
        SkippedQuiet(s, r.blockNumber);
      } else {
        EndQuiet(cfg, s, r.sequence, r.blockNumber, r.input.blockHash);
      }
    }
  }

  lemma ConsensusQuiet(cfg: Config, st: State, r: Record)
    requires cfg.delivery.FinalizedDelivery? && Invariant(cfg, st) && Quiet(st) && Process(cfg, st, r).Ok?
    requires r.input.Qc? || r.input.Finalize? || r.input.Verify?
    ensures Quiet(Process(cfg, st, r).value.0)
  {
    var s := st.(synchronized := true);
    SynchronizedQuiet(st);
    SynchronizedInvariant(cfg, st);
    if st.synchronized {
      if r.input.Qc? {
        QcQuiet(cfg, s, r.sequence, r.input.id, r.input.blockNumber);
      } else if r.input.Finalize? {
        FinalizeQuiet(cfg, s, r.sequence, r.input.id, r.input.blockNumber);
      } else {
        VerifyQuiet(cfg, s, r.sequence, r.input.blockNumber);
      }
    }
  }

  lemma ProcessQuiet(cfg: Config, st: State, r: Record)
    requires cfg.delivery.FinalizedDelivery? && Invariant(cfg, st) && Quiet(st) && Process(cfg, st, r).Ok?
    ensures Quiet(Process(cfg, st, r).value.0)
  {
    if r.input.Start? || r.input.Log? || r.input.SkippedLog? || r.input.End? {
      ExecutionQuiet(cfg, st, r);
    } else if r.input.Qc? || r.input.Finalize? || r.input.Verify? {
      ConsensusQuiet(cfg, st, r);
    } else {
      SynchronizedQuiet(st);
    }
  }

  // ---- Conservation ----

  /** Copies of a log still buffered. */
  ghost function Held(st: State, x: ExecutionLog): nat {
    ActiveSize(st.active, CopiesOf(x)) + Total(st.proposals, CopiesOf(x))
  }

  /** Whether a record hands in the log `x`. */
  function AcceptedIn(st: State, r: Record, x: ExecutionLog): nat {
    if st.synchronized && r.input.Log? && st.active.Some? && Core(BuildLog(st.active.value, r.sequence, r.input)) == x
    then 1 else 0
  }

  /** The live proposal a record finalizes. */
  predicate Finalizes(st: State, r: Record, id: Hash) {
    st.synchronized && r.input.Finalize? && r.input.id == id && id in st.proposals
  }

  /** Copies of `x` buffered in competitors of the proposal a record finalizes. */
  function DiscardedIn(st: State, r: Record, x: ExecutionLog): nat {
    if r.input.Finalize? && Finalizes(st, r, r.input.id) && r.input.blockNumber in st.byHeight
    then SumSizes(st.proposals, Others(st.byHeight[r.input.blockNumber], r.input.id), CopiesOf(x))
    else 0
  }

  lemma EndConserves(cfg: Config, st: State, sequence: nat, block: Option<nat>, hash: Hash, x: ExecutionLog)
    requires cfg.delivery.FinalizedDelivery? && EndStep(cfg, st, sequence, block, hash).Ok?
    ensures Held(EndStep(cfg, st, sequence, block, hash).value.0, x) == Held(st, x)
    ensures EndStep(cfg, st, sequence, block, hash).value.1 == []
  {
    var a := st.active.value;
    HashKeepsCopies(a.logs, hash, x);
    TotalInsert(st.proposals, a.id, Completed(a, sequence, hash), CopiesOf(x));
  }

  lemma LogConserves(cfg: Config, st: State, sequence: nat, block: Option<nat>, input: Input, x: ExecutionLog)
    requires cfg.delivery.FinalizedDelivery? && input.Log? && LogStep(cfg, st, sequence, block, input).Ok?
    ensures Held(LogStep(cfg, st, sequence, block, input).value.0, x)
      == Held(st, x) + (if Core(BuildLog(st.active.value, sequence, input)) == x then 1 else 0)
    ensures LogStep(cfg, st, sequence, block, input).value.1 == []
  {
    var a, b := st.active.value.logs, LogStep(cfg, st, sequence, block, input).value.0.active.value.logs;
    assert b[..|b| - 1] == a;
  }

  lemma QcConserves(cfg: Config, st: State, sequence: nat, id: Hash, h: nat, x: ExecutionLog)
    requires cfg.delivery.FinalizedDelivery? && QcStep(cfg, st, sequence, id, h).Ok?
    ensures Held(QcStep(cfg, st, sequence, id, h).value.0, x) == Held(st, x)
    ensures QcStep(cfg, st, sequence, id, h).value.1 == []
  {
    if id in st.proposals {
      TotalUpdate(st.proposals, id, st.proposals[id].(stage := Voted, lastSequence := sequence), CopiesOf(x));
    }
  }

  lemma VerifyConserves(cfg: Config, st: State, sequence: nat, h: nat, x: ExecutionLog)
    requires Quiet(st) && VerifyStep(st, sequence, h).Ok?
    ensures Held(VerifyStep(st, sequence, h).value.0, x) == Held(st, x)
    ensures NoLogs(VerifyStep(st, sequence, h).value.1)
  {
    if h in st.byHeight {
      TotalRemove(st.proposals, st.byHeight[h][0], CopiesOf(x));
    }
  }

  lemma {:induction false} SumUpdated(ps: map<Hash, Proposal>, ids: seq<Hash>, id: Hash, p: Proposal, m: Measure)
    requires id !in ids
    ensures SumSizes(ps[id := p], ids, m) == SumSizes(ps, ids, m)
  {
    if ids != [] {
      SumUpdated(ps, ids[1..], id, p, m);
    }
  }

  lemma DroppedTotal(st: State, id: Hash, h: nat, m: Measure)
    requires h in st.byHeight && Distinct(st.byHeight[h])
    ensures Total(Dropped(st, id, h).proposals, m) + SumSizes(st.proposals, Others(st.byHeight[h], id), m)
      == Total(st.proposals, m)
  {
    OthersDistinct(st.byHeight[h], id);
    RemoveAllTotal(st.(byHeight := st.byHeight[h := [id]]), Others(st.byHeight[h], id), m);
  }

  /** Publishing moves the winner's copies out; dropping the competitors discards theirs. */
  lemma EmptiedTotals(st: State, next: State, id: Hash, h: nat, x: ExecutionLog)
    requires EmptiesOne(st, next, id, h) && h in st.byHeight && Distinct(st.byHeight[h])
    ensures Total(Dropped(next, id, h).proposals, CopiesOf(x))
      + SumSizes(st.proposals, Others(st.byHeight[h], id), CopiesOf(x)) + Copies(st.proposals[id].logs, x)
      == Total(st.proposals, CopiesOf(x))
  {
    TotalUpdate(st.proposals, id, next.proposals[id], CopiesOf(x));
    OthersAre(st.byHeight[h], id);
    SumUpdated(st.proposals, Others(st.byHeight[h], id), id, next.proposals[id], CopiesOf(x));
    DroppedTotal(next, id, h, CopiesOf(x));
  }

  lemma FinalizeConserves(cfg: Config, st: State, sequence: nat, id: Hash, h: nat, x: ExecutionLog)
    requires cfg.delivery.FinalizedDelivery? && Invariant(cfg, st) && Quiet(st)
    requires id in st.proposals && FinalizeStep(cfg, st, sequence, id, h).Ok?
    ensures h in st.byHeight
    ensures Held(FinalizeStep(cfg, st, sequence, id, h).value.0, x)
      + Applied(FinalizeStep(cfg, st, sequence, id, h).value.1, x)
      + SumSizes(st.proposals, Others(st.byHeight[h], id), CopiesOf(x)) == Held(st, x)
  {
    FinalizeUnfolds(cfg, st, sequence, id, h);
    FinalizeDelivers(cfg, st, sequence, id, h);
    DeliveredCopies(FinalizeStep(cfg, st, sequence, id, h).value.1, st.proposals[id], sequence, x);
    FinalizePrunes(cfg, st, sequence, id, h);
    EmptiedIs(cfg, st, sequence, id);
    EmptiedTotals(st, Emptied(cfg, st, sequence, id), id, h, x);
  }

  /** What was held or came in is held, applied or discarded afterwards. */
  ghost predicate Conserved(st: State, r: Record, u: State, output: seq<Event>, x: ExecutionLog) {
    Held(u, x) + Applied(output, x) + DiscardedIn(st, r, x) == Held(st, x) + AcceptedIn(st, r, x)
  }

  lemma FinalizeRecordConserves(cfg: Config, st: State, r: Record, x: ExecutionLog)
    requires cfg.delivery.FinalizedDelivery? && Invariant(cfg, st) && Quiet(st) && Process(cfg, st, r).Ok?
    requires st.synchronized && r.input.Finalize? && r.input.id in st.proposals
    ensures Conserved(st, r, Process(cfg, st, r).value.0, Process(cfg, st, r).value.1, x)
  {
    assert st == st.(synchronized := true);
    FinalizeConserves(cfg, st, r.sequence, r.input.id, r.input.blockNumber, x);
  }

  lemma OtherRecordConserves(cfg: Config, st: State, r: Record, x: ExecutionLog)
    requires cfg.delivery.FinalizedDelivery? && Quiet(st) && Process(cfg, st, r).Ok?
    requires !(r.input.Finalize? && Finalizes(st, r, r.input.id))
    ensures Conserved(st, r, Process(cfg, st, r).value.0, Process(cfg, st, r).value.1, x)
    ensures NoLogs(Process(cfg, st, r).value.1)
  {
    var s := st.(synchronized := true);
    if st.synchronized {
      match r.input
      case End(hash) => EndConserves(cfg, s, r.sequence, r.blockNumber, hash, x);
      case Qc(id, h) => QcConserves(cfg, s, r.sequence, id, h, x);
      case Verify(h) =>
        VerifyConserves(cfg, s, r.sequence, h, x);
        NoLogsApplied(Process(cfg, st, r).value.1, x);
      case Log(_, _, _, _, _) => LogConserves(cfg, s, r.sequence, r.blockNumber, r.input, x);
      case _ =>
    }
  }

  /** Every accepted record conserves every log, and only finalizing a live proposal emits logs. */
  lemma ProcessConserves(cfg: Config, st: State, r: Record, x: ExecutionLog)
    requires cfg.delivery.FinalizedDelivery? && Invariant(cfg, st) && Quiet(st) && Process(cfg, st, r).Ok?
    ensures Conserved(st, r, Process(cfg, st, r).value.0, Process(cfg, st, r).value.1, x)
    ensures !(r.input.Finalize? && Finalizes(st, r, r.input.id)) ==> NoLogs(Process(cfg, st, r).value.1)
  {
    if r.input.Finalize? && Finalizes(st, r, r.input.id) {
      FinalizeRecordConserves(cfg, st, r, x);
    } else {
      OtherRecordConserves(cfg, st, r, x);
    }
  }

  /** A completed proposal is still there with the same buffer. */
  ghost predicate Stays(st: State, u: State, id: Hash) {
    id in st.proposals && id in u.proposals && Waiting(u.proposals[id]) && u.proposals[id].logs == st.proposals[id].logs
  }

  /**
   * The fate of a proposal when a record finalizes a live one: the finalized
   * proposal's logs are emitted before its head and its buffer is emptied, its
   * competitors at the height are dropped, and other heights keep theirs.
   */
  lemma FateAtFinalization(cfg: Config, st: State, r: Record, id: Hash)
    requires cfg.delivery.FinalizedDelivery? && Invariant(cfg, st) && Quiet(st) && Process(cfg, st, r).Ok?
    requires id in st.proposals && Waiting(st.proposals[id])
    requires r.input.Finalize? && Finalizes(st, r, r.input.id)
    ensures DeliversBefore(Process(cfg, st, r).value.1, st.proposals[r.input.id], r.sequence)
    ensures var u := Process(cfg, st, r).value.0;
      if r.input.id == id then id in u.proposals && Delivered(u.proposals[id])
      else if r.input.blockNumber == st.proposals[id].blockNumber then id !in u.proposals
      else Stays(st, u, id)
  {
    assert st == st.(synchronized := true);
    FinalizePrunes(cfg, st, r.sequence, r.input.id, r.input.blockNumber);
    FinalizeDelivers(cfg, st, r.sequence, r.input.id, r.input.blockNumber);
  }

  lemma EndStays(cfg: Config, st: State, sequence: nat, block: Option<nat>, hash: Hash, id: Hash)
    requires cfg.delivery.FinalizedDelivery? && EndStep(cfg, st, sequence, block, hash).Ok?
    requires id in st.proposals && Waiting(st.proposals[id])
    ensures Stays(st, EndStep(cfg, st, sequence, block, hash).value.0, id)
  {
  }

  lemma QcStays(cfg: Config, st: State, sequence: nat, voted: Hash, h: nat, id: Hash)
    requires cfg.delivery.FinalizedDelivery? && QcStep(cfg, st, sequence, voted, h).Ok?
    requires id in st.proposals && Waiting(st.proposals[id])
    ensures Stays(st, QcStep(cfg, st, sequence, voted, h).value.0, id)
  {
  }

  lemma VerifyStays(st: State, sequence: nat, h: nat, id: Hash)
    requires VerifyStep(st, sequence, h).Ok?
    requires id in st.proposals && Waiting(st.proposals[id])
    ensures Stays(st, VerifyStep(st, sequence, h).value.0, id)
  {
  }

  /** No other record touches a waiting buffer. */
  lemma FateElsewhere(cfg: Config, st: State, r: Record, id: Hash)
    requires cfg.delivery.FinalizedDelivery? && Process(cfg, st, r).Ok?
    requires id in st.proposals && Waiting(st.proposals[id])
    requires r.input.Finalize? ==> !Finalizes(st, r, r.input.id)
    ensures Stays(st, Process(cfg, st, r).value.0, id)
  {
    var s := st.(synchronized := true);
    if st.synchronized {
      match r.input
      case End(hash) => EndStays(cfg, s, r.sequence, r.blockNumber, hash, id);
      case Qc(voted, h) => QcStays(cfg, s, r.sequence, voted, h, id);
      case Verify(h) => VerifyStays(s, r.sequence, h, id);
      case _ =>
    }
  }

  // ---- Runs ----

  ghost function Accepted(cfg: Config, st: State, records: seq<Record>, x: ExecutionLog): nat
    requires Run(cfg, st, records).Ok?
    decreases |records|
  {
    if records == [] then 0
    else AcceptedIn(st, records[0], x) + Accepted(cfg, Process(cfg, st, records[0]).value.0, records[1..], x)
  }

  ghost function Discarded(cfg: Config, st: State, records: seq<Record>, x: ExecutionLog): nat
    requires Run(cfg, st, records).Ok?
    decreases |records|
  {
    if records == [] then 0
    else DiscardedIn(st, records[0], x) + Discarded(cfg, Process(cfg, st, records[0]).value.0, records[1..], x)
  }

  lemma {:induction false} RunConserves(cfg: Config, st: State, records: seq<Record>, x: ExecutionLog)
    requires cfg.delivery.FinalizedDelivery? && Invariant(cfg, st) && Quiet(st) && Run(cfg, st, records).Ok?
    ensures Held(Run(cfg, st, records).value.0, x) + Applied(Run(cfg, st, records).value.1, x)
      + Discarded(cfg, st, records, x) == Held(st, x) + Accepted(cfg, st, records, x)
    decreases |records|
  {
    if records != [] {
      var first := Process(cfg, st, records[0]).value;
      ProcessKeeps(cfg, st, records[0]);
      ProcessQuiet(cfg, st, records[0]);
      ProcessConserves(cfg, st, records[0], x);
      RunConserves(cfg, first.0, records[1..], x);
      AppliedConcat(first.1, Run(cfg, first.0, records[1..]).value.1, x);
    }
  }

  predicate Increasing(records: seq<Record>) {
    forall i, j :: 0 <= i < j < |records| ==> records[i].sequence < records[j].sequence
  }

  /** A log carries the sequence of the record that brought it. */
  lemma {:induction false} AcceptedOnce(cfg: Config, st: State, records: seq<Record>, x: ExecutionLog)
    requires Run(cfg, st, records).Ok? && Increasing(records)
    ensures Accepted(cfg, st, records, x) <= 1
    ensures Accepted(cfg, st, records, x) == 1 ==> exists i :: 0 <= i < |records| && records[i].sequence == x.sequence
    decreases |records|
  {
    if records != [] {
      AcceptedOnce(cfg, Process(cfg, st, records[0]).value.0, records[1..], x);
      assert AcceptedIn(st, records[0], x) == 1 ==> records[0].sequence == x.sequence;
      assert forall i :: 0 <= i < |records| - 1 ==> records[1..][i] == records[i + 1];
    }
  }

  /**
   * Finalized delivery over every run of accepted records: each copy of a log
   * handed in was applied, was discarded with a proposal whose competitor was
   * finalized, or is still buffered, and never two of these.
   */
  lemma DeliveryConserves(cfg: Config, st: State, records: seq<Record>, x: ExecutionLog)
    requires cfg.delivery.FinalizedDelivery? && Initial(st) && Run(cfg, st, records).Ok?
    ensures Accepted(cfg, st, records, x)
      == Applied(Run(cfg, st, records).value.1, x) + Discarded(cfg, st, records, x)
        + Held(Run(cfg, st, records).value.0, x)
    ensures Increasing(records) ==> Applied(Run(cfg, st, records).value.1, x) <= 1
  {
    InitiallySound(cfg, st);
    InitiallyEmpty(st, x);
    RunConserves(cfg, st, records, x);
    if Increasing(records) {
      AcceptedOnce(cfg, st, records, x);
    }
  }

  lemma InitiallySound(cfg: Config, st: State)
    requires Initial(st)
    ensures Invariant(cfg, st) && Quiet(st)
  {
  }

  lemma InitiallyEmpty(st: State, x: ExecutionLog)
    requires Initial(st)
    ensures Held(st, x) == 0
  {
  }
}
