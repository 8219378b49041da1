/**
 * What a consumer of the proposal lifecycle has been shown, in every delivery
 * mode: logs applied, taken back, and applied again when branches switch.
 */
module LifecycleVisibility {
  import opened Chain
  import opened Lifecycle
  import opened LifecycleBudget
  import opened LifecycleDelivery
  import opened LifecycleBranch

  function ShownOf(ps: map<Hash, Proposal>, published: map<nat, Hash>): map<Hash, Proposal> {
    map id | id in ps && Shown(ps, published, id) :: ps[id]
  }

  /** Copies of a log in buffers whose contents the consumer sees. */
  ghost function Visible(cfg: Config, st: State, x: ExecutionLog): nat {
    (if cfg.delivery.RealtimeDelivery? then ActiveSize(st.active, CopiesOf(x)) else 0)
    + Total(ShownOf(st.proposals, st.published), CopiesOf(x))
  }

  // ---- What a record publishes, takes back, releases and loses ----

  /** The proposal a record publishes, with its height. */
  function Publishes(cfg: Config, st: State, r: Record): Option<(nat, Hash)> {
    match r.input
    case Start(id, h, _) => if cfg.delivery.RealtimeDelivery? then Some((h, id)) else None
    case End(_) =>
      if st.synchronized && cfg.delivery.BlockOrderedDelivery? && st.active.Some?
      then Some((st.active.value.blockNumber, st.active.value.id)) else None
    case Qc(id, h) =>
      if st.synchronized && !cfg.delivery.FinalizedDelivery? && id in st.proposals && st.proposals[id].stage.Proposed?
      then Some((h, id)) else None
    case Finalize(id, h) => if st.synchronized && id in st.proposals then Some((h, id)) else None
    case _ => None
  }

  /** The buffer of the proposal that another one displaces at a height. */
  function Displaced(ps: map<Hash, Proposal>, published: map<nat, Hash>, h: nat, id: Hash): seq<ExecutionLog> {
    if h in published && published[h] != id && published[h] in ps then ps[published[h]].logs else []
  }

  /** The logs taken back when `id` is published at a height. */
  function Withdrawn(cfg: Config, st: State, h: nat, id: Hash): seq<ExecutionLog> {
    if cfg.emitRemovedLogs then Displaced(st.proposals, st.published, h, id) else []
  }

  /** The logs a record takes back. */
  function TakenBack(cfg: Config, st: State, r: Record): seq<ExecutionLog> {
    match Publishes(cfg, st, r)
    case None => []
    case Some((h, id)) => Withdrawn(cfg, st, h, id)
  }

  /** Copies that leave the buffers for good while they are shown. */
  function ReleasedIn(cfg: Config, st: State, r: Record, x: ExecutionLog): nat {
    if !st.synchronized then 0
    else match r.input
      case Log(_, _, _, _, _) =>
        if cfg.delivery.RealtimeDelivery? && !cfg.emitRemovedLogs then AcceptedIn(st, r, x) else 0
      case End(_) =>
        if cfg.delivery.BlockOrderedDelivery? && !cfg.emitRemovedLogs then ActiveSize(st.active, CopiesOf(x)) else 0
      case Qc(id, _) =>
        if Publishes(cfg, st, r).Some? && !cfg.emitRemovedLogs then Copies(st.proposals[id].logs, x) else 0
      case Finalize(id, _) => if id in st.proposals then Copies(st.proposals[id].logs, x) else 0
      case _ => 0
  }

  /** The proposal that ends is still the published one at its height. */
  predicate EndsPublished(cfg: Config, st: State, r: Record) {
    cfg.delivery.RealtimeDelivery? && st.synchronized && r.input.End? && st.active.Some? ==>
      var a := st.active.value;
      a.blockNumber in st.published && st.published[a.blockNumber] == a.id
  }

  /** Copies shown while their proposal executed, which nobody will take back. */
  function OrphanedIn(cfg: Config, st: State, r: Record, x: ExecutionLog): nat {
    if EndsPublished(cfg, st, r) then 0 else ActiveSize(st.active, CopiesOf(x))
  }

  /** No proposal is started under the name of one that is still retained. */
  predicate FreshStart(st: State, r: Record) {
    r.input.Start? ==> r.input.id !in st.proposals
  }

  predicate FreshActive(st: State) {
    st.active.Some? ==> st.active.value.id !in st.proposals
  }

  // ---- Sums over the published branch ----

  lemma {:induction false} TotalOfPart(part: map<Hash, Proposal>, whole: map<Hash, Proposal>, m: Measure)
    requires forall id :: id in part ==> id in whole && whole[id] == part[id]
    ensures Total(part, m) <= Total(whole, m)
    decreases part.Keys
  {
    if part.Keys != {} {
      var id :| id in part.Keys;
      TotalRemove(part, id, m);
      TotalRemove(whole, id, m);
      assert (part - {id}).Keys < part.Keys;
      TotalOfPart(part - {id}, whole - {id}, m);
    }
  }

  lemma VisibleIsHeld(cfg: Config, st: State, x: ExecutionLog)
    ensures Visible(cfg, st, x) <= Held(st, x)
  {
    TotalOfPart(ShownOf(st.proposals, st.published), st.proposals, CopiesOf(x));
  }

  /** Copies of a log in the shown proposal that loses its place at a height. */
  function Loses(ps: map<Hash, Proposal>, published: map<nat, Hash>, h: nat, id: Hash, x: ExecutionLog): nat {
    if h in published && published[h] != id && Shown(ps, published, published[h]) && ps[published[h]].blockNumber == h
    then Copies(ps[published[h]].logs, x) else 0
  }

  lemma LosesIsDisplaced(ps: map<Hash, Proposal>, published: map<nat, Hash>, h: nat, id: Hash, x: ExecutionLog)
    ensures Loses(ps, published, h, id, x) <= Copies(Displaced(ps, published, h, id), x)
    ensures (h in published && published[h] in ps ==> ps[published[h]].blockNumber == h) ==>
      Loses(ps, published, h, id, x) == Copies(Displaced(ps, published, h, id), x)
  {
  }

  /** Publishing a completed proposal: it takes the place of the one shown at its height. */
  lemma PublishShows(ps: map<Hash, Proposal>, published: map<nat, Hash>, h: nat, id: Hash, q: Proposal,
                     x: ExecutionLog)
    requires id in ps && ps[id].blockNumber == h && q.blockNumber == h
    ensures var before, after := ShownOf(ps, published), ShownOf(ps[id := q], published[h := id]);
      Total(after, CopiesOf(x)) + Loses(ps, published, h, id, x)
        + (if Shown(ps, published, id) then Copies(ps[id].logs, x) else 0)
      == Total(before, CopiesOf(x)) + Copies(q.logs, x)
  {
    var before, after := ShownOf(ps, published), ShownOf(ps[id := q], published[h := id]);
    var m := CopiesOf(x);
    if Shown(ps, published, id) {
      assert after == before[id := q];
      TotalUpdate(before, id, q, m);
    } else if h in published && Shown(ps, published, published[h]) {
      var was := published[h];
      if ps[was].blockNumber == h {
        assert after == (before - {was})[id := q];
        TotalRemove(before, was, m);
        TotalInsert(before - {was}, id, q, m);
      } else {
        assert after == before[id := q];
        TotalInsert(before, id, q, m);
      }
    } else {
      assert after == before[id := q];
      TotalInsert(before, id, q, m);
    }
  }

  /** Announcing a proposal that is about to execute. */
  lemma StartShows(ps: map<Hash, Proposal>, published: map<nat, Hash>, h: nat, id: Hash, x: ExecutionLog)
    ensures var before, after := ShownOf(ps, published), ShownOf(ps, published[h := id]);
      && Total(before, CopiesOf(x)) <= Total(after, CopiesOf(x)) + Loses(ps, published, h, id, x)
      && (id !in ps ==> Total(before, CopiesOf(x)) == Total(after, CopiesOf(x)) + Loses(ps, published, h, id, x))
  {
    var before, after := ShownOf(ps, published), ShownOf(ps, published[h := id]);
    var m := CopiesOf(x);
    if h in published && published[h] != id && Shown(ps, published, published[h]) && ps[published[h]].blockNumber == h {
      DisplacedShows(ps, published, h, id);
      TotalRemove(before, published[h], m);
      TotalOfPart(before - {published[h]}, after, m);
    } else {
      UndisplacedShows(ps, published, h, id);
      TotalOfPart(before, after, m);
    }
  }

  lemma DisplacedShows(ps: map<Hash, Proposal>, published: map<nat, Hash>, h: nat, id: Hash)
    requires h in published && published[h] != id
    requires Shown(ps, published, published[h]) && ps[published[h]].blockNumber == h
    ensures var left, after := ShownOf(ps, published) - {published[h]}, ShownOf(ps, published[h := id]);
      && (forall x :: x in left ==> x in after && after[x] == left[x])
      && (id !in ps ==> after == left)
  {
    var left, after := ShownOf(ps, published) - {published[h]}, ShownOf(ps, published[h := id]);
    assert forall x :: x in after && x != id ==> x in left;
  }

  lemma UndisplacedShows(ps: map<Hash, Proposal>, published: map<nat, Hash>, h: nat, id: Hash)
    requires h in published && published[h] != id && Shown(ps, published, published[h]) ==>
      ps[published[h]].blockNumber != h
    ensures var before, after := ShownOf(ps, published), ShownOf(ps, published[h := id]);
      && (forall x :: x in before ==> x in after && after[x] == before[x])
      && (id !in ps ==> after == before)
  {
    var before, after := ShownOf(ps, published), ShownOf(ps, published[h := id]);
    assert forall x :: x in after && x != id ==> x in before;
  }

  /** A proposal that ends is shown exactly if it is the published one. */
  lemma EndShows(ps: map<Hash, Proposal>, published: map<nat, Hash>, id: Hash, p: Proposal, x: ExecutionLog)
    requires id !in ps
    ensures var before, after := ShownOf(ps, published), ShownOf(ps[id := p], published);
      Total(after, CopiesOf(x)) == Total(before, CopiesOf(x))
        + if p.blockNumber in published && published[p.blockNumber] == id then Copies(p.logs, x) else 0
  {
    var before, after := ShownOf(ps, published), ShownOf(ps[id := p], published);
    if p.blockNumber in published && published[p.blockNumber] == id {
      assert after == before[id := p];
      TotalInsert(before, id, p, CopiesOf(x));
    } else {
      assert after == before;
    }
  }

  /** A change of stage shows nothing new. */
  lemma StageShows(ps: map<Hash, Proposal>, published: map<nat, Hash>, id: Hash, q: Proposal, x: ExecutionLog)
    requires id in ps && q.blockNumber == ps[id].blockNumber && q.logs == ps[id].logs
    ensures Total(ShownOf(ps[id := q], published), CopiesOf(x)) == Total(ShownOf(ps, published), CopiesOf(x))
    ensures Shown(ps[id := q], published, id) <==> Shown(ps, published, id)
    ensures forall h, y :: Loses(ps[id := q], published, h, id, y) == Loses(ps, published, h, id, y)
  {
    var before, after := ShownOf(ps, published), ShownOf(ps[id := q], published);
    if Shown(ps, published, id) {
      assert after == before[id := q];
      TotalUpdate(before, id, q, CopiesOf(x));
    } else {
      assert after == before;
    }
  }

  lemma HiddenDropShows(st: State, u: State)
    requires DropsHidden(st, u)
    ensures ShownOf(u.proposals, u.published) == ShownOf(st.proposals, st.published)
  {
    assert forall x :: Shown(u.proposals, u.published, x) <==> Shown(st.proposals, st.published, x);
  }

  // ---- What an output applies ----

  lemma {:induction false} RemovalsApplyNothing(
      logs: seq<ExecutionLog>, sequence: Option<nat>, hash: Hash, c: Commitment, x: ExecutionLog)
    ensures Applied(LogEvents(logs, sequence, hash, c, true), x) == 0
    decreases |logs|
  {
    if logs != [] {
      var n := |logs| - 1;
      RemovalsApplyNothing(logs[..n], sequence, hash, c, x);
      assert LogEvents(logs, sequence, hash, c, true)[..n] == LogEvents(logs[..n], sequence, hash, c, true);
    }
  }

  lemma SwitchAppliesNothing(cfg: Config, st: State, sequence: nat, id: Hash, head: ExecutionHead, x: ExecutionLog)
    ensures Applied(SwitchBranch(cfg, st, sequence, id, head), x) == 0
  {
    var h := head.blockNumber;
    if h in st.published && st.published[h] != id && st.published[h] in st.proposals {
      var was := st.proposals[st.published[h]];
      var c := CommitmentOr(was.publishedCommitment);
      var removals := if cfg.emitRemovedLogs then LogEvents(was.logs, Some(sequence), was.blockHash, c, true) else [];
      var reorg := ReorgEvent(ExecutionHead(was.lastSequence, h, Some(was.blockHash), Some(was.parentHash), c), head);
      RemovalsApplyNothing(was.logs, Some(sequence), was.blockHash, c, x);
      AppliedConcat(removals, [reorg], x);
      NoLogsApplied([reorg], x);
    }
  }

  /** Publishing applies the buffer exactly if it was not shown before. */
  lemma PublishApplies(cfg: Config, st: State, sequence: nat, id: Hash, c: Commitment, x: ExecutionLog)
    requires id in st.proposals
    requires Shown(st.proposals, st.published, id) ==> st.proposals[id].publishedCommitment.Some?
    ensures Applied(Publish(cfg, st, sequence, id, c).value.1, x)
      == if Shown(st.proposals, st.published, id) then 0 else Copies(st.proposals[id].logs, x)
  {
    var p := st.proposals[id];
    var head := HeadOf(p, sequence, c);
    var switch := SwitchBranch(cfg, st, sequence, id, head);
    var logs := LogEvents(p.logs, None, p.blockHash, c, false);
    var applied := if Shown(st.proposals, st.published, id) then [] else logs;
    assert Publish(cfg, st, sequence, id, c).value.1 == switch + applied + [HeadEvent(head)];
    SwitchAppliesNothing(cfg, st, sequence, id, head, x);
    MaterializedApplied(p.logs, p.blockHash, c, x);
    AppliedConcat(switch + applied, [HeadEvent(head)], x);
    AppliedConcat(switch, applied, x);
    NoLogsApplied([HeadEvent(head)], x);
  }

  // ---- One record ----

  /** Where nothing is taken back by name only: whatever is published and retained is at its height. */
  predicate Named(cfg: Config, st: State) {
    cfg.delivery.RealtimeDelivery? ==> FreshActive(st)
  }

  lemma NamedIsHome(cfg: Config, st: State, h: nat)
    requires Homed(cfg, st) && Named(cfg, st) && h in st.published && st.published[h] in st.proposals
    ensures st.proposals[st.published[h]].blockNumber == h
  {
    assert AtHome(cfg, st, h);
  }

  /** Without removals nothing shown is left in a buffer to lose. */
  lemma NothingToLose(cfg: Config, st: State, h: nat, id: Hash, x: ExecutionLog)
    requires DrainedBut(cfg, st, id) && !cfg.emitRemovedLogs
    ensures Loses(st.proposals, st.published, h, id, x) == 0
  {
    if h in st.published && st.published[h] != id && Shown(st.proposals, st.published, st.published[h]) {
      assert Empties(cfg, st, st.published[h]);
    }
  }

  lemma WithdrawnCoversLoss(cfg: Config, st: State, h: nat, id: Hash, x: ExecutionLog)
    requires Homed(cfg, st) && DrainedBut(cfg, st, id)
    ensures Loses(st.proposals, st.published, h, id, x) <= Copies(Withdrawn(cfg, st, h, id), x)
    ensures Named(cfg, st) ==> Loses(st.proposals, st.published, h, id, x) == Copies(Withdrawn(cfg, st, h, id), x)
  {
    LosesIsDisplaced(st.proposals, st.published, h, id, x);
    if !cfg.emitRemovedLogs {
      NothingToLose(cfg, st, h, id, x);
    } else if Named(cfg, st) && h in st.published && st.published[h] in st.proposals {
      NamedIsHome(cfg, st, h);
    }
  }

  /** What publishing shows is what it applies and keeps, less what it takes back. */
  lemma PublishBalances(cfg: Config, st: State, sequence: nat, id: Hash, c: Commitment, x: ExecutionLog)
    requires CoherentBut(cfg, st, id) && id in st.proposals
    ensures var p, r := st.proposals[id], Publish(cfg, st, sequence, id, c).value;
      var released := if cfg.emitRemovedLogs && !c.Finalized? then 0 else Copies(p.logs, x);
      var left := Applied(r.1, x) + Total(ShownOf(st.proposals, st.published), CopiesOf(x));
      var right := Copies(Withdrawn(cfg, st, p.blockNumber, id), x)
        + Total(ShownOf(r.0.proposals, r.0.published), CopiesOf(x)) + released;
      left <= right && (Named(cfg, st) ==> left == right)
  {
    var u := Publish(cfg, st, sequence, id, c).value.0;
    var h := st.proposals[id].blockNumber;
    PublishApplies(cfg, st, sequence, id, c, x);
    PublishShows(st.proposals, st.published, h, id, u.proposals[id], x);
    WithdrawnCoversLoss(cfg, st, h, id, x);
    assert u.proposals == st.proposals[id := u.proposals[id]] && u.published == st.published[h := id];
  }

  /** The same for a proposal that reaches a new stage and is published at once. */
  lemma PromoteBalances(cfg: Config, st: State, sequence: nat, id: Hash, stage: Stage, c: Commitment, x: ExecutionLog)
    requires Coherent(cfg, st) && id in st.proposals
    ensures var p, r := st.proposals[id], Publish(cfg, Advance(st, sequence, id, stage), sequence, id, c).value;
      var released := if cfg.emitRemovedLogs && !c.Finalized? then 0 else Copies(p.logs, x);
      var left := Applied(r.1, x) + Total(ShownOf(st.proposals, st.published), CopiesOf(x));
      var right := Copies(Withdrawn(cfg, st, p.blockNumber, id), x)
        + Total(ShownOf(r.0.proposals, r.0.published), CopiesOf(x)) + released;
      left <= right && (Named(cfg, st) ==> left == right)
  {
    var next := Advance(st, sequence, id, stage);
    StageShows(st.proposals, st.published, id, next.proposals[id], x);
    AdvanceCoherent(cfg, st, sequence, id, stage);
    PublishBalances(cfg, next, sequence, id, c, x);
    var h := st.proposals[id].blockNumber;
    assert Withdrawn(cfg, next, h, id) == Withdrawn(cfg, st, h, id);
  }

  /** Names are used once: a condition on a record that matters in realtime only. */
  predicate Faithful(cfg: Config, st: State, r: Record) {
    cfg.delivery.RealtimeDelivery? ==> FreshActive(st) && FreshStart(st, r)
  }

  /**
   * What a record applies it adds to what is visible, releases or loses; what it
   * takes back was visible. With names used once nothing else happens.
   */
  ghost predicate Balances(cfg: Config, st: State, r: Record, u: State, output: seq<Event>, x: ExecutionLog) {
    var left := Applied(output, x) + Visible(cfg, st, x);
    var right := Copies(TakenBack(cfg, st, r), x) + Visible(cfg, u, x)
      + ReleasedIn(cfg, st, r, x) + OrphanedIn(cfg, st, r, x);
    left <= right && (Faithful(cfg, st, r) ==> left == right)
  }

  lemma StartAppliesNothing(cfg: Config, st: State, r: Record, x: ExecutionLog)
    requires Process(cfg, st, r).Ok? && r.input.Start?
    ensures Applied(Process(cfg, st, r).value.1, x) == 0
    ensures var u := Process(cfg, st, r).value.0;
      && st.active.None? && u.active.Some? && u.active.value.logs == [] && u.proposals == st.proposals
      && u.published == if cfg.delivery.RealtimeDelivery? then st.published[r.input.blockNumber := r.input.id]
                        else st.published
  {
    if cfg.delivery.RealtimeDelivery? {
      var s := st.(synchronized := true);
      var head := ExecutionHead(r.sequence, r.input.blockNumber, None, Some(r.input.parentHash), Realtime);
      SwitchAppliesNothing(cfg, s, r.sequence, r.input.id, head, x);
      AppliedConcat(SwitchBranch(cfg, s, r.sequence, r.input.id, head), [HeadEvent(head)], x);
      NoLogsApplied([HeadEvent(head)], x);
    }
  }

  lemma AnnouncementBalances(cfg: Config, st: State, r: Record, u: State, output: seq<Event>, x: ExecutionLog)
    requires Coherent(cfg, st) && cfg.delivery.RealtimeDelivery? && r.input.Start? && Applied(output, x) == 0
    requires st.active.None? && u.active.Some? && u.active.value.logs == []
    requires u.proposals == st.proposals && u.published == st.published[r.input.blockNumber := r.input.id]
    ensures Balances(cfg, st, r, u, output, x)
  {
    var id, h := r.input.id, r.input.blockNumber;
    StartShows(st.proposals, st.published, h, id, x);
    WithdrawnCoversLoss(cfg, st, h, id, x);
    assert TakenBack(cfg, st, r) == Withdrawn(cfg, st, h, id);
    assert ReleasedIn(cfg, st, r, x) == 0 && OrphanedIn(cfg, st, r, x) == 0;
  }

  lemma StartBalances(cfg: Config, st: State, r: Record, x: ExecutionLog)
    requires Coherent(cfg, st) && Process(cfg, st, r).Ok? && r.input.Start?
    ensures Balances(cfg, st, r, Process(cfg, st, r).value.0, Process(cfg, st, r).value.1, x)
  {
    StartAppliesNothing(cfg, st, r, x);
    if cfg.delivery.RealtimeDelivery? {
      AnnouncementBalances(cfg, st, r, Process(cfg, st, r).value.0, Process(cfg, st, r).value.1, x);
    } else {
      assert TakenBack(cfg, st, r) == [];
      assert ReleasedIn(cfg, st, r, x) == 0 && OrphanedIn(cfg, st, r, x) == 0;
    }
  }

  lemma OneApplied(log: ExecutionLog, x: ExecutionLog)
    requires !log.removed
    ensures Applied([LogEvent(log)], x) == if Core(log) == x then 1 else 0
  {
    assert [LogEvent(log)][..0] == [];
  }

  lemma LogBalances(cfg: Config, st: State, r: Record, x: ExecutionLog)
    requires Process(cfg, st, r).Ok? && st.synchronized && r.input.Log?
    ensures Balances(cfg, st, r, Process(cfg, st, r).value.0, Process(cfg, st, r).value.1, x)
  {
    var a := st.active.value;
    var log := BuildLog(a, r.sequence, r.input);
    OneApplied(log, x);
    assert (a.logs + [log])[..|a.logs|] == a.logs;
  }

  lemma RealtimeEndBalances(cfg: Config, st: State, r: Record, x: ExecutionLog)
    requires cfg.delivery.RealtimeDelivery? && Process(cfg, st, r).Ok? && st.synchronized && r.input.End?
    ensures Balances(cfg, st, r, Process(cfg, st, r).value.0, Process(cfg, st, r).value.1, x)
  {
    assert st == st.(synchronized := true);
    var a := st.active.value;
    var p := Completed(a, r.sequence, r.input.blockHash);
    HashKeepsCopies(a.logs, r.input.blockHash, x);
    EndShows(st.proposals, st.published, a.id, p, x);
    NoLogsApplied(Process(cfg, st, r).value.1, x);
  }

  /** A proposal that ends in block order is published at once. */
  lemma FinishBalances(cfg: Config, st: State, sequence: nat, hash: Hash, x: ExecutionLog)
    requires cfg.delivery.BlockOrderedDelivery? && Coherent(cfg, st)
    requires st.active.Some? && st.active.value.id !in st.proposals
    ensures var a, done := st.active.value, Finish(st, sequence, hash);
      var r := Publish(cfg, done, sequence, a.id, Canonical).value;
      Applied(r.1, x) + Total(ShownOf(st.proposals, st.published), CopiesOf(x))
      == Copies(Withdrawn(cfg, st, a.blockNumber, a.id), x) + Total(ShownOf(r.0.proposals, r.0.published), CopiesOf(x))
        + if cfg.emitRemovedLogs then 0 else Copies(a.logs, x)
  {
    var a, done := st.active.value, Finish(st, sequence, hash);
    HashKeepsCopies(a.logs, hash, x);
    FinishCoherent(cfg, st, sequence, hash);
    EndShows(st.proposals, st.published, a.id, done.proposals[a.id], x);
    PublishBalances(cfg, done, sequence, a.id, Canonical, x);
    FinishDisplaces(st, sequence, hash);
  }

  lemma BlockEndBalances(cfg: Config, st: State, r: Record, x: ExecutionLog)
    requires cfg.delivery.BlockOrderedDelivery? && Coherent(cfg, st)
    requires Process(cfg, st, r).Ok? && st.synchronized && r.input.End?
    ensures Balances(cfg, st, r, Process(cfg, st, r).value.0, Process(cfg, st, r).value.1, x)
  {
    assert st == st.(synchronized := true);
    FinishBalances(cfg, st, r.sequence, r.input.blockHash, x);
  }

  lemma FinishDisplaces(st: State, sequence: nat, hash: Hash)
    requires st.active.Some? && st.active.value.id !in st.proposals
    ensures var a, done := st.active.value, Finish(st, sequence, hash);
      Displaced(done.proposals, done.published, a.blockNumber, a.id)
      == Displaced(st.proposals, st.published, a.blockNumber, a.id)
  {
  }

  lemma FinalEndBalances(cfg: Config, st: State, r: Record, x: ExecutionLog)
    requires cfg.delivery.FinalizedDelivery? && Coherent(cfg, st)
    requires Process(cfg, st, r).Ok? && st.synchronized && r.input.End?
    ensures Balances(cfg, st, r, Process(cfg, st, r).value.0, Process(cfg, st, r).value.1, x)
  {
    assert st == st.(synchronized := true);
    var a, done := st.active.value, Finish(st, r.sequence, r.input.blockHash);
    FinishCoherent(cfg, st, r.sequence, r.input.blockHash);
    EndShows(st.proposals, st.published, a.id, done.proposals[a.id], x);
  }

  lemma QcBalances(cfg: Config, st: State, r: Record, x: ExecutionLog)
    requires Coherent(cfg, st) && Process(cfg, st, r).Ok? && st.synchronized && r.input.Qc?
    ensures Balances(cfg, st, r, Process(cfg, st, r).value.0, Process(cfg, st, r).value.1, x)
  {
    assert st == st.(synchronized := true);
    var id := r.input.id;
    if id in st.proposals && st.proposals[id].stage.Proposed? {
      if cfg.delivery.FinalizedDelivery? {
        StageShows(st.proposals, st.published, id, Advance(st, r.sequence, id, Voted).proposals[id], x);
      } else {
        PromoteBalances(cfg, st, r.sequence, id, Voted, Canonical, x);
      }
    }
  }

  lemma FinalizeBalances(cfg: Config, st: State, r: Record, x: ExecutionLog)
    requires Invariant(cfg, st) && Coherent(cfg, st) && Process(cfg, st, r).Ok? && st.synchronized && r.input.Finalize?
    ensures Balances(cfg, st, r, Process(cfg, st, r).value.0, Process(cfg, st, r).value.1, x)
  {
    var id, h := r.input.id, r.input.blockNumber;
    FinalizeRecord(cfg, st, r);
    if id in st.proposals {
      PromoteBalances(cfg, st, r.sequence, id, Settled, Finalized, x);
      FinalizeShows(cfg, st, r.sequence, id, h);
    }
  }

  /** Dropping the competitors leaves what publishing the winner shows. */
  lemma FinalizeShows(cfg: Config, st: State, sequence: nat, id: Hash, h: nat)
    requires Invariant(cfg, st) && id in st.proposals && FinalizeStep(cfg, st, sequence, id, h).Ok?
    ensures st.proposals[id].blockNumber == h
    ensures var next, u := Emptied(cfg, st, sequence, id), FinalizeStep(cfg, st, sequence, id, h).value.0;
      ShownOf(u.proposals, u.published) == ShownOf(next.proposals, next.published) && u.active == st.active
    ensures FinalizeStep(cfg, st, sequence, id, h).value.1
      == Publish(cfg, Advance(st, sequence, id, Settled), sequence, id, Finalized).value.1
  {
    FinalizeUnfolds(cfg, st, sequence, id, h);
    EmptiedKeeps(cfg, st, sequence, id);
    EmptiedIs(cfg, st, sequence, id);
    var next := Emptied(cfg, st, sequence, id);
    DropHides(cfg, next, id, h);
    HiddenDropShows(next, Dropped(next, id, h));
  }

  lemma ForgetShows(st: State, u: State, id: Hash, h: nat, x: ExecutionLog)
    requires Forgets(st, u, id, h) && st.proposals[id].logs == []
    ensures Total(ShownOf(u.proposals, u.published), CopiesOf(x))
      == Total(ShownOf(st.proposals, st.published), CopiesOf(x))
  {
    var before, after := ShownOf(st.proposals, st.published), ShownOf(u.proposals, u.published);
    if Shown(st.proposals, st.published, id) {
      assert after == before - {id};
      TotalRemove(before, id, CopiesOf(x));
    } else {
      assert after == before;
    }
  }

  lemma ForgetBalances(cfg: Config, st: State, r: Record, u: State, output: seq<Event>, id: Hash, x: ExecutionLog)
    requires Coherent(cfg, st) && r.input.Verify? && Forgets(st, u, id, r.input.blockNumber) && NoLogs(output)
    ensures Balances(cfg, st, r, u, output, x)
  {
    NoLogsApplied(output, x);
    assert Empties(cfg, st, id);
    ForgetShows(st, u, id, r.input.blockNumber, x);
    assert TakenBack(cfg, st, r) == [];
    assert ReleasedIn(cfg, st, r, x) == 0 && OrphanedIn(cfg, st, r, x) == 0;
  }

  lemma VerifyBalances(cfg: Config, st: State, r: Record, x: ExecutionLog)
    requires Invariant(cfg, st) && Coherent(cfg, st) && Process(cfg, st, r).Ok? && st.synchronized && r.input.Verify?
    ensures Balances(cfg, st, r, Process(cfg, st, r).value.0, Process(cfg, st, r).value.1, x)
  {
    assert st == st.(synchronized := true);
    var h := r.input.blockNumber;
    if h in st.byHeight {
      VerifyForgets(st, r.sequence, h);
      ForgetBalances(cfg, st, r, Process(cfg, st, r).value.0, Process(cfg, st, r).value.1, st.byHeight[h][0], x);
    }
  }

  lemma EndBalances(cfg: Config, st: State, r: Record, x: ExecutionLog)
    requires Coherent(cfg, st) && Process(cfg, st, r).Ok? && st.synchronized && r.input.End?
    ensures Balances(cfg, st, r, Process(cfg, st, r).value.0, Process(cfg, st, r).value.1, x)
  {
    if cfg.delivery.RealtimeDelivery? {
      RealtimeEndBalances(cfg, st, r, x);
    } else if cfg.delivery.BlockOrderedDelivery? {
      BlockEndBalances(cfg, st, r, x);
    } else {
      FinalEndBalances(cfg, st, r, x);
    }
  }

  /** Records without any of these show nothing. */
  lemma QuietBalances(cfg: Config, st: State, r: Record, x: ExecutionLog)
    requires Process(cfg, st, r).Ok? && !r.input.Start?
    requires st.synchronized ==> r.input.SkippedLog? || r.input.Ignore? || r.input.Fatal? || r.input.Reject?
    ensures Balances(cfg, st, r, Process(cfg, st, r).value.0, Process(cfg, st, r).value.1, x)
  {
  }

  /** Every accepted record balances, in every delivery mode. */
  lemma ProcessBalances(cfg: Config, st: State, r: Record, x: ExecutionLog)
    requires Invariant(cfg, st) && Coherent(cfg, st) && Process(cfg, st, r).Ok?
    ensures Balances(cfg, st, r, Process(cfg, st, r).value.0, Process(cfg, st, r).value.1, x)
  {
    if r.input.Start? {
      StartBalances(cfg, st, r, x);
    } else if st.synchronized && r.input.Log? {
      LogBalances(cfg, st, r, x);
    } else if st.synchronized && r.input.End? {
      EndBalances(cfg, st, r, x);
    } else if st.synchronized && r.input.Qc? {
      QcBalances(cfg, st, r, x);
    } else if st.synchronized && r.input.Finalize? {
      FinalizeBalances(cfg, st, r, x);
    } else if st.synchronized && r.input.Verify? {
      VerifyBalances(cfg, st, r, x);
    } else {
      QuietBalances(cfg, st, r, x);
    }
  }

  // ---- What an output takes back ----

  /** The removed logs of an output, in order. */
  function Removed(events: seq<Event>): seq<ExecutionLog> {
    if events == [] then []
    else
      var e := events[|events| - 1];
      Removed(events[..|events| - 1]) + if e.LogEvent? && e.log.removed then [e.log] else []
  }

  /** A removal: the log as it was, under the sequence of the record that takes it back and its own index. */
  function Removal(log: ExecutionLog, sequence: nat, hash: Hash, c: Commitment): ExecutionLog {
    ExecutionLog(sequence, log.logIndex, log.blockNumber, Some(hash), log.transactionIndex, log.logIndex, log.address,
                 log.topics, log.data, true, c)
  }

  function Removals(logs: seq<ExecutionLog>, sequence: nat, hash: Hash, c: Commitment): seq<ExecutionLog> {
    seq(|logs|, i requires 0 <= i < |logs| => Removal(logs[i], sequence, hash, c))
  }

  /** The displaced proposal's logs, taken back under its own hash and the commitment it was last announced with. */
  function RemovalsAt(cfg: Config, st: State, h: nat, id: Hash, sequence: nat): seq<ExecutionLog> {
    if cfg.emitRemovedLogs && h in st.published && st.published[h] != id && st.published[h] in st.proposals then
      var was := st.proposals[st.published[h]];
      Removals(was.logs, sequence, was.blockHash, CommitmentOr(was.publishedCommitment))
    else []
  }

  function RemovalsIn(cfg: Config, st: State, r: Record): seq<ExecutionLog> {
    match Publishes(cfg, st, r)
    case None => []
    case Some((h, id)) => RemovalsAt(cfg, st, h, id, r.sequence)
  }

  predicate NoRemovals(events: seq<Event>) {
    forall i :: 0 <= i < |events| && events[i].LogEvent? ==> !events[i].log.removed
  }

  lemma {:induction false} RemovedConcat(a: seq<Event>, b: seq<Event>)
    ensures Removed(a + b) == Removed(a) + Removed(b)
    decreases |b|
  {
    if b == [] {
      assert a + b == a;
    } else {
      RemovedConcat(a, b[..|b| - 1]);
      assert (a + b)[..|a + b| - 1] == a + b[..|b| - 1];
    }
  }

  lemma {:induction false} NothingRemoved(events: seq<Event>)
    requires NoRemovals(events)
    ensures Removed(events) == []
    decreases |events|
  {
    if events != [] {
      NothingRemoved(events[..|events| - 1]);
    }
  }

  lemma {:induction false} RemovalEvents(logs: seq<ExecutionLog>, sequence: nat, hash: Hash, c: Commitment)
    ensures Removed(LogEvents(logs, Some(sequence), hash, c, true)) == Removals(logs, sequence, hash, c)
    decreases |logs|
  {
    if logs != [] {
      var n := |logs| - 1;
      RemovalEvents(logs[..n], sequence, hash, c);
      assert LogEvents(logs, Some(sequence), hash, c, true)[..n] == LogEvents(logs[..n], Some(sequence), hash, c, true);
    }
  }

  lemma SwitchRemoves(cfg: Config, st: State, sequence: nat, id: Hash, head: ExecutionHead, rest: seq<Event>)
    requires NoRemovals(rest)
    ensures Removed(SwitchBranch(cfg, st, sequence, id, head) + rest)
      == RemovalsAt(cfg, st, head.blockNumber, id, sequence)
  {
    var h := head.blockNumber;
    var switch := SwitchBranch(cfg, st, sequence, id, head);
    RemovedConcat(switch, rest);
    NothingRemoved(rest);
    if h in st.published && st.published[h] != id && st.published[h] in st.proposals {
      var was := st.proposals[st.published[h]];
      var c := CommitmentOr(was.publishedCommitment);
      var removals := if cfg.emitRemovedLogs then LogEvents(was.logs, Some(sequence), was.blockHash, c, true) else [];
      var reorg := ReorgEvent(ExecutionHead(was.lastSequence, h, Some(was.blockHash), Some(was.parentHash), c), head);
      assert switch == removals + [reorg];
      RemovedConcat(removals, [reorg]);
      NothingRemoved([reorg]);
      RemovalEvents(was.logs, sequence, was.blockHash, c);
    }
  }

  lemma PublishRemoves(cfg: Config, st: State, sequence: nat, id: Hash, c: Commitment)
    requires id in st.proposals
    ensures Removed(Publish(cfg, st, sequence, id, c).value.1)
      == RemovalsAt(cfg, st, st.proposals[id].blockNumber, id, sequence)
  {
    var p := st.proposals[id];
    var head := HeadOf(p, sequence, c);
    var changed := !(p.blockNumber in st.published && st.published[p.blockNumber] == id);
    var apply := p.publishedCommitment.None? || changed;
    var applied := if apply then LogEvents(p.logs, None, p.blockHash, c, false) else [];
    var rest := applied + [HeadEvent(head)];
    SwitchRemoves(cfg, st, sequence, id, head, rest);
    assert Publish(cfg, st, sequence, id, c).value.1 == SwitchBranch(cfg, st, sequence, id, head) + rest;
  }

  lemma StartRemoves(cfg: Config, st: State, r: Record)
    requires Process(cfg, st, r).Ok? && r.input.Start?
    ensures Removed(Process(cfg, st, r).value.1) == RemovalsIn(cfg, st, r)
  {
    if cfg.delivery.RealtimeDelivery? {
      var s := st.(synchronized := true);
      var head := ExecutionHead(r.sequence, r.input.blockNumber, None, Some(r.input.parentHash), Realtime);
      SwitchRemoves(cfg, s, r.sequence, r.input.id, head, [HeadEvent(head)]);
    }
  }

  lemma EndRemoves(cfg: Config, st: State, r: Record)
    requires Process(cfg, st, r).Ok? && st.synchronized && r.input.End?
    ensures Removed(Process(cfg, st, r).value.1) == RemovalsIn(cfg, st, r)
  {
    assert st == st.(synchronized := true);
    if cfg.delivery.BlockOrderedDelivery? {
      PublishRemoves(cfg, Finish(st, r.sequence, r.input.blockHash), r.sequence, st.active.value.id, Canonical);
    } else {
      NothingRemoved(Process(cfg, st, r).value.1);
    }
  }

  lemma PromoteRemoves(cfg: Config, st: State, sequence: nat, id: Hash, stage: Stage, c: Commitment)
    requires id in st.proposals
    ensures Removed(Publish(cfg, Advance(st, sequence, id, stage), sequence, id, c).value.1)
      == RemovalsAt(cfg, st, st.proposals[id].blockNumber, id, sequence)
  {
    PublishRemoves(cfg, Advance(st, sequence, id, stage), sequence, id, c);
  }

  lemma ConsensusRemoves(cfg: Config, st: State, r: Record)
    requires Process(cfg, st, r).Ok? && st.synchronized && (r.input.Qc? || r.input.Finalize?)
    ensures Removed(Process(cfg, st, r).value.1) == RemovalsIn(cfg, st, r)
  {
    assert st == st.(synchronized := true);
    var id := r.input.id;
    if Publishes(cfg, st, r).None? {
      NothingRemoved(Process(cfg, st, r).value.1);
    } else if r.input.Qc? {
      PromoteRemoves(cfg, st, r.sequence, id, Voted, Canonical);
    } else {
      PromoteRemoves(cfg, st, r.sequence, id, Settled, Finalized);
    }
  }

  /**
   * The removed logs in a record's output are, in order, the buffer of the
   * proposal that another one displaces at its height, each under the sequence
   * of the record and the hash of its own block.
   */
  lemma RecordTakesBack(cfg: Config, st: State, r: Record)
    requires Process(cfg, st, r).Ok?
    ensures Removed(Process(cfg, st, r).value.1) == RemovalsIn(cfg, st, r)
    ensures |RemovalsIn(cfg, st, r)| == |TakenBack(cfg, st, r)|
  {
    if r.input.Start? {
      StartRemoves(cfg, st, r);
    } else if st.synchronized && r.input.End? {
      EndRemoves(cfg, st, r);
    } else if st.synchronized && (r.input.Qc? || r.input.Finalize?) {
      ConsensusRemoves(cfg, st, r);
    } else {
      NothingRemoved(Process(cfg, st, r).value.1);
    }
  }
}
