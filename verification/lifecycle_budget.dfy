/**
 * Memory budgets and the height index of the proposal lifecycle, over every
 * run of accepted records and in every delivery mode.
 */
module LifecycleBudget {
  import opened Chain
  import opened Lifecycle

  // ---- Sums over proposals ----

  /** What is summed: logs, bytes, or the copies of one log. */
  datatype Measure = Count | Bytes | CopiesOf(log: ExecutionLog)

  /** A log without what delivery fills in later. */
  function Core(log: ExecutionLog): ExecutionLog {
    log.(blockHash := None, commitment := Realtime, removed := false)
  }

  function Copies(logs: seq<ExecutionLog>, x: ExecutionLog): nat {
    if logs == [] then 0
    else Copies(logs[..|logs| - 1], x) + (if Core(logs[|logs| - 1]) == x then 1 else 0)
  }

  function SizeOf(p: Proposal, m: Measure): nat {
    match m
    case Count => |p.logs|
    case Bytes => p.logBytes
    case CopiesOf(x) => Copies(p.logs, x)
  }

  ghost function Total(ps: map<Hash, Proposal>, m: Measure): nat
    decreases ps.Keys
  {
    if ps.Keys == {} then 0
    else
      var id :| id in ps.Keys;
      assert (ps - {id}).Keys < ps.Keys;
      SizeOf(ps[id], m) + Total(ps - {id}, m)
  }

  lemma {:induction false} TotalRemove(ps: map<Hash, Proposal>, id: Hash, m: Measure)
    requires id in ps
    ensures Total(ps, m) == SizeOf(ps[id], m) + Total(ps - {id}, m)
    decreases ps.Keys
  {
    var x :| x in ps.Keys && Total(ps, m) == SizeOf(ps[x], m) + Total(ps - {x}, m);
    if x != id {
      assert (ps - {x}).Keys < ps.Keys && (ps - {id}).Keys < ps.Keys;
      TotalRemove(ps - {x}, id, m);
      TotalRemove(ps - {id}, x, m);
      assert ps - {x} - {id} == ps - {id} - {x};
    }
  }

  lemma TotalInsert(ps: map<Hash, Proposal>, id: Hash, p: Proposal, m: Measure)
    requires id !in ps
    ensures Total(ps[id := p], m) == Total(ps, m) + SizeOf(p, m)
  {
    TotalRemove(ps[id := p], id, m);
    assert ps[id := p] - {id} == ps;
  }

  lemma TotalUpdate(ps: map<Hash, Proposal>, id: Hash, p: Proposal, m: Measure)
    requires id in ps
    ensures Total(ps[id := p], m) + SizeOf(ps[id], m) == Total(ps, m) + SizeOf(p, m)
  {
    TotalRemove(ps, id, m);
    TotalRemove(ps[id := p], id, m);
    assert ps[id := p] - {id} == ps - {id};
  }

  // ---- Exact accounting ----

  function ActiveSize(a: Option<ActiveProposal>, m: Measure): nat {
    if a.None? then 0
    else match m
      case Count => |a.value.logs|
      case Bytes => a.value.logBytes
      case CopiesOf(x) => Copies(a.value.logs, x)
  }

  /** Both counters are the exact sums over the active and the completed proposals. */
  ghost predicate ExactSums(st: State) {
    && st.pendingLogs == ActiveSize(st.active, Count) + Total(st.proposals, Count)
    && st.pendingBytes == ActiveSize(st.active, Bytes) + Total(st.proposals, Bytes)
  }

  function BytesIn(logs: seq<ExecutionLog>): nat {
    if logs == [] then 0 else BytesIn(logs[..|logs| - 1]) + LogSize(logs[|logs| - 1])
  }

  /** Every recorded byte count is the size of the logs it stands for. */
  ghost predicate BytesRecorded(ps: map<Hash, Proposal>) {
    forall id :: id in ps ==> ps[id].logBytes == BytesIn(ps[id].logs)
  }

  ghost predicate ActiveRecorded(a: Option<ActiveProposal>) {
    a.Some? ==> a.value.logBytes == BytesIn(a.value.logs)
  }

  ghost predicate WithinLimits(cfg: Config, st: State) {
    && st.pendingLogs <= cfg.limits.maxLogs
    && st.pendingBytes <= cfg.limits.maxBytes
    && |st.proposals| + (if st.active.Some? then 1 else 0) <= cfg.limits.maxProposals
  }

  // ---- The height index ----

  predicate Distinct(ids: seq<Hash>) {
    forall i, j :: 0 <= i < j < |ids| ==> ids[i] != ids[j]
  }

  /** The index lists exactly the live proposals, each once, under its own height. */
  ghost predicate Indexed(ps: map<Hash, Proposal>, index: map<nat, seq<Hash>>) {
    && (forall h :: h in index ==> index[h] != [] && Distinct(index[h]))
    && (forall h, id :: h in index && id in index[h] ==> id in ps && ps[id].blockNumber == h)
    && (forall id :: id in ps ==> ps[id].blockNumber in index && id in index[ps[id].blockNumber])
  }

  predicate SettledAt(ps: map<Hash, Proposal>, id: Hash, h: nat) {
    id in ps && ps[id].stage.Settled? && ps[id].blockNumber == h
  }

  ghost predicate OneSettled(ps: map<Hash, Proposal>) {
    forall a, b, h :: SettledAt(ps, a, h) && SettledAt(ps, b, h) ==> a == b
  }

  /** Everything but the uniqueness of finalized proposals, which holds between records only. */
  ghost predicate Accounted(cfg: Config, st: State) {
    && ExactSums(st)
    && BytesRecorded(st.proposals)
    && ActiveRecorded(st.active)
    && WithinLimits(cfg, st)
    && Indexed(st.proposals, st.byHeight)
  }

  ghost predicate Invariant(cfg: Config, st: State) {
    Accounted(cfg, st) && OneSettled(st.proposals)
  }

  /** With exact sums a proposal's share is part of both counters. */
  lemma ShareIsCounted(st: State, id: Hash)
    requires ExactSums(st) && id in st.proposals
    ensures |st.proposals[id].logs| <= st.pendingLogs && st.proposals[id].logBytes <= st.pendingBytes
  {
    TotalRemove(st.proposals, id, Count);
    TotalRemove(st.proposals, id, Bytes);
  }

  // ---- Removing proposals ----

  lemma RemoveKeepsSums(st: State, id: Hash)
    requires ExactSums(st)
    ensures ExactSums(RemoveProposal(st, id))
    ensures RemoveProposal(st, id).pendingLogs <= st.pendingLogs
    ensures RemoveProposal(st, id).pendingBytes <= st.pendingBytes
  {
    if id in st.proposals {
      TotalRemove(st.proposals, id, Count);
      TotalRemove(st.proposals, id, Bytes);
    }
  }

  lemma {:induction false} RemoveAllEffect(st: State, ids: seq<Hash>)
    requires ExactSums(st)
    ensures var u := RemoveAll(st, ids);
      && ExactSums(u)
      && u.pendingLogs <= st.pendingLogs && u.pendingBytes <= st.pendingBytes
      && u == st.(proposals := st.proposals - (set x | x in ids),
                  pendingLogs := u.pendingLogs, pendingBytes := u.pendingBytes)
    decreases |ids|
  {
    if ids == [] {
      assert st.proposals - (set x | x in ids) == st.proposals;
    } else {
      var v := RemoveProposal(st, ids[0]);
      RemoveKeepsSums(st, ids[0]);
      RemoveAllEffect(v, ids[1..]);
      assert v.proposals == st.proposals - {ids[0]};
      assert (set x | x in ids) == {ids[0]} + (set x | x in ids[1..]);
      assert v.proposals - (set x | x in ids[1..]) == st.proposals - (set x | x in ids);
    }
  }

  lemma {:induction false} OthersAre(ids: seq<Hash>, id: Hash)
    ensures forall x :: x in Others(ids, id) <==> x in ids && x != id
  {
    if ids != [] {
      OthersAre(ids[1..], id);
      assert forall x :: x in ids <==> x == ids[0] || x in ids[1..];
    }
  }

  // ---- One record ----

  lemma StartKeeps(cfg: Config, st: State, sequence: nat, id: Hash, blockNumber: nat, parentHash: Hash)
    requires Invariant(cfg, st) && StartStep(cfg, st, sequence, id, blockNumber, parentHash).Ok?
    ensures Invariant(cfg, StartStep(cfg, st, sequence, id, blockNumber, parentHash).value.0)
  {
  }

  lemma LogKeeps(cfg: Config, st: State, sequence: nat, block: Option<nat>, input: Input)
    requires Invariant(cfg, st) && input.Log? && LogStep(cfg, st, sequence, block, input).Ok?
    ensures Invariant(cfg, LogStep(cfg, st, sequence, block, input).value.0)
  {
    var u := LogStep(cfg, st, sequence, block, input).value.0;
    var a, b := st.active.value.logs, u.active.value.logs;
    if b != a {
      assert b[..|b| - 1] == a;
    }
  }

  lemma {:induction false} HashKeepsBytes(logs: seq<ExecutionLog>, hash: Hash)
    ensures BytesIn(WithHash(logs, hash)) == BytesIn(logs)
    decreases |logs|
  {
    if logs != [] {
      var n := |logs| - 1;
      HashKeepsBytes(logs[..n], hash);
      assert WithHash(logs, hash)[..n] == WithHash(logs[..n], hash);
    }
  }

  lemma UpdateKeepsIndex(ps: map<Hash, Proposal>, index: map<nat, seq<Hash>>, id: Hash, q: Proposal)
    requires Indexed(ps, index) && id in ps && q.blockNumber == ps[id].blockNumber
    ensures Indexed(ps[id := q], index)
  {
  }

  lemma InsertKeepsIndex(ps: map<Hash, Proposal>, index: map<nat, seq<Hash>>, id: Hash, p: Proposal)
    requires Indexed(ps, index) && id !in ps
    ensures Indexed(ps[id := p],
      index[p.blockNumber := (if p.blockNumber in index then index[p.blockNumber] else []) + [id]])
  {
  }

  lemma UpdateKeepsBytes(ps: map<Hash, Proposal>, id: Hash, q: Proposal)
    requires BytesRecorded(ps) && q.logBytes == BytesIn(q.logs)
    ensures BytesRecorded(ps[id := q])
  {
  }

  lemma UpdateKeepsSettled(ps: map<Hash, Proposal>, id: Hash, q: Proposal)
    requires OneSettled(ps)
    requires q.stage.Settled? ==> SettledAt(ps, id, q.blockNumber)
    ensures OneSettled(ps[id := q])
  {
    var qs := ps[id := q];
    forall a, b, h | SettledAt(qs, a, h) && SettledAt(qs, b, h)
      ensures a == b
    {
      assert SettledAt(ps, a, h) && SettledAt(ps, b, h);
    }
  }

  lemma UpdateKeepsSums(st: State, id: Hash, q: Proposal)
    requires ExactSums(st) && id in st.proposals
    ensures |st.proposals[id].logs| <= st.pendingLogs && st.proposals[id].logBytes <= st.pendingBytes
    ensures q.logs == st.proposals[id].logs && q.logBytes == st.proposals[id].logBytes ==>
      ExactSums(st.(proposals := st.proposals[id := q]))
    ensures q.logs == [] && q.logBytes == 0 ==>
      ExactSums(st.(proposals := st.proposals[id := q],
                    pendingLogs := st.pendingLogs - |st.proposals[id].logs|,
                    pendingBytes := st.pendingBytes - st.proposals[id].logBytes))
  {
    ShareIsCounted(st, id);
    TotalUpdate(st.proposals, id, q, Count);
    TotalUpdate(st.proposals, id, q, Bytes);
  }

  /**
   * What publishing changes: the bookkeeping of one proposal, the published map,
   * and either nothing of its buffer or all of it together with the counters.
   */
  ghost predicate Rebuffered(st: State, u: State, id: Hash) {
    && id in st.proposals && id in u.proposals
    && var p, q := st.proposals[id], u.proposals[id];
      && q.blockNumber == p.blockNumber && q.stage == p.stage
      && u == st.(proposals := st.proposals[id := q], published := u.published,
                  pendingLogs := u.pendingLogs, pendingBytes := u.pendingBytes)
      && (Kept(st, u, p, q) || Released(st, u, p, q))
  }

  predicate Kept(st: State, u: State, p: Proposal, q: Proposal) {
    && q.logs == p.logs && q.logBytes == p.logBytes
    && u.pendingLogs == st.pendingLogs && u.pendingBytes == st.pendingBytes
  }

  predicate Released(st: State, u: State, p: Proposal, q: Proposal) {
    && q.logs == [] && q.logBytes == 0
    && u.pendingLogs == SaturatingSub(st.pendingLogs, |p.logs|)
    && u.pendingBytes == SaturatingSub(st.pendingBytes, p.logBytes)
  }

  lemma PublishRebuffers(cfg: Config, st: State, sequence: nat, id: Hash, c: Commitment)
    requires Publish(cfg, st, sequence, id, c).Ok?
    ensures Rebuffered(st, Publish(cfg, st, sequence, id, c).value.0, id)
  {
  }

  lemma RebufferedKeepsSums(st: State, u: State, id: Hash)
    requires ExactSums(st) && Rebuffered(st, u, id)
    ensures ExactSums(u) && u.pendingLogs <= st.pendingLogs && u.pendingBytes <= st.pendingBytes
  {
    UpdateKeepsSums(st, id, u.proposals[id]);
  }

  lemma RebufferedKeeps(cfg: Config, st: State, u: State, id: Hash)
    requires Accounted(cfg, st) && Rebuffered(st, u, id)
    ensures Accounted(cfg, u)
  {
    var q := u.proposals[id];
    RebufferedKeepsSums(st, u, id);
    UpdateKeepsIndex(st.proposals, st.byHeight, id, q);
    UpdateKeepsBytes(st.proposals, id, q);
    SameSize(st.proposals, id, q);
  }

  lemma SameSize(ps: map<Hash, Proposal>, id: Hash, q: Proposal)
    requires id in ps
    ensures |ps[id := q]| == |ps|
  {
    assert ps[id := q].Keys == ps.Keys;
    assert |ps[id := q]| == |ps[id := q].Keys|;
  }

  lemma PublishKeeps(cfg: Config, st: State, sequence: nat, id: Hash, c: Commitment)
    requires Accounted(cfg, st) && Publish(cfg, st, sequence, id, c).Ok?
    ensures Accounted(cfg, Publish(cfg, st, sequence, id, c).value.0)
    ensures OneSettled(st.proposals) ==> OneSettled(Publish(cfg, st, sequence, id, c).value.0.proposals)
  {
    var u := Publish(cfg, st, sequence, id, c).value.0;
    PublishRebuffers(cfg, st, sequence, id, c);
    RebufferedKeeps(cfg, st, u, id);
    if OneSettled(st.proposals) {
      UpdateKeepsSettled(st.proposals, id, u.proposals[id]);
    }
  }

  lemma FinishKeeps(cfg: Config, st: State, sequence: nat, hash: Hash)
    requires Invariant(cfg, st) && st.active.Some? && st.active.value.id !in st.proposals
    ensures Invariant(cfg, Finish(st, sequence, hash))
  {
    var a := st.active.value;
    var p := Completed(a, sequence, hash);
    TotalInsert(st.proposals, a.id, p, Count);
    TotalInsert(st.proposals, a.id, p, Bytes);
    InsertKeepsIndex(st.proposals, st.byHeight, a.id, p);
    HashKeepsBytes(a.logs, hash);
    UpdateKeepsBytes(st.proposals, a.id, p);
    UpdateKeepsSettled(st.proposals, a.id, p);
    assert st.proposals[a.id := p].Keys == st.proposals.Keys + {a.id};
    assert |st.proposals[a.id := p]| == |st.proposals[a.id := p].Keys|;
  }

  lemma EndKeeps(cfg: Config, st: State, sequence: nat, block: Option<nat>, hash: Hash)
    requires Invariant(cfg, st) && EndStep(cfg, st, sequence, block, hash).Ok?
    ensures Invariant(cfg, EndStep(cfg, st, sequence, block, hash).value.0)
  {
    FinishKeeps(cfg, st, sequence, hash);
    if cfg.delivery.BlockOrderedDelivery? {
      PublishKeeps(cfg, Finish(st, sequence, hash), sequence, st.active.value.id, Canonical);
    }
  }

  lemma AdvanceKeeps(cfg: Config, st: State, sequence: nat, id: Hash, stage: Stage)
    requires Accounted(cfg, st) && id in st.proposals
    ensures Accounted(cfg, Advance(st, sequence, id, stage))
  {
    var q := st.proposals[id].(stage := stage, lastSequence := sequence);
    UpdateKeepsSums(st, id, q);
    UpdateKeepsIndex(st.proposals, st.byHeight, id, q);
    UpdateKeepsBytes(st.proposals, id, q);
    SameSize(st.proposals, id, q);
  }

  lemma QcKeeps(cfg: Config, st: State, sequence: nat, id: Hash, blockNumber: nat)
    requires Invariant(cfg, st) && QcStep(cfg, st, sequence, id, blockNumber).Ok?
    ensures Invariant(cfg, QcStep(cfg, st, sequence, id, blockNumber).value.0)
  {
    if id in st.proposals && st.proposals[id].stage.Proposed? {
      AdvanceKeeps(cfg, st, sequence, id, Voted);
      UpdateKeepsSettled(st.proposals, id, st.proposals[id].(stage := Voted, lastSequence := sequence));
      if !cfg.delivery.FinalizedDelivery? {
        PublishKeeps(cfg, Advance(st, sequence, id, Voted), sequence, id, Canonical);
      }
    }
  }

  lemma PruneKeepsIndex(ps: map<Hash, Proposal>, index: map<nat, seq<Hash>>, id: Hash, h: nat, gone: set<Hash>)
    requires Indexed(ps, index) && id in ps && ps[id].blockNumber == h
    requires forall x :: x in gone <==> x in index[h] && x != id
    ensures Indexed(ps - gone, index[h := [id]])
  {
    var qs, next := ps - gone, index[h := [id]];
    assert forall x :: x in gone ==> x in ps && ps[x].blockNumber == h;
    forall g, x | g in next && x in next[g]
      ensures x in qs && qs[x].blockNumber == g
    {
      if g != h {
        assert x in index[g] && ps[x].blockNumber == g;
      }
    }
    forall x | x in qs
      ensures qs[x].blockNumber in next && x in next[qs[x].blockNumber]
    {
      assert x in index[ps[x].blockNumber];
    }
  }

  lemma SmallerMap(ps: map<Hash, Proposal>, gone: set<Hash>)
    ensures |ps - gone| <= |ps|
  {
    assert ps.Keys == (ps - gone).Keys + (ps.Keys * gone);
    assert |(ps - gone).Keys| == |ps - gone| && |ps.Keys| == |ps|;
  }

  lemma DropKeeps(cfg: Config, st: State, id: Hash, h: nat)
    requires Accounted(cfg, st) && id in st.proposals && st.proposals[id].blockNumber == h
    ensures Accounted(cfg, DropCompetitors(st, id, h))
    ensures var u := DropCompetitors(st, id, h);
      forall x :: x in u.proposals <==> x in st.proposals && (st.proposals[x].blockNumber == h ==> x == id)
    ensures forall x :: x in DropCompetitors(st, id, h).proposals ==>
      DropCompetitors(st, id, h).proposals[x] == st.proposals[x]
  {
    var abandoned := Others(st.byHeight[h], id);
    var gone := set x | x in abandoned;
    OthersAre(st.byHeight[h], id);
    RemoveAllEffect(st.(byHeight := st.byHeight[h := [id]]), abandoned);
    PruneKeepsIndex(st.proposals, st.byHeight, id, h, gone);
    SmallerMap(st.proposals, gone);
  }

  lemma FinalizeKeeps(cfg: Config, st: State, sequence: nat, id: Hash, h: nat)
    requires Invariant(cfg, st) && FinalizeStep(cfg, st, sequence, id, h).Ok?
    ensures Invariant(cfg, FinalizeStep(cfg, st, sequence, id, h).value.0)
  {
    if id in st.proposals {
      AdvanceKeeps(cfg, st, sequence, id, Settled);
      var settled := Advance(st, sequence, id, Settled);
      PublishKeeps(cfg, settled, sequence, id, Finalized);
      PublishRebuffers(cfg, settled, sequence, id, Finalized);
      var next := Publish(cfg, settled, sequence, id, Finalized).value.0;
      DropKeeps(cfg, next, id, h);
      PrunedSettled(st.proposals, DropCompetitors(next, id, h).proposals, id, h);
    }
  }

  /** Once only `id` is left at its height, it is the only finalized proposal there. */
  lemma PrunedSettled(ps: map<Hash, Proposal>, qs: map<Hash, Proposal>, id: Hash, h: nat)
    requires OneSettled(ps)
    requires forall x :: x in qs ==> qs[x].blockNumber == h ==> x == id
    requires forall x :: x in qs && x != id ==> x in ps && qs[x] == ps[x]
    requires id in qs && qs[id].blockNumber == h
    ensures OneSettled(qs)
  {
    forall a, b, g | SettledAt(qs, a, g) && SettledAt(qs, b, g)
      ensures a == b
    {
      if g != h {
        assert SettledAt(ps, a, g) && SettledAt(ps, b, g);
      }
    }
  }

  lemma VerifyKeepsIndex(ps: map<Hash, Proposal>, index: map<nat, seq<Hash>>, id: Hash, h: nat)
    requires Indexed(ps, index) && h in index && index[h] == [id]
    ensures Indexed(ps - {id}, index - {h})
  {
    var qs, next := ps - {id}, index - {h};
    assert index[h][0] == id && ps[id].blockNumber == h;
    forall g, x | g in next && x in next[g]
      ensures x in qs && qs[x].blockNumber == g
    {
      assert x in index[g];
    }
    forall x | x in qs
      ensures qs[x].blockNumber in next && x in next[qs[x].blockNumber]
    {
      assert x in index[ps[x].blockNumber];
    }
  }

  lemma VerifyKeeps(cfg: Config, st: State, sequence: nat, h: nat)
    requires Invariant(cfg, st) && VerifyStep(st, sequence, h).Ok?
    ensures Invariant(cfg, VerifyStep(st, sequence, h).value.0)
  {
    if h in st.byHeight {
      var id := st.byHeight[h][0];
      assert st.byHeight[h] == [id];
      RemoveKeepsSums(st, id);
      VerifyKeepsIndex(st.proposals, st.byHeight, id, h);
      SmallerMap(st.proposals, {id});
      var qs := st.proposals - {id};
      forall a, b, g | SettledAt(qs, a, g) && SettledAt(qs, b, g)
        ensures a == b
      {
        assert SettledAt(st.proposals, a, g) && SettledAt(st.proposals, b, g);
      }
    }
  }

  lemma SynchronizedInvariant(cfg: Config, st: State)
    ensures Invariant(cfg, st.(synchronized := true)) <==> Invariant(cfg, st)
  {
  }

  lemma ExecutionKeeps(cfg: Config, st: State, r: Record)
    requires Invariant(cfg, st) && Process(cfg, st, r).Ok?
    requires r.input.Start? || r.input.Log? || r.input.SkippedLog? || r.input.End?
    ensures Invariant(cfg, Process(cfg, st, r).value.0)
  {
    var s := st.(synchronized := true);
    SynchronizedInvariant(cfg, st);
    if r.input.Start? {
      StartKeeps(cfg, s, r.sequence, r.input.id, r.input.blockNumber, r.input.parentHash);
    } else if st.synchronized {
      if r.input.Log? {
        LogKeeps(cfg, s, r.sequence, r.blockNumber, r.input);
      } else if r.input.End? {
        EndKeeps(cfg, s, r.sequence, r.blockNumber, r.input.blockHash);
      }
    }
  }

  lemma ConsensusKeeps(cfg: Config, st: State, r: Record)
    requires Invariant(cfg, st) && Process(cfg, st, r).Ok?
    requires r.input.Qc? || r.input.Finalize? || r.input.Verify?
    ensures Invariant(cfg, Process(cfg, st, r).value.0)
  {
    var s := st.(synchronized := true);
    SynchronizedInvariant(cfg, st);
    if st.synchronized {
      if r.input.Qc? {
        QcKeeps(cfg, s, r.sequence, r.input.id, r.input.blockNumber);
      } else if r.input.Finalize? {
        FinalizeKeeps(cfg, s, r.sequence, r.input.id, r.input.blockNumber);
      } else {
        VerifyKeeps(cfg, s, r.sequence, r.input.blockNumber);
      }
    }
  }

  /** Every accepted record keeps the invariant, in every delivery mode. */
  lemma ProcessKeeps(cfg: Config, st: State, r: Record)
    requires Invariant(cfg, st) && Process(cfg, st, r).Ok?
    ensures Invariant(cfg, Process(cfg, st, r).value.0)
  {
    if r.input.Start? || r.input.Log? || r.input.SkippedLog? || r.input.End? {
      ExecutionKeeps(cfg, st, r);
    } else if r.input.Qc? || r.input.Finalize? || r.input.Verify? {
      ConsensusKeeps(cfg, st, r);
    } else {
      SynchronizedInvariant(cfg, st);
    }
  }

  // ---- Saturating subtractions ----

  datatype Counter = LogCounter | ByteCounter

  /** A saturating subtraction as it is met: from which counter, at what value, and how much. */
  datatype Subtraction = Subtraction(of: Counter, counter: nat, amount: nat)

  predicate Exact(subtractions: seq<Subtraction>) {
    forall i :: 0 <= i < |subtractions| ==> subtractions[i].amount <= subtractions[i].counter
  }

  /** One proposal's share of both counters, taken in the given state. */
  function Share(st: State, id: Hash): seq<Subtraction> {
    if id !in st.proposals then []
    else
      [Subtraction(LogCounter, st.pendingLogs, |st.proposals[id].logs|),
       Subtraction(ByteCounter, st.pendingBytes, st.proposals[id].logBytes)]
  }

  function ShareOnPublish(cfg: Config, st: State, id: Hash, c: Commitment): seq<Subtraction> {
    if cfg.emitRemovedLogs && !c.Finalized? then [] else Share(st, id)
  }

  function Shares(st: State, ids: seq<Hash>): seq<Subtraction>
    decreases |ids|
  {
    if ids == [] then [] else Share(st, ids[0]) + Shares(RemoveProposal(st, ids[0]), ids[1..])
  }

  /** Every subtraction an accepted record makes, each in the state it is made in. */
  function Subtractions(cfg: Config, st: State, r: Record): seq<Subtraction>
    requires Process(cfg, st, r).Ok?
  {
    if !st.synchronized then []
    else match r.input
      case End(hash) =>
        if cfg.delivery.BlockOrderedDelivery?
        then ShareOnPublish(cfg, Finish(st, r.sequence, hash), st.active.value.id, Canonical) else []
      case Qc(id, _) =>
        if id in st.proposals && st.proposals[id].stage.Proposed? && !cfg.delivery.FinalizedDelivery?
        then ShareOnPublish(cfg, Advance(st, r.sequence, id, Voted), id, Canonical) else []
      case Finalize(id, h) =>
        if id !in st.proposals then []
        else
          var settled := Advance(st, r.sequence, id, Settled);
          var next := Publish(cfg, settled, r.sequence, id, Finalized).value.0;
          if h !in next.byHeight then []
          else
            ShareOnPublish(cfg, settled, id, Finalized)
            + Shares(next.(byHeight := next.byHeight[h := [id]]), Others(next.byHeight[h], id))
      case Verify(h) => if h in st.byHeight && st.byHeight[h] != [] then Share(st, st.byHeight[h][0]) else []
      case _ => []
  }

  lemma ShareIsExact(st: State, id: Hash)
    requires ExactSums(st)
    ensures Exact(Share(st, id))
  {
    if id in st.proposals {
      ShareIsCounted(st, id);
    }
  }

  lemma {:induction false} SharesAreExact(st: State, ids: seq<Hash>)
    requires ExactSums(st)
    ensures Exact(Shares(st, ids))
    decreases |ids|
  {
    if ids != [] {
      ShareIsExact(st, ids[0]);
      RemoveKeepsSums(st, ids[0]);
      SharesAreExact(RemoveProposal(st, ids[0]), ids[1..]);
    }
  }

  lemma FinalizeIsExact(cfg: Config, st: State, sequence: nat, id: Hash, h: nat)
    requires Accounted(cfg, st) && id in st.proposals
    ensures var settled := Advance(st, sequence, id, Settled);
      var next := Publish(cfg, settled, sequence, id, Finalized).value.0;
      && Exact(Share(settled, id))
      && (h in next.byHeight ==>
            Exact(Shares(next.(byHeight := next.byHeight[h := [id]]), Others(next.byHeight[h], id))))
  {
    var settled := Advance(st, sequence, id, Settled);
    AdvanceKeeps(cfg, st, sequence, id, Settled);
    PublishKeeps(cfg, settled, sequence, id, Finalized);
    var next := Publish(cfg, settled, sequence, id, Finalized).value.0;
    ShareIsExact(settled, id);
    if h in next.byHeight {
      SharesAreExact(next.(byHeight := next.byHeight[h := [id]]), Others(next.byHeight[h], id));
    }
  }

  lemma EndIsExact(cfg: Config, st: State, r: Record)
    requires Invariant(cfg, st) && Process(cfg, st, r).Ok? && st.synchronized && r.input.End?
    ensures Exact(Subtractions(cfg, st, r))
  {
    assert st == st.(synchronized := true);
    FinishKeeps(cfg, st, r.sequence, r.input.blockHash);
    ShareIsExact(Finish(st, r.sequence, r.input.blockHash), st.active.value.id);
  }

  lemma QcIsExact(cfg: Config, st: State, r: Record)
    requires Invariant(cfg, st) && Process(cfg, st, r).Ok? && st.synchronized && r.input.Qc?
    ensures Exact(Subtractions(cfg, st, r))
  {
    if r.input.id in st.proposals {
      AdvanceKeeps(cfg, st, r.sequence, r.input.id, Voted);
      ShareIsExact(Advance(st, r.sequence, r.input.id, Voted), r.input.id);
    }
  }

  lemma SettlementIsExact(cfg: Config, st: State, r: Record)
    requires Invariant(cfg, st) && Process(cfg, st, r).Ok? && st.synchronized && (r.input.Finalize? || r.input.Verify?)
    ensures Exact(Subtractions(cfg, st, r))
  {
    if r.input.Finalize? {
      if r.input.id in st.proposals {
        FinalizeIsExact(cfg, st, r.sequence, r.input.id, r.input.blockNumber);
      }
    } else if r.input.blockNumber in st.byHeight {
      ShareIsExact(st, st.byHeight[r.input.blockNumber][0]);
    }
  }

  /** No saturating subtraction of an accepted record saturates. */
  lemma RecordIsExact(cfg: Config, st: State, r: Record)
    requires Invariant(cfg, st) && Process(cfg, st, r).Ok?
    ensures Exact(Subtractions(cfg, st, r))
  {
    if st.synchronized {
      if r.input.End? {
        EndIsExact(cfg, st, r);
      } else if r.input.Qc? {
        QcIsExact(cfg, st, r);
      } else if r.input.Finalize? || r.input.Verify? {
        SettlementIsExact(cfg, st, r);
      }
    }
  }

  // ---- Runs ----

  /** Processes records until the first gap. */
  function Run(cfg: Config, st: State, records: seq<Record>): Outcome
    decreases |records|
  {
    if records == [] then Ok((st, []))
    else
      var first :- Process(cfg, st, records[0]);
      var rest :- Run(cfg, first.0, records[1..]);
      Ok((rest.0, first.1 + rest.1))
  }

  lemma {:induction false} RunKeeps(cfg: Config, st: State, records: seq<Record>)
    requires Invariant(cfg, st) && Run(cfg, st, records).Ok?
    ensures Invariant(cfg, Run(cfg, st, records).value.0)
    decreases |records|
  {
    if records != [] {
      ProcessKeeps(cfg, st, records[0]);
      RunKeeps(cfg, Process(cfg, st, records[0]).value.0, records[1..]);
    }
  }

  ghost function RunSubtractions(cfg: Config, st: State, records: seq<Record>): seq<Subtraction>
    requires Run(cfg, st, records).Ok?
    decreases |records|
  {
    if records == [] then []
    else
      Subtractions(cfg, st, records[0])
      + RunSubtractions(cfg, Process(cfg, st, records[0]).value.0, records[1..])
  }

  lemma {:induction false} RunIsExact(cfg: Config, st: State, records: seq<Record>)
    requires Invariant(cfg, st) && Run(cfg, st, records).Ok?
    ensures Exact(RunSubtractions(cfg, st, records))
    decreases |records|
  {
    if records != [] {
      RecordIsExact(cfg, st, records[0]);
      ProcessKeeps(cfg, st, records[0]);
      RunIsExact(cfg, Process(cfg, st, records[0]).value.0, records[1..]);
    }
  }

  /** Over every run no saturating subtraction, at any intermediate state of a record, takes more than is there. */
  lemma NeverSaturates(cfg: Config, st: State, records: seq<Record>)
    requires Initial(st) && Run(cfg, st, records).Ok?
    ensures Exact(RunSubtractions(cfg, st, records))
  {
    RunIsExact(cfg, st, records);
  }

  /**
   * After every run of accepted records from a new lifecycle: the counters are
   * the exact sums of buffered logs and bytes and within their limits, proposals
   * and the active one stay within theirs, the height index lists exactly the
   * live proposals, and at most one proposal per height is finalized.
   */
  lemma BudgetsAreExact(cfg: Config, st: State, records: seq<Record>)
    requires Initial(st) && Run(cfg, st, records).Ok?
    ensures Invariant(cfg, Run(cfg, st, records).value.0)
  {
    RunKeeps(cfg, st, records);
  }
}
