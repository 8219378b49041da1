/**
 * The two budget counters of the proposal lifecycle as ledgers: the listed
 * subtractions are all there are, and what was added less what was taken is
 * what a counter says.
 */
module LifecycleLedger {
  import opened Chain
  import opened Lifecycle
  import opened LifecycleBudget

  datatype Balance = Balance(logs: nat, bytes: nat)

  function BalanceOf(st: State): Balance { Balance(st.pendingLogs, st.pendingBytes) }

  /** What one saturating subtraction leaves. */
  function Less(b: Balance, s: Subtraction): Balance {
    match s.of
    case LogCounter => b.(logs := SaturatingSub(b.logs, s.amount))
    case ByteCounter => b.(bytes := SaturatingSub(b.bytes, s.amount))
  }

  predicate Reads(b: Balance, s: Subtraction) {
    s.counter == if s.of.LogCounter? then b.logs else b.bytes
  }

  /** Starting at one balance the subtractions, each made on the counter as it then stands, lead to another. */
  predicate Leads(from: Balance, subtractions: seq<Subtraction>, to: Balance)
    decreases |subtractions|
  {
    if subtractions == [] then from == to
    else Reads(from, subtractions[0]) && Leads(Less(from, subtractions[0]), subtractions[1..], to)
  }

  /** The log a record adds to a buffer, if any. */
  function Buffered(cfg: Config, st: State, r: Record): seq<ExecutionLog> {
    if !st.synchronized || !r.input.Log? || st.active.None? || (cfg.delivery.RealtimeDelivery? && !cfg.emitRemovedLogs)
    then [] else [BuildLog(st.active.value, r.sequence, r.input)]
  }

  /** The balance with more logs on top. */
  function Plus(b: Balance, logs: seq<ExecutionLog>): Balance {
    Balance(b.logs + |logs|, b.bytes + BytesIn(logs))
  }

  // ---- Every subtraction is listed ----

  lemma {:induction false} LeadsOn(a: Balance, s: seq<Subtraction>, b: Balance, t: seq<Subtraction>, c: Balance)
    requires Leads(a, s, b) && Leads(b, t, c)
    ensures Leads(a, s + t, c)
    decreases |s|
  {
    if s == [] {
      assert s + t == t;
    } else {
      LeadsOn(Less(a, s[0]), s[1..], b, t, c);
      assert (s + t)[1..] == s[1..] + t;
    }
  }

  lemma ShareLeads(st: State, id: Hash, b: Balance)
    requires id in st.proposals
    requires b.logs == SaturatingSub(st.pendingLogs, |st.proposals[id].logs|)
    requires b.bytes == SaturatingSub(st.pendingBytes, st.proposals[id].logBytes)
    ensures Leads(BalanceOf(st), Share(st, id), b)
  {
    var s := Share(st, id);
    assert s[1..] == [s[1]];
    assert Leads(b, s[1..][1..], b);
    assert Leads(Less(BalanceOf(st), s[0]), s[1..], b);
  }

  lemma RemovalLeads(st: State, id: Hash)
    ensures Leads(BalanceOf(st), Share(st, id), BalanceOf(RemoveProposal(st, id)))
  {
    if id in st.proposals {
      ShareLeads(st, id, BalanceOf(RemoveProposal(st, id)));
    }
  }

  lemma {:induction false} RemovalsLead(st: State, ids: seq<Hash>)
    ensures Leads(BalanceOf(st), Shares(st, ids), BalanceOf(RemoveAll(st, ids)))
    decreases |ids|
  {
    if ids != [] {
      var n := RemoveProposal(st, ids[0]);
      RemovalLeads(st, ids[0]);
      RemovalsLead(n, ids[1..]);
      LeadsOn(BalanceOf(st), Share(st, ids[0]), BalanceOf(n), Shares(n, ids[1..]), BalanceOf(RemoveAll(st, ids)));
    }
  }

  lemma PublishLeads(cfg: Config, st: State, sequence: nat, id: Hash, c: Commitment)
    requires Publish(cfg, st, sequence, id, c).Ok?
    ensures Leads(BalanceOf(st), ShareOnPublish(cfg, st, id, c), BalanceOf(Publish(cfg, st, sequence, id, c).value.0))
  {
    if !cfg.emitRemovedLogs || c.Finalized? {
      ShareLeads(st, id, BalanceOf(Publish(cfg, st, sequence, id, c).value.0));
    }
  }

  lemma FinalizeLeads(cfg: Config, st: State, r: Record)
    requires Process(cfg, st, r).Ok? && st.synchronized && r.input.Finalize?
    ensures Leads(BalanceOf(st), Subtractions(cfg, st, r), BalanceOf(Process(cfg, st, r).value.0))
  {
    var id, h := r.input.id, r.input.blockNumber;
    assert st == st.(synchronized := true);
    if id in st.proposals {
      var settled := Advance(st, r.sequence, id, Settled);
      PublishLeads(cfg, settled, r.sequence, id, Finalized);
      var next := Publish(cfg, settled, r.sequence, id, Finalized).value.0;
      var pruned := next.(byHeight := next.byHeight[h := [id]]);
      var abandoned := Others(next.byHeight[h], id);
      RemovalsLead(pruned, abandoned);
      LeadsOn(BalanceOf(settled), ShareOnPublish(cfg, settled, id, Finalized), BalanceOf(next),
              Shares(pruned, abandoned), BalanceOf(RemoveAll(pruned, abandoned)));
    }
  }

  lemma EndLeads(cfg: Config, st: State, r: Record)
    requires Process(cfg, st, r).Ok? && st.synchronized && r.input.End?
    ensures Leads(BalanceOf(st), Subtractions(cfg, st, r), BalanceOf(Process(cfg, st, r).value.0))
  {
    assert st == st.(synchronized := true);
    if cfg.delivery.BlockOrderedDelivery? {
      PublishLeads(cfg, Finish(st, r.sequence, r.input.blockHash), r.sequence, st.active.value.id, Canonical);
    }
  }

  lemma QcLeads(cfg: Config, st: State, r: Record)
    requires Process(cfg, st, r).Ok? && st.synchronized && r.input.Qc?
    ensures Leads(BalanceOf(st), Subtractions(cfg, st, r), BalanceOf(Process(cfg, st, r).value.0))
  {
    var id := r.input.id;
    assert st == st.(synchronized := true);
    if id in st.proposals && st.proposals[id].stage.Proposed? && !cfg.delivery.FinalizedDelivery? {
      PublishLeads(cfg, Advance(st, r.sequence, id, Voted), r.sequence, id, Canonical);
    }
  }

  lemma VerifyLeads(cfg: Config, st: State, r: Record)
    requires Process(cfg, st, r).Ok? && st.synchronized && r.input.Verify?
    ensures Leads(BalanceOf(st), Subtractions(cfg, st, r), BalanceOf(Process(cfg, st, r).value.0))
  {
    assert st == st.(synchronized := true);
    if r.input.blockNumber in st.byHeight {
      RemovalLeads(st, st.byHeight[r.input.blockNumber][0]);
    }
  }

  /**
   * The counters after any accepted record come from those before it by adding
   * the log it buffers and then making exactly the listed subtractions, each on
   * the counter as it then stands.
   */
  lemma RecordLeads(cfg: Config, st: State, r: Record)
    requires Process(cfg, st, r).Ok?
    ensures Leads(Plus(BalanceOf(st), Buffered(cfg, st, r)), Subtractions(cfg, st, r),
                  BalanceOf(Process(cfg, st, r).value.0))
  {
    if st.synchronized && r.input.End? {
      EndLeads(cfg, st, r);
    } else if st.synchronized && r.input.Qc? {
      QcLeads(cfg, st, r);
    } else if st.synchronized && r.input.Finalize? {
      FinalizeLeads(cfg, st, r);
    } else if st.synchronized && r.input.Verify? {
      VerifyLeads(cfg, st, r);
    } else if Buffered(cfg, st, r) != [] {
      assert Buffered(cfg, st, r)[..0] == [];
    }
  }

  // ---- Balances ----

  /** All that is taken from one counter. */
  function Taken(subtractions: seq<Subtraction>, of: Counter): nat {
    if subtractions == [] then 0
    else (if subtractions[0].of == of then subtractions[0].amount else 0) + Taken(subtractions[1..], of)
  }

  lemma {:induction false} TakenAppend(s: seq<Subtraction>, t: seq<Subtraction>, of: Counter)
    ensures Taken(s + t, of) == Taken(s, of) + Taken(t, of)
    decreases |s|
  {
    if s == [] {
      assert s + t == t;
    } else {
      TakenAppend(s[1..], t, of);
      assert (s + t)[1..] == s[1..] + t;
    }
  }

  /** Subtractions that never saturate take exactly their amounts. */
  lemma {:induction false} ExactTakes(from: Balance, s: seq<Subtraction>, to: Balance)
    requires Leads(from, s, to) && Exact(s)
    ensures to.logs + Taken(s, LogCounter) == from.logs && to.bytes + Taken(s, ByteCounter) == from.bytes
    decreases |s|
  {
    if s != [] {
      assert s[0].amount <= s[0].counter;
      ExactTakes(Less(from, s[0]), s[1..], to);
    }
  }

  /** Each counter after a record is the counter before it, plus what the record buffers, less all it takes. */
  lemma RecordBalances(cfg: Config, st: State, r: Record)
    requires Invariant(cfg, st) && Process(cfg, st, r).Ok?
    ensures var next := Process(cfg, st, r).value.0;
      var taken := Subtractions(cfg, st, r);
      && next.pendingLogs + Taken(taken, LogCounter) == st.pendingLogs + |Buffered(cfg, st, r)|
      && next.pendingBytes + Taken(taken, ByteCounter) == st.pendingBytes + BytesIn(Buffered(cfg, st, r))
  {
    RecordLeads(cfg, st, r);
    RecordIsExact(cfg, st, r);
    ExactTakes(Plus(BalanceOf(st), Buffered(cfg, st, r)), Subtractions(cfg, st, r),
               BalanceOf(Process(cfg, st, r).value.0));
  }

  /** Every log buffered in a run. */
  function RunBuffered(cfg: Config, st: State, records: seq<Record>): seq<ExecutionLog>
    requires Run(cfg, st, records).Ok?
    decreases |records|
  {
    if records == [] then []
    else Buffered(cfg, st, records[0]) + RunBuffered(cfg, Process(cfg, st, records[0]).value.0, records[1..])
  }

  lemma {:induction false} BytesAppend(s: seq<ExecutionLog>, t: seq<ExecutionLog>)
    ensures BytesIn(s + t) == BytesIn(s) + BytesIn(t)
    decreases |t|
  {
    if t == [] {
      assert s + t == s;
    } else {
      var n := |t| - 1;
      BytesAppend(s, t[..n]);
      assert (s + t)[..|s + t| - 1] == s + t[..n];
    }
  }

  lemma {:induction false} RunsBalance(cfg: Config, st: State, records: seq<Record>)
    requires Invariant(cfg, st) && Run(cfg, st, records).Ok?
    ensures var last := Run(cfg, st, records).value.0;
      var taken := RunSubtractions(cfg, st, records);
      && last.pendingLogs + Taken(taken, LogCounter) == st.pendingLogs + |RunBuffered(cfg, st, records)|
      && last.pendingBytes + Taken(taken, ByteCounter) == st.pendingBytes + BytesIn(RunBuffered(cfg, st, records))
    decreases |records|
  {
    if records != [] {
      var next := Process(cfg, st, records[0]).value.0;
      RecordBalances(cfg, st, records[0]);
      ProcessKeeps(cfg, st, records[0]);
      RunsBalance(cfg, next, records[1..]);
      var s, t := Subtractions(cfg, st, records[0]), RunSubtractions(cfg, next, records[1..]);
      TakenAppend(s, t, LogCounter);
      TakenAppend(s, t, ByteCounter);
      BytesAppend(Buffered(cfg, st, records[0]), RunBuffered(cfg, next, records[1..]));
    }
  }

  /**
   * Over every run from a new lifecycle, all the logs and bytes buffered are
   * accounted for: taken by a listed subtraction or still in the counter.
   */
  lemma CountersAreLedgers(cfg: Config, st: State, records: seq<Record>)
    requires Initial(st) && Run(cfg, st, records).Ok?
    ensures var last := Run(cfg, st, records).value.0;
      var taken := RunSubtractions(cfg, st, records);
      && last.pendingLogs + Taken(taken, LogCounter) == |RunBuffered(cfg, st, records)|
      && last.pendingBytes + Taken(taken, ByteCounter) == BytesIn(RunBuffered(cfg, st, records))
  {
    RunsBalance(cfg, st, records);
  }
}
