/**
 * Finalized delivery proposal by proposal, over every run: a buffered log leaves
 * as an applied log exactly once if its proposal is finalized and never otherwise.
 */
module LifecycleFinality {
  import opened Chain
  import opened Lifecycle
  import opened LifecycleBudget
  import opened LifecycleDelivery

  // ---- Moments of a run ----

  lemma {:induction false} RunSplits(cfg: Config, st: State, before: seq<Record>, after: seq<Record>)
    requires Run(cfg, st, before + after).Ok?
    ensures Run(cfg, st, before).Ok? && Run(cfg, Run(cfg, st, before).value.0, after).Ok?
    ensures var first := Run(cfg, st, before).value;
      var second := Run(cfg, first.0, after).value;
      Run(cfg, st, before + after).value == (second.0, first.1 + second.1)
    decreases |before|
  {
    if before == [] {
      assert before + after == after;
      assert [] + Run(cfg, st, after).value.1 == Run(cfg, st, after).value.1;
    } else {
      assert (before + after)[1..] == before[1..] + after;
      var step := Process(cfg, st, before[0]).value;
      RunSplits(cfg, step.0, before[1..], after);
      var first := Run(cfg, step.0, before[1..]).value;
      var second := Run(cfg, first.0, after).value;
      assert step.1 + (first.1 + second.1) == step.1 + first.1 + second.1;
    }
  }

  /** The state in which record `k` is processed. */
  function At(cfg: Config, st: State, records: seq<Record>, k: nat): (u: State)
    requires k <= |records| && Run(cfg, st, records).Ok?
  {
    assert records[..k] + records[k..] == records;
    RunSplits(cfg, st, records[..k], records[k..]);
    Run(cfg, st, records[..k]).value.0
  }

  lemma AtLater(cfg: Config, st: State, records: seq<Record>, k: nat)
    requires 0 < k <= |records| && Run(cfg, st, records).Ok?
    ensures At(cfg, st, records, k) == At(cfg, Process(cfg, st, records[0]).value.0, records[1..], k - 1)
  {
    assert records[..k][1..] == records[1..][..k - 1];
  }

  lemma AtFirst(cfg: Config, st: State, records: seq<Record>)
    requires Run(cfg, st, records).Ok?
    ensures At(cfg, st, records, 0) == st
  {
    assert records[..0] == [];
  }

  /** The output of a run around that of its record `k`. */
  lemma OutputAround(cfg: Config, st: State, records: seq<Record>, k: nat)
    returns (pre: seq<Event>, post: seq<Event>)
    requires k < |records| && Run(cfg, st, records).Ok?
    ensures Process(cfg, At(cfg, st, records, k), records[k]).Ok?
    ensures Run(cfg, st, records).value.1 == pre + Process(cfg, At(cfg, st, records, k), records[k]).value.1 + post
  {
    assert records[..k] + records[k..] == records;
    RunSplits(cfg, st, records[..k], records[k..]);
    pre := Run(cfg, st, records[..k]).value.1;
    var step := Process(cfg, At(cfg, st, records, k), records[k]).value;
    assert records[k..][1..] == records[k + 1..];
    post := Run(cfg, step.0, records[k + 1..]).value.1;
    assert pre + (step.1 + post) == pre + step.1 + post;
  }

  lemma {:induction false} RunQuiet(cfg: Config, st: State, records: seq<Record>)
    requires cfg.delivery.FinalizedDelivery? && Invariant(cfg, st) && Quiet(st) && Run(cfg, st, records).Ok?
    ensures Invariant(cfg, Run(cfg, st, records).value.0) && Quiet(Run(cfg, st, records).value.0)
    decreases |records|
  {
    if records != [] {
      ProcessKeeps(cfg, st, records[0]);
      ProcessQuiet(cfg, st, records[0]);
      RunQuiet(cfg, Process(cfg, st, records[0]).value.0, records[1..]);
    }
  }

  lemma AtQuiet(cfg: Config, st: State, records: seq<Record>, k: nat)
    requires cfg.delivery.FinalizedDelivery? && Initial(st) && k <= |records| && Run(cfg, st, records).Ok?
    ensures Invariant(cfg, At(cfg, st, records, k)) && Quiet(At(cfg, st, records, k))
  {
    InitiallySound(cfg, st);
    assert records[..k] + records[k..] == records;
    RunSplits(cfg, st, records[..k], records[k..]);
    RunQuiet(cfg, st, records[..k]);
  }

  // ---- Finalized ----

  /** Record `k` finalizes `id`, which then holds the log `x`. */
  ghost predicate FinalizesHolding(cfg: Config, st: State, records: seq<Record>, k: nat, id: Hash, x: ExecutionLog)
    requires Run(cfg, st, records).Ok?
  {
    k < |records| && var u := At(cfg, st, records, k);
      Finalizes(u, records[k], id) && Copies(u.proposals[id].logs, x) > 0
  }

  /**
   * At the record that finalizes a live proposal the run emits, in one piece, its
   * logs in increasing index and then its head.
   */
  lemma FinalizationIsDelivered(cfg: Config, st: State, records: seq<Record>, k: nat, id: Hash)
    returns (pre: seq<Event>, delivery: seq<Event>, post: seq<Event>)
    requires cfg.delivery.FinalizedDelivery? && Initial(st) && Run(cfg, st, records).Ok?
    requires k < |records| && Finalizes(At(cfg, st, records, k), records[k], id)
    ensures Run(cfg, st, records).value.1 == pre + delivery + post
    ensures var p := At(cfg, st, records, k).proposals[id];
      Waiting(p) && DeliversBefore(delivery, p, records[k].sequence)
  {
    var u := At(cfg, st, records, k);
    AtQuiet(cfg, st, records, k);
    pre, post := OutputAround(cfg, st, records, k);
    delivery := Process(cfg, u, records[k]).value.1;
    assert u == u.(synchronized := true);
    FinalizeDelivers(cfg, u, records[k].sequence, id, records[k].input.blockNumber);
  }

  /** So a log held by a proposal that is finalized is applied exactly once in the whole run. */
  lemma FinalizedIsAppliedOnce(cfg: Config, st: State, records: seq<Record>, k: nat, id: Hash, x: ExecutionLog)
    requires cfg.delivery.FinalizedDelivery? && Initial(st) && Run(cfg, st, records).Ok? && Increasing(records)
    requires FinalizesHolding(cfg, st, records, k, id, x)
    ensures Applied(Run(cfg, st, records).value.1, x) == 1
  {
    var pre, delivery, post := FinalizationIsDelivered(cfg, st, records, k, id);
    DeliveredCopies(delivery, At(cfg, st, records, k).proposals[id], records[k].sequence, x);
    AppliedConcat(pre + delivery, post, x);
    AppliedConcat(pre, delivery, x);
    DeliveryConserves(cfg, st, records, x);
  }

  // ---- Applied ----

  /** A record that applies a log finalizes a live proposal holding it. */
  lemma AppliedByFinalization(cfg: Config, st: State, r: Record, x: ExecutionLog)
    requires cfg.delivery.FinalizedDelivery? && Invariant(cfg, st) && Quiet(st) && Process(cfg, st, r).Ok?
    requires Applied(Process(cfg, st, r).value.1, x) > 0
    ensures r.input.Finalize? && Finalizes(st, r, r.input.id) && Copies(st.proposals[r.input.id].logs, x) > 0
  {
    ProcessConserves(cfg, st, r, x);
    if r.input.Finalize? && Finalizes(st, r, r.input.id) {
      assert st == st.(synchronized := true);
      FinalizeDelivers(cfg, st, r.sequence, r.input.id, r.input.blockNumber);
      DeliveredCopies(Process(cfg, st, r).value.1, st.proposals[r.input.id], r.sequence, x);
    } else {
      NoLogsApplied(Process(cfg, st, r).value.1, x);
    }
  }

  lemma {:induction false} AppliedSomewhere(cfg: Config, st: State, records: seq<Record>, x: ExecutionLog)
    returns (k: nat)
    requires cfg.delivery.FinalizedDelivery? && Invariant(cfg, st) && Quiet(st) && Run(cfg, st, records).Ok?
    requires Applied(Run(cfg, st, records).value.1, x) > 0
    ensures k < |records| && records[k].input.Finalize?
    ensures FinalizesHolding(cfg, st, records, k, records[k].input.id, x)
    decreases |records|
  {
    var first := Process(cfg, st, records[0]).value;
    var rest := records[1..];
    ProcessKeeps(cfg, st, records[0]);
    ProcessQuiet(cfg, st, records[0]);
    AppliedConcat(first.1, Run(cfg, first.0, rest).value.1, x);
    if Applied(first.1, x) > 0 {
      AppliedByFinalization(cfg, st, records[0], x);
      AtFirst(cfg, st, records);
      k := 0;
    } else {
      var j := AppliedSomewhere(cfg, first.0, rest, x);
      AtLater(cfg, st, records, j + 1);
      k := j + 1;
    }
  }

  /** A log is applied only by finalizing a proposal that holds it. */
  lemma AppliedWasFinalized(cfg: Config, st: State, records: seq<Record>, x: ExecutionLog) returns (k: nat)
    requires cfg.delivery.FinalizedDelivery? && Initial(st) && Run(cfg, st, records).Ok?
    requires Applied(Run(cfg, st, records).value.1, x) > 0
    ensures k < |records| && records[k].input.Finalize?
    ensures FinalizesHolding(cfg, st, records, k, records[k].input.id, x)
  {
    InitiallySound(cfg, st);
    k := AppliedSomewhere(cfg, st, records, x);
  }

  /**
   * Over every run of accepted records with increasing sequences: a log is
   * applied exactly once if a proposal holding it is finalized, and otherwise
   * not at all.
   */
  lemma AppliedExactlyWhenFinalized(cfg: Config, st: State, records: seq<Record>, x: ExecutionLog)
    requires cfg.delivery.FinalizedDelivery? && Initial(st) && Run(cfg, st, records).Ok? && Increasing(records)
    ensures var times := Applied(Run(cfg, st, records).value.1, x);
      if exists k, id :: FinalizesHolding(cfg, st, records, k, id, x) then times == 1 else times == 0
  {
    if Applied(Run(cfg, st, records).value.1, x) > 0 {
      var k := AppliedWasFinalized(cfg, st, records, x);
      assert FinalizesHolding(cfg, st, records, k, records[k].input.id, x);
    }
    if k, id :| FinalizesHolding(cfg, st, records, k, id, x) {
      FinalizedIsAppliedOnce(cfg, st, records, k, id, x);
    }
  }

  // ---- Abandoned ----

  lemma {:induction false} SumIncludes(ps: map<Hash, Proposal>, ids: seq<Hash>, id: Hash, m: Measure)
    requires id in ids && id in ps
    ensures SizeOf(ps[id], m) <= SumSizes(ps, ids, m)
  {
    if ids[0] != id {
      SumIncludes(ps, ids[1..], id, m);
    }
  }

  lemma {:induction false} DiscardedAt(cfg: Config, st: State, records: seq<Record>, k: nat, x: ExecutionLog)
    requires k < |records| && Run(cfg, st, records).Ok?
    ensures DiscardedIn(At(cfg, st, records, k), records[k], x) <= Discarded(cfg, st, records, x)
    decreases k
  {
    if k == 0 {
      AtFirst(cfg, st, records);
    } else {
      DiscardedAt(cfg, Process(cfg, st, records[0]).value.0, records[1..], k - 1, x);
      AtLater(cfg, st, records, k);
    }
  }

  lemma CompetitorIsListed(st: State, winner: Hash, id: Hash, h: nat, x: ExecutionLog)
    requires Indexed(st.proposals, st.byHeight) && winner in st.proposals && id in st.proposals && winner != id
    requires st.proposals[id].blockNumber == st.proposals[winner].blockNumber == h
    ensures h in st.byHeight
    ensures Copies(st.proposals[id].logs, x) <= SumSizes(st.proposals, Others(st.byHeight[h], winner), CopiesOf(x))
  {
    OthersAre(st.byHeight[h], winner);
    SumIncludes(st.proposals, Others(st.byHeight[h], winner), id, CopiesOf(x));
  }

  /** Finalizing one proposal discards what each competitor at its height holds. */
  lemma CompetitorIsDiscarded(cfg: Config, st: State, r: Record, winner: Hash, id: Hash, x: ExecutionLog)
    requires Invariant(cfg, st) && Process(cfg, st, r).Ok? && Finalizes(st, r, winner) && winner != id
    requires id in st.proposals && st.proposals[id].blockNumber == st.proposals[winner].blockNumber
    ensures Copies(st.proposals[id].logs, x) <= DiscardedIn(st, r, x)
  {
    FinalizeRecord(cfg, st, r);
    FinalizeUnfolds(cfg, st, r.sequence, winner, r.input.blockNumber);
    CompetitorIsListed(st, winner, id, r.input.blockNumber, x);
  }

  /** A log held by a proposal whose competitor is finalized is never applied. */
  lemma AbandonedNeverApplied(cfg: Config, st: State, records: seq<Record>, k: nat, winner: Hash, id: Hash,
                              x: ExecutionLog)
    requires cfg.delivery.FinalizedDelivery? && Initial(st) && Run(cfg, st, records).Ok? && Increasing(records)
    requires k < |records| && Finalizes(At(cfg, st, records, k), records[k], winner) && winner != id
    requires var u := At(cfg, st, records, k);
      && id in u.proposals && u.proposals[id].blockNumber == u.proposals[winner].blockNumber
      && Copies(u.proposals[id].logs, x) > 0
    ensures Applied(Run(cfg, st, records).value.1, x) == 0
  {
    AtQuiet(cfg, st, records, k);
    var _, _ := OutputAround(cfg, st, records, k);
    CompetitorIsDiscarded(cfg, At(cfg, st, records, k), records[k], winner, id, x);
    DiscardedAt(cfg, st, records, k, x);
    DeliveryConserves(cfg, st, records, x);
    AcceptedOnce(cfg, st, records, x);
  }
}
