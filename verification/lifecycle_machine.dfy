/**
 * The lifecycle as the object the source keeps: fields updated in place, logs
 * drained one by one. Every method does what the step functions say.
 */
module LifecycleMachine {
  import opened Chain
  import opened Lifecycle
  import opened LifecycleBudget
  import opened LifecycleDelivery

  type Emitted = Result<seq<Event>, Gap>

  lemma {:induction false} DrainEnds(logs: seq<ExecutionLog>, hash: Hash, c: Commitment, k: nat)
    requires k < |logs|
    ensures LogEvents(logs[..k + 1], None, hash, c, false)
      == LogEvents(logs[..k], None, hash, c, false) + [LogEvent(Materialize(logs[k], None, hash, c, false))]
  {
    assert logs[..k + 1][..k] == logs[..k];
  }

  method StampHash(buffered: seq<ExecutionLog>, hash: Hash) returns (logs: seq<ExecutionLog>)
    ensures logs == WithHash(buffered, hash)
  {
    logs := buffered;
    for i := 0 to |buffered|
      invariant |logs| == |buffered|
      invariant forall k :: 0 <= k < |logs| ==>
        logs[k] == if k < i then buffered[k].(blockHash := Some(hash)) else buffered[k]
    {
      logs := logs[i := logs[i].(blockHash := Some(hash))];
    }
  }

  class ProposalLifecycle {
    const config: Config
    var synchronized: bool
    var active: Option<ActiveProposal>
    var proposals: map<Hash, Proposal>
    var byHeight: map<nat, seq<Hash>>
    var published: map<nat, Hash>
    var pendingLogs: nat
    var pendingBytes: nat

    function View(): State
      reads this
    {
      State(synchronized, active, proposals, byHeight, published, pendingLogs, pendingBytes)
    }

    /** The outcome and, when it is not a gap, the new state are the specified ones. */
    predicate Follows(r: Emitted, spec: Outcome)
      reads this
    {
      && r.Ok? == spec.Ok?
      && (spec.Ok? ==> r.value == spec.value.1 && View() == spec.value.0)
    }

    /**
     * The counters, limits and height index are exact, and in finalized delivery
     * nothing was published early.
     */
    ghost predicate Sound()
      reads this
    {
      Invariant(config, View()) && (config.delivery.FinalizedDelivery? ==> Quiet(View()))
    }

    constructor (config: Config)
      ensures this.config == config && Initial(View()) && Sound()
    {
      this.config := config;
      synchronized, active := false, None;
      proposals, byHeight, published := map[], map[], map[];
      pendingLogs, pendingBytes := 0, 0;
      new;
      InitiallySound(config, View());
    }

    method Start(sequence: nat, id: Hash, blockNumber: nat, parentHash: Hash) returns (r: Emitted)
      modifies this
      ensures Follows(r, StartStep(config, old(View()), sequence, id, blockNumber, parentHash))
    {
      if active.Some? || |proposals| >= config.limits.maxProposals {
        return Err(Gap);
      }
      var output := [];
      var commitment: Option<Commitment> := if config.delivery.RealtimeDelivery? then Some(Realtime) else None;
      if commitment.Some? {
        var head := ExecutionHead(sequence, blockNumber, None, Some(parentHash), Realtime);
        output := SwitchBranch(config, View(), sequence, id, head);
        output := output + [HeadEvent(head)];
        published := published[blockNumber := id];
      }
      active := Some(ActiveProposal(id, blockNumber, parentHash, 0, [], 0, commitment));
      return Ok(output);
    }

    method TakeLogIndex(recordBlock: Option<nat>) returns (r: Result<nat, Gap>)
      modifies this
      ensures r.Ok? == NextLogIndex(old(View()), recordBlock).Ok?
      ensures r.Ok? ==> View() == NextLogIndex(old(View()), recordBlock).value
      ensures r.Ok? ==> r.value == old(View()).active.value.nextLogIndex
    {
      if active.None? {
        return Err(Gap);
      }
      var a := active.value;
      if recordBlock != Some(a.blockNumber) || a.nextLogIndex >= U32_MAX {
        return Err(Gap);
      }
      active := Some(a.(nextLogIndex := a.nextLogIndex + 1));
      return Ok(a.nextLogIndex);
    }

    method AddLog(sequence: nat, recordBlock: Option<nat>, input: Input) returns (r: Emitted)
      requires input.Log?
      modifies this
      ensures Follows(r, LogStep(config, old(View()), sequence, recordBlock, input))
    {
      var index := TakeLogIndex(recordBlock);
      if index.Err? {
        return Err(Gap);
      }
      var a := active.value;
      var log := ExecutionLog(sequence, input.sourceSubIndex, a.blockNumber, None, input.transactionIndex, index.value,
                              input.address, input.topics, input.data, false, CommitmentOr(a.publishedCommitment));
      if config.delivery.RealtimeDelivery? && !config.emitRemovedLogs {
        return Ok([LogEvent(log)]);
      }
      var bytes := LogSize(log);
      if pendingLogs >= config.limits.maxLogs || pendingBytes + bytes > config.limits.maxBytes {
        return Err(Gap);
      }
      active := Some(a.(logs := a.logs + [log], logBytes := a.logBytes + bytes));
      pendingLogs := pendingLogs + 1;
      pendingBytes := pendingBytes + bytes;
      return Ok(if config.delivery.RealtimeDelivery? then [LogEvent(log)] else []);
    }

    method Complete(sequence: nat, recordBlock: Option<nat>, hash: Hash) returns (r: Emitted)
      modifies this
      ensures Follows(r, EndStep(config, old(View()), sequence, recordBlock, hash))
    {
      if active.None? {
        return Err(Gap);
      }
      var a := active.value;
      active := None;
      if recordBlock != Some(a.blockNumber) {
        return Err(Gap);
      }
      var logs := StampHash(a.logs, hash);
      if a.id in proposals {
        return Err(Gap);
      }
      proposals := proposals[a.id := Proposal(a.blockNumber, hash, a.parentHash, sequence, Proposed, logs, a.logBytes,
                                              a.publishedCommitment)];
      var index := if a.blockNumber in byHeight then byHeight[a.blockNumber] else [];
      byHeight := byHeight[a.blockNumber := index + [a.id]];
      assert View() == Finish(old(View()), sequence, hash);
      match config.delivery
      case BlockOrderedDelivery =>
        r := PublishProposal(sequence, a.id, Canonical);
      case RealtimeDelivery =>
        var c := CommitmentOr(a.publishedCommitment);
        return Ok([HeadEvent(ExecutionHead(sequence, a.blockNumber, Some(hash), Some(a.parentHash), c))]);
      case FinalizedDelivery =>
        return Ok([]);
    }

    /** Emits applied copies of a proposal's logs and gives back their share of the log budget. */
    method Drain(logs: seq<ExecutionLog>, hash: Hash, c: Commitment, apply: bool) returns (output: seq<Event>)
      modifies this`pendingLogs
      ensures output == if apply then LogEvents(logs, None, hash, c, false) else []
      ensures pendingLogs == SaturatingSub(old(pendingLogs), |logs|)
    {
      output := [];
      for i := 0 to |logs|
        invariant output == if apply then LogEvents(logs[..i], None, hash, c, false) else []
        invariant pendingLogs == SaturatingSub(old(pendingLogs), i)
      {
        if apply {
          DrainEnds(logs, hash, c, i);
          output := output + [LogEvent(Materialize(logs[i], None, hash, c, false))];
        }
        pendingLogs := SaturatingSub(pendingLogs, 1);
      }
      assert logs[..|logs|] == logs;
    }

    method PublishProposal(sequence: nat, id: Hash, c: Commitment) returns (r: Emitted)
      modifies this
      ensures Follows(r, Publish(config, old(View()), sequence, id, c))
    {
      if id !in proposals {
        return Err(Gap);
      }
      var p := proposals[id];
      var changed := !(p.blockNumber in published && published[p.blockNumber] == id);
      var output := SwitchBranch(config, View(), sequence, id, HeadOf(p, sequence, c));
      var apply := p.publishedCommitment.None? || changed;
      var q := p.(lastSequence := sequence, publishedCommitment := Some(c));
      if config.emitRemovedLogs && !c.Finalized? {
        if apply {
          output := output + LogEvents(p.logs, None, p.blockHash, c, false);
        }
      } else {
        var applied := Drain(p.logs, p.blockHash, c, apply);
        output := output + applied;
        pendingBytes := SaturatingSub(pendingBytes, p.logBytes);
        q := q.(logs := [], logBytes := 0);
      }
      proposals := proposals[id := q];
      published := published[p.blockNumber := id];
      return Ok(output + [HeadEvent(HeadOf(p, sequence, c))]);
    }

    method Vote(sequence: nat, id: Hash, blockNumber: nat) returns (r: Emitted)
      modifies this
      ensures Follows(r, QcStep(config, old(View()), sequence, id, blockNumber))
    {
      if id !in proposals {
        return Ok([]);
      }
      var p := proposals[id];
      if p.blockNumber != blockNumber {
        return Err(Gap);
      }
      if !p.stage.Proposed? {
        return Ok([]);
      }
      proposals := proposals[id := p.(stage := Voted, lastSequence := sequence)];
      if config.delivery.FinalizedDelivery? {
        return Ok([]);
      }
      r := PublishProposal(sequence, id, Canonical);
    }

    method Remove(id: Hash)
      modifies this
      ensures View() == RemoveProposal(old(View()), id)
    {
      if id in proposals {
        var p := proposals[id];
        proposals := proposals - {id};
        pendingLogs := SaturatingSub(pendingLogs, |p.logs|);
        pendingBytes := SaturatingSub(pendingBytes, p.logBytes);
      }
    }

    method Abandon(ids: seq<Hash>)
      modifies this
      ensures View() == RemoveAll(old(View()), ids)
    {
      for i := 0 to |ids|
        invariant RemoveAll(View(), ids[i..]) == RemoveAll(old(View()), ids)
      {
        Remove(ids[i]);
        assert ids[i..][1..] == ids[i + 1..];
      }
    }

    method Settle(sequence: nat, id: Hash, blockNumber: nat) returns (r: Emitted)
      modifies this
      ensures Follows(r, FinalizeStep(config, old(View()), sequence, id, blockNumber))
    {
      if id !in proposals {
        return Ok([]);
      }
      var p := proposals[id];
      if p.blockNumber != blockNumber || p.stage.Settled? {
        return Err(Gap);
      }
      proposals := proposals[id := p.(stage := Settled, lastSequence := sequence)];
      r := PublishProposal(sequence, id, Finalized);
      if r.Err? {
        return Err(Gap);
      }
      if blockNumber !in byHeight {
        return Err(Gap);
      }
      var abandoned := Others(byHeight[blockNumber], id);
      byHeight := byHeight[blockNumber := [id]];
      Abandon(abandoned);
      published := published[blockNumber := id];
    }

    method Confirm(sequence: nat, blockNumber: nat) returns (r: Emitted)
      modifies this
      ensures Follows(r, VerifyStep(old(View()), sequence, blockNumber))
    {
      if blockNumber !in byHeight {
        return Ok([]);
      }
      var candidates := byHeight[blockNumber];
      byHeight := byHeight - {blockNumber};
      if |candidates| != 1 || candidates[0] !in proposals || !proposals[candidates[0]].stage.Settled? {
        return Err(Gap);
      }
      var head := HeadOf(proposals[candidates[0]], sequence, Finalized);
      Remove(candidates[0]);
      published := published - {blockNumber};
      return Ok([HeadEvent(head)]);
    }

    /** Dispatches one record once the stream is synchronized. */
    method Dispatch(record: Record) returns (r: Emitted)
      requires synchronized
      modifies this
      ensures Follows(r, Process(config, old(View()), record))
    {
      assert View() == View().(synchronized := true);
      match record.input
      case Start(id, blockNumber, parentHash) => r := Start(record.sequence, id, blockNumber, parentHash);
      case End(hash) => r := Complete(record.sequence, record.blockNumber, hash);
      case Qc(id, blockNumber) => r := Vote(record.sequence, id, blockNumber);
      case Finalize(id, blockNumber) => r := Settle(record.sequence, id, blockNumber);
      case Verify(blockNumber) => r := Confirm(record.sequence, blockNumber);
      case Fatal => r := Err(Gap);
      case Reject => r := Err(Gap);
      case SkippedLog =>
        var index := TakeLogIndex(record.blockNumber);
        r := if index.Ok? then Ok([]) else Err(Gap);
      case Log(_, _, _, _, _) => r := AddLog(record.sequence, record.blockNumber, record.input);
      case Ignore => r := Ok([]);
    }

    /**
     * One decoded record. As long as no gap is reported the object stays sound,
     * and in finalized delivery every log it held or took in is afterwards held,
     * emitted or discarded with a losing proposal; only finalizing a live
     * proposal emits logs.
     */
    method Accept(record: Record) returns (r: Emitted)
      requires Sound()
      modifies this
      ensures r.Ok? ==> Sound()
      ensures Follows(r, Process(config, old(View()), record))
      ensures r.Ok? && config.delivery.FinalizedDelivery? ==>
        forall x :: Conserved(old(View()), record, View(), r.value, x)
      ensures r.Ok? && config.delivery.FinalizedDelivery? && !NoLogs(r.value) ==>
        record.input.Finalize? && Finalizes(old(View()), record, record.input.id)
    {
      ghost var was := View();
      if !synchronized {
        if record.input.Fatal? {
          return Err(Gap);
        }
        if !record.input.Start? {
          AcceptedRecord(config, was, record);
          return Ok([]);
        }
        synchronized := true;
      }
      r := Dispatch(record);
      if r.Ok? {
        AcceptedRecord(config, was, record);
      }
    }
  }

  lemma AcceptedRecord(cfg: Config, st: State, r: Record)
    requires Invariant(cfg, st) && (cfg.delivery.FinalizedDelivery? ==> Quiet(st)) && Process(cfg, st, r).Ok?
    ensures var u, output := Process(cfg, st, r).value.0, Process(cfg, st, r).value.1;
      && Invariant(cfg, u)
      && (cfg.delivery.FinalizedDelivery? ==>
            && Quiet(u)
            && (forall x :: Conserved(st, r, u, output, x))
            && (!NoLogs(output) ==> r.input.Finalize? && Finalizes(st, r, r.input.id)))
  {
    ProcessKeeps(cfg, st, r);
    if cfg.delivery.FinalizedDelivery? {
      ProcessQuiet(cfg, st, r);
      forall x
        ensures Conserved(st, r, Process(cfg, st, r).value.0, Process(cfg, st, r).value.1, x)
        ensures !(r.input.Finalize? && Finalizes(st, r, r.input.id)) ==> NoLogs(Process(cfg, st, r).value.1)
      {
        ProcessConserves(cfg, st, r, x);
      }
      ProcessConserves(cfg, st, r, ExecutionLog(0, 0, 0, None, 0, 0, 0, [], [], false, Realtime));
    }
  }
}
