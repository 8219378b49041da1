/**
 * The Monad proposal lifecycle of crates/lunarbase-source-monad/src/lifecycle.rs:
 * what one accepted record does to the tracked proposals, as functions.
 */
module Lifecycle {
  import opened Chain

  datatype Delivery = RealtimeDelivery | BlockOrderedDelivery | FinalizedDelivery

  datatype Limits = Limits(maxProposals: nat, maxLogs: nat, maxBytes: nat)

  datatype Config = Config(delivery: Delivery, emitRemovedLogs: bool, limits: Limits)

  datatype ExecutionLog = ExecutionLog(
    sequence: nat,
    sourceSubIndex: nat,
    blockNumber: nat,
    blockHash: Option<Hash>,
    transactionIndex: nat,
    logIndex: nat,
    address: nat,
    topics: seq<Hash>,
    data: seq<nat>,
    removed: bool,
    commitment: Commitment)

  datatype ExecutionHead = ExecutionHead(
    sequence: nat,
    blockNumber: nat,
    blockHash: Option<Hash>,
    parentHash: Option<Hash>,
    commitment: Commitment)

  datatype Event =
    | LogEvent(log: ExecutionLog)
    | HeadEvent(head: ExecutionHead)
    | ReorgEvent(oldHead: ExecutionHead, newHead: ExecutionHead)

  datatype ActiveProposal = ActiveProposal(
    id: Hash,
    blockNumber: nat,
    parentHash: Hash,
    nextLogIndex: nat,
    logs: seq<ExecutionLog>,
    logBytes: nat,
    publishedCommitment: Option<Commitment>)

  datatype Stage = Proposed | Voted | Settled

  datatype Proposal = Proposal(
    blockNumber: nat,
    blockHash: Hash,
    parentHash: Hash,
    lastSequence: nat,
    stage: Stage,
    logs: seq<ExecutionLog>,
    logBytes: nat,
    publishedCommitment: Option<Commitment>)

  datatype State = State(
    synchronized: bool,
    active: Option<ActiveProposal>,
    proposals: map<Hash, Proposal>,
    byHeight: map<nat, seq<Hash>>,
    published: map<nat, Hash>,
    pendingLogs: nat,
    pendingBytes: nat)

  datatype Input =
    | Start(id: Hash, blockNumber: nat, parentHash: Hash)
    | End(blockHash: Hash)
    | Qc(id: Hash, blockNumber: nat)
    | Finalize(id: Hash, blockNumber: nat)
    | Verify(blockNumber: nat)
    | Fatal
    | Reject
    | SkippedLog
    | Log(transactionIndex: nat, sourceSubIndex: nat, address: nat, topics: seq<Hash>, data: seq<nat>)
    | Ignore

  datatype Record = Record(sequence: nat, blockNumber: Option<nat>, input: Input)

  datatype Gap = Gap

  type Outcome = Result<(State, seq<Event>), Gap>

  const U32_MAX: nat := 0xFFFF_FFFF

  /** A new lifecycle: nothing seen, nothing buffered. */
  predicate Initial(st: State) {
    && !st.synchronized && st.active.None? && st.pendingLogs == 0 && st.pendingBytes == 0
    && st.proposals == map[] && st.byHeight == map[] && st.published == map[]
  }

  function SaturatingSub(a: nat, b: nat): nat { if a < b then 0 else a - b }

  function LogSize(log: ExecutionLog): nat { |log.data| + 32 * |log.topics| }

  /** An applied or removed copy of a buffered log; only removals are renumbered. */
  function Materialize(log: ExecutionLog, sequence: Option<nat>, hash: Hash, c: Commitment, removed: bool)
    : ExecutionLog
  {
    var numbered := if sequence.Some? then log.(sequence := sequence.value, sourceSubIndex := log.logIndex) else log;
    numbered.(blockHash := Some(hash), commitment := c, removed := removed)
  }

  function LogEvents(logs: seq<ExecutionLog>, sequence: Option<nat>, hash: Hash, c: Commitment, removed: bool)
    : seq<Event>
  {
    seq(|logs|, i requires 0 <= i < |logs| => LogEvent(Materialize(logs[i], sequence, hash, c, removed)))
  }

  function CommitmentOr(c: Option<Commitment>): Commitment { if c.Some? then c.value else Realtime }

  /** Removals and the reorg notice emitted when another proposal was published at this height. */
  function SwitchBranch(cfg: Config, st: State, sequence: nat, id: Hash, newHead: ExecutionHead): seq<Event> {
    var h := newHead.blockNumber;
    if h !in st.published || st.published[h] == id || st.published[h] !in st.proposals then []
    else
      var was := st.proposals[st.published[h]];
      var c := CommitmentOr(was.publishedCommitment);
      (if cfg.emitRemovedLogs then LogEvents(was.logs, Some(sequence), was.blockHash, c, true) else [])
      + [ReorgEvent(ExecutionHead(was.lastSequence, h, Some(was.blockHash), Some(was.parentHash), c), newHead)]
  }

  function StartStep(cfg: Config, st: State, sequence: nat, id: Hash, blockNumber: nat, parentHash: Hash): Outcome {
    if st.active.Some? || |st.proposals| >= cfg.limits.maxProposals then Err(Gap)
    else
      var live := cfg.delivery.RealtimeDelivery?;
      var active := ActiveProposal(id, blockNumber, parentHash, 0, [], 0, if live then Some(Realtime) else None);
      var head := ExecutionHead(sequence, blockNumber, None, Some(parentHash), Realtime);
      if live then
        Ok((st.(active := Some(active), published := st.published[blockNumber := id]),
            SwitchBranch(cfg, st, sequence, id, head) + [HeadEvent(head)]))
      else Ok((st.(active := Some(active)), []))
  }

  /** Takes the next log index of the active proposal. */
  function NextLogIndex(st: State, recordBlock: Option<nat>): Result<State, Gap> {
    if st.active.None? then Err(Gap)
    else
      var a := st.active.value;
      if recordBlock != Some(a.blockNumber) || a.nextLogIndex >= U32_MAX then Err(Gap)
      else Ok(st.(active := Some(a.(nextLogIndex := a.nextLogIndex + 1))))
  }

  function BuildLog(a: ActiveProposal, sequence: nat, input: Input): ExecutionLog
    requires input.Log?
  {
    ExecutionLog(sequence, input.sourceSubIndex, a.blockNumber, None, input.transactionIndex, a.nextLogIndex,
                 input.address, input.topics, input.data, false, CommitmentOr(a.publishedCommitment))
  }

  function LogStep(cfg: Config, st: State, sequence: nat, recordBlock: Option<nat>, input: Input): Outcome
    requires input.Log?
  {
    var counted :- NextLogIndex(st, recordBlock);
    var log := BuildLog(st.active.value, sequence, input);
    if cfg.delivery.RealtimeDelivery? && !cfg.emitRemovedLogs then Ok((counted, [LogEvent(log)]))
    else
      var bytes := LogSize(log);
      if st.pendingLogs >= cfg.limits.maxLogs || st.pendingBytes + bytes > cfg.limits.maxBytes then Err(Gap)
      else
        var a := counted.active.value;
        Ok((counted.(
              active := Some(a.(logs := a.logs + [log], logBytes := a.logBytes + bytes)),
              pendingLogs := st.pendingLogs + 1,
              pendingBytes := st.pendingBytes + bytes),
            if cfg.delivery.RealtimeDelivery? then [LogEvent(log)] else []))
  }

  function WithHash(logs: seq<ExecutionLog>, hash: Hash): seq<ExecutionLog> {
    seq(|logs|, i requires 0 <= i < |logs| => logs[i].(blockHash := Some(hash)))
  }

  function Completed(a: ActiveProposal, sequence: nat, hash: Hash): Proposal {
    Proposal(a.blockNumber, hash, a.parentHash, sequence, Proposed, WithHash(a.logs, hash), a.logBytes,
             a.publishedCommitment)
  }

  /** The active proposal becomes a completed one, listed under its height. */
  function Finish(st: State, sequence: nat, hash: Hash): State
    requires st.active.Some?
  {
    var a := st.active.value;
    var index := if a.blockNumber in st.byHeight then st.byHeight[a.blockNumber] else [];
    st.(active := None,
        proposals := st.proposals[a.id := Completed(a, sequence, hash)],
        byHeight := st.byHeight[a.blockNumber := index + [a.id]])
  }

  function EndStep(cfg: Config, st: State, sequence: nat, recordBlock: Option<nat>, hash: Hash): Outcome {
    if st.active.None? || recordBlock != Some(st.active.value.blockNumber) || st.active.value.id in st.proposals
    then Err(Gap)
    else
      var a := st.active.value;
      var done := Finish(st, sequence, hash);
      match cfg.delivery
      case BlockOrderedDelivery => Publish(cfg, done, sequence, a.id, Canonical)
      case RealtimeDelivery =>
        var c := CommitmentOr(a.publishedCommitment);
        Ok((done, [HeadEvent(ExecutionHead(sequence, a.blockNumber, Some(hash), Some(a.parentHash), c))]))
      case FinalizedDelivery => Ok((done, []))
  }

  function HeadOf(p: Proposal, sequence: nat, c: Commitment): ExecutionHead {
    ExecutionHead(sequence, p.blockNumber, Some(p.blockHash), Some(p.parentHash), c)
  }

  /** Emits a proposal's head, preceded by its buffered logs unless this branch already delivered them. */
  function Publish(cfg: Config, st: State, sequence: nat, id: Hash, c: Commitment): Outcome {
    if id !in st.proposals then Err(Gap)
    else
      var p := st.proposals[id];
      var head := HeadOf(p, sequence, c);
      var changed := !(p.blockNumber in st.published && st.published[p.blockNumber] == id);
      var apply := p.publishedCommitment.None? || changed;
      var retain := cfg.emitRemovedLogs && !c.Finalized?;
      var output := SwitchBranch(cfg, st, sequence, id, head)
        + (if apply then LogEvents(p.logs, None, p.blockHash, c, false) else [])
        + [HeadEvent(head)];
      var kept := p.(lastSequence := sequence, publishedCommitment := Some(c));
      var next := st.(published := st.published[p.blockNumber := id]);
      if retain then Ok((next.(proposals := st.proposals[id := kept]), output))
      else
        Ok((next.(
              proposals := st.proposals[id := kept.(logs := [], logBytes := 0)],
              pendingLogs := SaturatingSub(st.pendingLogs, |p.logs|),
              pendingBytes := SaturatingSub(st.pendingBytes, p.logBytes)),
            output))
  }

  function Advance(st: State, sequence: nat, id: Hash, stage: Stage): State
    requires id in st.proposals
  {
    st.(proposals := st.proposals[id := st.proposals[id].(stage := stage, lastSequence := sequence)])
  }

  function QcStep(cfg: Config, st: State, sequence: nat, id: Hash, blockNumber: nat): Outcome {
    if id !in st.proposals then Ok((st, []))
    else
      var p := st.proposals[id];
      if p.blockNumber != blockNumber then Err(Gap)
      else if !p.stage.Proposed? then Ok((st, []))
      else
        var voted := Advance(st, sequence, id, Voted);
        if cfg.delivery.FinalizedDelivery? then Ok((voted, []))
        else Publish(cfg, voted, sequence, id, Canonical)
  }

  function RemoveProposal(st: State, id: Hash): State {
    if id !in st.proposals then st
    else
      var p := st.proposals[id];
      st.(proposals := st.proposals - {id},
          pendingLogs := SaturatingSub(st.pendingLogs, |p.logs|),
          pendingBytes := SaturatingSub(st.pendingBytes, p.logBytes))
  }

  function RemoveAll(st: State, ids: seq<Hash>): State
    decreases |ids|
  {
    if ids == [] then st else RemoveAll(RemoveProposal(st, ids[0]), ids[1..])
  }

  function Others(ids: seq<Hash>, id: Hash): seq<Hash> {
    if ids == [] then []
    else if ids[0] == id then Others(ids[1..], id)
    else [ids[0]] + Others(ids[1..], id)
  }

  function DropCompetitors(st: State, id: Hash, blockNumber: nat): State
    requires blockNumber in st.byHeight
  {
    var abandoned := Others(st.byHeight[blockNumber], id);
    RemoveAll(st.(byHeight := st.byHeight[blockNumber := [id]]), abandoned)
  }

  /** Publishes the finalized proposal and drops every competitor at its height. */
  function FinalizeStep(cfg: Config, st: State, sequence: nat, id: Hash, blockNumber: nat): Outcome {
    if id !in st.proposals then Ok((st, []))
    else
      var p := st.proposals[id];
      if p.blockNumber != blockNumber || p.stage.Settled? then Err(Gap)
      else
        var settled := Advance(st, sequence, id, Settled);
        var published :- Publish(cfg, settled, sequence, id, Finalized);
        var next := published.0;
        if blockNumber !in next.byHeight then Err(Gap)
        else
          var pruned := DropCompetitors(next, id, blockNumber);
          Ok((pruned.(published := pruned.published[blockNumber := id]), published.1))
  }

  function VerifyStep(st: State, sequence: nat, blockNumber: nat): Outcome {
    if blockNumber !in st.byHeight then Ok((st, []))
    else
      var candidates := st.byHeight[blockNumber];
      if |candidates| != 1 || candidates[0] !in st.proposals || !st.proposals[candidates[0]].stage.Settled?
      then Err(Gap)
      else
        var id := candidates[0];
        var removed := RemoveProposal(st, id);
        Ok((removed.(byHeight := st.byHeight - {blockNumber}, published := st.published - {blockNumber}),
            [HeadEvent(HeadOf(st.proposals[id], sequence, Finalized))]))
  }

  /** One record; before the first block start everything but a fatal record is skipped. */
  function Process(cfg: Config, st0: State, r: Record): Outcome {
    if !st0.synchronized && !r.input.Start? then
      (if r.input.Fatal? then Err(Gap) else Ok((st0, [])))
    else
      var st := st0.(synchronized := true);
      match r.input
      case Start(id, blockNumber, parentHash) => StartStep(cfg, st, r.sequence, id, blockNumber, parentHash)
      case End(hash) => EndStep(cfg, st, r.sequence, r.blockNumber, hash)
      case Qc(id, blockNumber) => QcStep(cfg, st, r.sequence, id, blockNumber)
      case Finalize(id, blockNumber) => FinalizeStep(cfg, st, r.sequence, id, blockNumber)
      case Verify(blockNumber) => VerifyStep(st, r.sequence, blockNumber)
      case Fatal => Err(Gap)
      case Reject => Err(Gap)
      case SkippedLog =>
        var counted :- NextLogIndex(st, r.blockNumber);
        Ok((counted, []))
      case Log(_, _, _, _, _) => LogStep(cfg, st, r.sequence, r.blockNumber, r.input)
      case Ignore => Ok((st, []))
  }
}
