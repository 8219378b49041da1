/**
 * A realtime run that applies a log twice and never takes it back: a vote for a
 * competitor overtakes the proposal that is executing, which is voted for later.
 */
module LifecycleOvertaken {
  import opened Chain
  import opened Lifecycle
  import opened LifecycleBudget
  import opened LifecycleDelivery
  import opened LifecycleBranch
  import opened LifecycleVisibility
  import opened LifecycleOnce

  /** A record that applies `x` so often, takes nothing back and reuses no name. */
  predicate Moves(cfg: Config, st: State, r: Record, u: State, x: ExecutionLog, times: nat) {
    && Process(cfg, st, r).Ok? && Process(cfg, st, r).value.0 == u && FreshStart(st, r)
    && Applied(Process(cfg, st, r).value.1, x) == times && TakenBack(cfg, st, r) == []
  }

  ghost predicate Applies(cfg: Config, st: State, records: seq<Record>, x: ExecutionLog, times: nat) {
    && Run(cfg, st, records).Ok? && FreshNames(cfg, st, records)
    && Applied(Run(cfg, st, records).value.1, x) == times && TallyOf(cfg, st, records, x).takenBack == 0
  }

  lemma OneMore(cfg: Config, st: State, r: Record, u: State, rest: seq<Record>, x: ExecutionLog, now: nat, later: nat)
    requires Moves(cfg, st, r, u, x, now) && Applies(cfg, u, rest, x, later)
    ensures Applies(cfg, st, [r] + rest, x, now + later)
  {
    assert ([r] + rest)[1..] == rest;
    AppliedConcat(Process(cfg, st, r).value.1, Run(cfg, u, rest).value.1, x);
  }

  // ---- The states the run goes through ----

  predicate Removing(cfg: Config) {
    cfg.delivery.RealtimeDelivery? && cfg.emitRemovedLogs && cfg.limits == Limits(10, 10, 10)
  }

  predicate PublishedAt5(st: State, id: Hash) { 5 in st.published && st.published[5] == id }

  /** Proposal `id` executes at height 5, announced, with these logs. */
  predicate Executes(st: State, id: Hash, logs: seq<ExecutionLog>) {
    && st.synchronized && id !in st.proposals && st.active.Some?
    && st.active.value == ActiveProposal(id, 5, 0, |logs|, logs, 0, Some(Realtime))
    && st.pendingLogs == |logs| && st.pendingBytes == 0
  }

  /** Proposal 1 has ended at height 5 without logs. */
  predicate FirstEnded(st: State) {
    1 in st.proposals && st.proposals[1].blockNumber == 5 && st.proposals[1].logs == []
  }

  /** Proposal 2 has ended there too, with one log, while 1 is published. */
  predicate SecondEnded(st: State, x: ExecutionLog) {
    && st.synchronized && FirstEnded(st) && PublishedAt5(st, 1)
    && 2 in st.proposals && st.proposals[2].blockNumber == 5 && st.proposals[2].stage.Proposed?
    && Copies(st.proposals[2].logs, x) == 1
  }

  // ---- Its records ----

  lemma FirstStarts(cfg: Config, st: State, r: Record, x: ExecutionLog) returns (u: State)
    requires Removing(cfg) && Initial(st) && r.input == Start(1, 5, 0)
    ensures Moves(cfg, st, r, u, x, 0) && Executes(u, 1, []) && PublishedAt5(u, 1) && u.proposals == map[]
  {
    StartAppliesNothing(cfg, st, r, x);
    u := Process(cfg, st, r).value.0;
  }

  lemma FirstEnds(cfg: Config, st: State, r: Record, x: ExecutionLog) returns (u: State)
    requires Removing(cfg) && Executes(st, 1, []) && PublishedAt5(st, 1) && st.proposals == map[]
    requires r.input == End(11) && r.blockNumber == Some(5)
    ensures Moves(cfg, st, r, u, x, 0) && FirstEnded(u) && PublishedAt5(u, 1) && u.proposals.Keys == {1}
    ensures u.proposals[1].stage.Proposed? && u.synchronized && u.active.None? && u.pendingLogs == u.pendingBytes == 0
  {
    assert st == st.(synchronized := true);
    u := Process(cfg, st, r).value.0;
    NoLogsApplied(Process(cfg, st, r).value.1, x);
  }

  lemma SecondStarts(cfg: Config, st: State, r: Record, x: ExecutionLog) returns (u: State)
    requires Removing(cfg) && FirstEnded(st) && PublishedAt5(st, 1) && st.proposals.Keys == {1}
    requires st.synchronized && st.active.None? && st.pendingLogs == st.pendingBytes == 0
    requires r.input == Start(2, 5, 0)
    ensures Moves(cfg, st, r, u, x, 0) && Executes(u, 2, []) && PublishedAt5(u, 2) && u.proposals == st.proposals
  {
    assert |st.proposals| == |st.proposals.Keys| == 1;
    StartAppliesNothing(cfg, st, r, x);
    u := Process(cfg, st, r).value.0;
  }

  /** The log is applied as it arrives. */
  lemma LogArrives(cfg: Config, st: State, r: Record, x: ExecutionLog) returns (u: State)
    requires Removing(cfg) && Executes(st, 2, []) && PublishedAt5(st, 2)
    requires r.input == Log(0, 0, 7, [], []) && r.blockNumber == Some(5)
    requires x == ExecutionLog(r.sequence, 0, 5, None, 0, 0, 7, [], [], false, Realtime)
    ensures Moves(cfg, st, r, u, x, 1) && Executes(u, 2, [x]) && PublishedAt5(u, 2) && u.proposals == st.proposals
  {
    assert st == st.(synchronized := true);
    assert BuildLog(st.active.value, r.sequence, r.input) == x;
    u := Process(cfg, st, r).value.0;
    OneApplied(x, x);
  }

  /** The vote for 1 overtakes 2, whose log stays applied. */
  lemma FirstVoted(cfg: Config, st: State, r: Record, x: ExecutionLog) returns (u: State)
    requires Removing(cfg) && Executes(st, 2, [x]) && FirstEnded(st) && st.proposals[1].stage.Proposed?
    requires PublishedAt5(st, 2) && r.input == Qc(1, 5)
    ensures Moves(cfg, st, r, u, x, 0) && Executes(u, 2, [x]) && FirstEnded(u) && PublishedAt5(u, 1)
  {
    assert st == st.(synchronized := true);
    PublishApplies(cfg, Advance(st, r.sequence, 1, Voted), r.sequence, 1, Canonical, x);
    u := Process(cfg, st, r).value.0;
  }

  /** So 2 ends out of place. */
  lemma SecondEnds(cfg: Config, st: State, r: Record, x: ExecutionLog) returns (u: State)
    requires Removing(cfg) && Executes(st, 2, [x]) && Core(x) == x && FirstEnded(st) && PublishedAt5(st, 1)
    requires r.input == End(12) && r.blockNumber == Some(5)
    ensures Moves(cfg, st, r, u, x, 0) && SecondEnded(u, x)
  {
    assert st == st.(synchronized := true);
    assert [x][..0] == [];
    HashKeepsCopies([x], 12, x);
    u := Process(cfg, st, r).value.0;
    NoLogsApplied(Process(cfg, st, r).value.1, x);
  }

  /** The vote for 2 applies its log as if it had not been shown. */
  lemma SecondVoted(cfg: Config, st: State, r: Record, x: ExecutionLog) returns (u: State)
    requires Removing(cfg) && SecondEnded(st, x) && r.input == Qc(2, 5)
    ensures Moves(cfg, st, r, u, x, 1)
  {
    assert st == st.(synchronized := true);
    PublishApplies(cfg, Advance(st, r.sequence, 2, Voted), r.sequence, 2, Canonical, x);
    u := Process(cfg, st, r).value.0;
  }

  // ---- The run ----

  lemma VotesApplyTwice(cfg: Config, st: State, r: seq<Record>, x: ExecutionLog)
    requires Removing(cfg) && Executes(st, 2, []) && FirstEnded(st) && st.proposals[1].stage.Proposed?
    requires PublishedAt5(st, 2) && |r| == 4
    requires r[0].input == Log(0, 0, 7, [], []) && r[1].input == Qc(1, 5)
    requires r[2].input == End(12) && r[3].input == Qc(2, 5)
    requires r[0].blockNumber == r[2].blockNumber == Some(5)
    requires x == ExecutionLog(r[0].sequence, 0, 5, None, 0, 0, 7, [], [], false, Realtime)
    ensures Applies(cfg, st, r, x, 2)
  {
    var s1 := LogArrives(cfg, st, r[0], x);
    var s2 := FirstVoted(cfg, s1, r[1], x);
    var s3 := SecondEnds(cfg, s2, r[2], x);
    var s4 := SecondVoted(cfg, s3, r[3], x);
    LastMoves(cfg, s2, s3, s4, r[2..], x);
    TwoMore(cfg, st, s1, s2, r, x, 1, 0, 1);
  }

  /** Two records in front of a run. */
  lemma TwoMore(cfg: Config, s: State, t: State, u: State, r: seq<Record>, x: ExecutionLog,
                first: nat, second: nat, later: nat)
    requires |r| >= 2 && Moves(cfg, s, r[0], t, x, first) && Moves(cfg, t, r[1], u, x, second)
    requires Applies(cfg, u, r[2..], x, later)
    ensures Applies(cfg, s, r, x, first + second + later)
  {
    OneMore(cfg, t, r[1], u, r[2..], x, second, later);
    assert [r[1]] + r[2..] == r[1..];
    OneMore(cfg, s, r[0], t, r[1..], x, first, second + later);
    assert [r[0]] + r[1..] == r;
  }

  lemma LastMoves(cfg: Config, s: State, t: State, u: State, r: seq<Record>, x: ExecutionLog)
    requires |r| == 2 && Moves(cfg, s, r[0], t, x, 0) && Moves(cfg, t, r[1], u, x, 1)
    ensures Applies(cfg, s, r, x, 1)
  {
    assert r[2..] == [];
    TwoMore(cfg, s, t, u, r, x, 0, 1, 0);
  }

  /** The records: 1 executes and ends, 2 starts and gets a log, 1 is voted for, 2 ends, 2 is voted for. */
  predicate OvertakingRecords(r: seq<Record>) {
    && |r| == 7 && (forall i :: 0 <= i < 7 ==> r[i].sequence == i + 1 && r[i].blockNumber == Some(5))
    && r[0].input == Start(1, 5, 0) && r[1].input == End(11) && r[2].input == Start(2, 5, 0)
    && r[3].input == Log(0, 0, 7, [], []) && r[4].input == Qc(1, 5) && r[5].input == End(12) && r[6].input == Qc(2, 5)
  }

  /**
   * With removals in the output, that run from a new realtime lifecycle applies
   * its log twice and never takes it back, though its names are used once and
   * its sequences increase.
   */
  lemma OvertakenIsAppliedTwice(cfg: Config, st: State, records: seq<Record>, x: ExecutionLog)
    requires Removing(cfg) && Initial(st) && OvertakingRecords(records)
    requires x == ExecutionLog(4, 0, 5, None, 0, 0, 7, [], [], false, Realtime)
    ensures Run(cfg, st, records).Ok? && Increasing(records) && FreshNames(cfg, st, records)
    ensures Applied(Run(cfg, st, records).value.1, x) == 2 && TallyOf(cfg, st, records, x).takenBack == 0
  {
    var s1 := FirstStarts(cfg, st, records[0], x);
    var s2 := FirstEnds(cfg, s1, records[1], x);
    var s3 := SecondStarts(cfg, s2, records[2], x);
    VotesApplyTwice(cfg, s3, records[3..], x);
    TwoMore(cfg, s1, s2, s3, records[1..], x, 0, 0, 2);
    OneMore(cfg, st, records[0], s1, records[1..], x, 0, 2);
    assert [records[0]] + records[1..] == records;
  }
}
