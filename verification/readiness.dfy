/**
 * The readiness lease of crates/lunarbase-event-worker/src/metrics.rs as atomic
 * steps of any number of threads, interleaved sequentially consistently.
 */
module Readiness {
  import opened Integers

  const WORD: nat := 0x1_0000_0000_0000_0000

  /** Where a thread stands inside `publish_ready_if` or `advance_source_activity`. */
  datatype Pc =
    | Idle
    | Checked(lease: nat)
    | Stored(lease: nat)
    | Retracting(lease: nat)
    | Advancing(active: bool, seen: nat)
    | Clearing

  /**
   * `activity` and `ready` are the two atomics. `readyBy` is the lease of the
   * last publication and `advances` counts the completed version bumps.
   */
  datatype State = State(
    ready: bool,
    activity: nat,
    threads: map<nat, Pc>,
    readyBy: nat,
    advances: nat)

  datatype Step =
    | Check(thread: nat, lease: nat)
    | Store(thread: nat)
    | Recheck(thread: nat)
    | Retract(thread: nat)
    | Load(thread: nat, active: bool)
    | CompareExchange(thread: nat, spurious: bool)
    | Clear(thread: nat)
    | Revoke

  /** A new worker: not ready, no source yet, every thread idle. */
  predicate Initial(s: State) {
    !s.ready && s.activity == 0 && s.threads == map[] && s.advances == 0
  }

  function PcOf(s: State, t: nat): Pc {
    if t in s.threads then s.threads[t] else Idle
  }

  function Move(s: State, t: nat, pc: Pc): State {
    s.(threads := s.threads[t := pc])
  }

  function Bit(b: bool): nat { if b then 1 else 0 }

  /** Next version of the activity word: one higher, with the low bit saying whether a source is connected. */
  function NextWord(current: nat, active: bool): nat {
    2 * Div(Mod(current + 2, WORD), 2) + Bit(active)
  }

  predicate Odd(n: nat) { Mod(n, 2) == 1 }

  predicate Enabled(s: State, step: Step) {
    match step
    case Check(t, _) => PcOf(s, t).Idle?
    case Store(t) => PcOf(s, t).Checked?
    case Recheck(t) => PcOf(s, t).Stored?
    case Retract(t) => PcOf(s, t).Retracting?
    case Load(t, _) => PcOf(s, t).Idle?
    case CompareExchange(t, _) => PcOf(s, t).Advancing?
    case Clear(t) => PcOf(s, t).Clearing?
    case Revoke => true
  }

  /** Whether a step changes the activity word. */
  predicate Advances(s: State, step: Step) {
    step.CompareExchange? && !step.spurious && Enabled(s, step) && PcOf(s, step.thread).seen == s.activity
  }

  function Next(s: State, step: Step): State
    requires Enabled(s, step)
  {
    match step
    case Check(t, lease) => if s.activity != lease || !Odd(lease) then s else Move(s, t, Checked(lease))
    case Store(t) =>
      var lease := PcOf(s, t).lease;
      Move(s, t, Stored(lease)).(ready := true, readyBy := lease)
    case Recheck(t) => Move(s, t, if s.activity == PcOf(s, t).lease then Idle else Retracting(PcOf(s, t).lease))
    case Retract(t) => Move(s, t, Idle).(ready := false)
    case Load(t, active) => Move(s, t, Advancing(active, s.activity))
    case CompareExchange(t, _) =>
      var pc := PcOf(s, t);
      if Advances(s, step) then
        Move(s, t, if pc.active then Idle else Clearing).(
          activity := NextWord(s.activity, pc.active), advances := s.advances + 1)
      else Move(s, t, Advancing(pc.active, s.activity))
    case Clear(t) => Move(s, t, Idle).(ready := false)
    case Revoke => s.(ready := false)
  }

  // ---- The lease argument ----

  /** A thread that still has to take back the ready flag that stands. */
  predicate Withdraws(s: State, t: nat) {
    match PcOf(s, t)
    case Stored(lease) => lease == s.readyBy != s.activity
    case Retracting(lease) => lease == s.readyBy
    case Clearing => true
    case _ => false
  }

  /** Nobody stands between a store and its re-check, nor between a disconnect's version bump and its clear. */
  ghost predicate BetweenWrites(s: State) {
    forall t :: !PcOf(s, t).Stored? && !PcOf(s, t).Clearing?
  }

  /** In addition nobody has yet to retract. */
  ghost predicate Quiescent(s: State) {
    BetweenWrites(s) && forall t :: !PcOf(s, t).Retracting?
  }

  /** The flag, if up, was published under the current word. */
  predicate Current(s: State) {
    s.ready ==> s.readyBy == s.activity
  }

  /** A stale ready flag is always about to be withdrawn, by its publisher or by a disconnect. */
  ghost predicate Covered(s: State) {
    !Current(s) ==> exists t :: Withdraws(s, t)
  }

  /** Leases in use are odd words that have been current. */
  ghost predicate LeasesIssued(s: State) {
    && (s.ready ==> Odd(s.readyBy) && s.readyBy <= s.activity)
    && forall t :: LeaseIssued(s.activity, PcOf(s, t))
  }

  predicate LeaseIssued(activity: nat, pc: Pc) {
    match pc
    case Checked(lease) => Odd(lease) && lease <= activity
    case Stored(lease) => Odd(lease) && lease <= activity
    case Retracting(lease) => Odd(lease) && lease < activity
    case _ => true
  }

  /** The word is twice the number of version bumps, plus the connected bit. */
  predicate Counted(s: State) {
    s.activity == 2 * s.advances + Mod(s.activity, 2)
  }

  ghost predicate Invariant(s: State) {
    Covered(s) && LeasesIssued(s) && Counted(s)
  }

  /** A connect finds the source marked disconnected. */
  predicate Disciplined(s: State, step: Step) {
    Advances(s, step) && PcOf(s, step.thread).active ==> !Odd(s.activity)
  }

  /** Below the wrap the word strictly increases, so each connection has a word of its own. */
  lemma WordIncreases(s: State, active: bool)
    requires Counted(s) && s.advances + 1 < WORD / 2
    ensures NextWord(s.activity, active) == 2 * (s.advances + 1) + Bit(active)
    ensures NextWord(s.activity, active) > s.activity
    ensures Odd(NextWord(s.activity, active)) <==> active
  {
    var b := Mod(s.activity, 2);
    DivUnique(s.activity + 2, WORD, 0, s.activity + 2);
    DivUnique(s.activity + 2, 2, s.advances + 1, b);
    DivUnique(NextWord(s.activity, active), 2, s.advances + 1, Bit(active));
  }

  /** A step moves at most its own thread. */
  lemma OneThreadMoves(s: State, step: Step, t: nat)
    requires Enabled(s, step) && (step.Revoke? || step.thread != t)
    ensures PcOf(Next(s, step), t) == PcOf(s, t)
  {
  }

  lemma LeaseKept(s: State, step: Step, t: nat)
    requires LeasesIssued(s) && Enabled(s, step) && s.activity <= Next(s, step).activity
    ensures LeaseIssued(Next(s, step).activity, PcOf(Next(s, step), t))
  {
    assert LeaseIssued(s.activity, PcOf(s, t));
    if step.Revoke? || step.thread != t {
      OneThreadMoves(s, step, t);
    }
  }

  lemma LeasesKept(s: State, step: Step)
    requires Invariant(s) && Enabled(s, step) && Next(s, step).advances < WORD / 2
    ensures LeasesIssued(Next(s, step)) && Counted(Next(s, step)) && s.activity <= Next(s, step).activity
  {
    if Advances(s, step) {
      WordIncreases(s, PcOf(s, step.thread).active);
    }
    assert step.Store? ==> LeaseIssued(s.activity, PcOf(s, step.thread));
    forall t
      ensures LeaseIssued(Next(s, step).activity, PcOf(Next(s, step), t))
    {
      LeaseKept(s, step, t);
    }
  }

  lemma CoverKept(s: State, step: Step)
    requires Invariant(s) && Enabled(s, step) && Disciplined(s, step) && Next(s, step).advances < WORD / 2
    ensures Covered(Next(s, step))
  {
    var n := Next(s, step);
    if !Current(n) {
      if Advances(s, step) {
        WordIncreases(s, PcOf(s, step.thread).active);
        if PcOf(s, step.thread).active {
          var t :| Withdraws(s, t);
          assert Withdraws(n, t);
        } else {
          assert Withdraws(n, step.thread);
        }
      } else if step.Store? {
        assert Withdraws(n, step.thread);
      } else {
        var t :| Withdraws(s, t);
        assert Withdraws(n, t);
      }
    }
  }

  // ---- Runs ----

  predicate Runs(s: State, steps: seq<Step>)
    decreases |steps|
  {
    steps == [] || (Enabled(s, steps[0]) && Runs(Next(s, steps[0]), steps[1..]))
  }

  function End(s: State, steps: seq<Step>): State
    requires Runs(s, steps)
    decreases |steps|
  {
    if steps == [] then s else End(Next(s, steps[0]), steps[1..])
  }

  /** Every connect of a run finds the source marked disconnected. */
  predicate DisciplinedRun(s: State, steps: seq<Step>)
    requires Runs(s, steps)
    decreases |steps|
  {
    steps == [] || (Disciplined(s, steps[0]) && DisciplinedRun(Next(s, steps[0]), steps[1..]))
  }

  lemma {:induction false} RunKeeps(s: State, steps: seq<Step>)
    requires Invariant(s) && Runs(s, steps) && DisciplinedRun(s, steps) && End(s, steps).advances < WORD / 2
    ensures Invariant(End(s, steps))
    decreases |steps|
  {
    if steps != [] {
      AdvancesGrow(Next(s, steps[0]), steps[1..]);
      LeasesKept(s, steps[0]);
      CoverKept(s, steps[0]);
      RunKeeps(Next(s, steps[0]), steps[1..]);
    }
  }

  lemma {:induction false} AdvancesGrow(s: State, steps: seq<Step>)
    requires Runs(s, steps)
    ensures s.advances <= End(s, steps).advances
    decreases |steps|
  {
    if steps != [] {
      AdvancesGrow(Next(s, steps[0]), steps[1..]);
    }
  }

  /** In every interleaving a word is seen again only if no connect or disconnect happened in between. */
  lemma {:induction false} WordNamesOnePeriod(s: State, steps: seq<Step>)
    requires Counted(s) && Runs(s, steps) && End(s, steps).advances < WORD / 2
    ensures Counted(End(s, steps)) && s.activity <= End(s, steps).activity
    ensures End(s, steps).activity == s.activity <==> End(s, steps).advances == s.advances
    decreases |steps|
  {
    if steps != [] {
      AdvancesGrow(Next(s, steps[0]), steps[1..]);
      if Advances(s, steps[0]) {
        WordIncreases(s, PcOf(s, steps[0].thread).active);
      }
      WordNamesOnePeriod(Next(s, steps[0]), steps[1..]);
    }
  }

  /**
   * In every interleaving in which connects follow disconnects: ready while no
   * publication or disconnect is halfway means that a source is connected and
   * that its own lease published the flag.
   */
  lemma ReadyNamesTheConnection(s: State, steps: seq<Step>)
    requires Initial(s) && Runs(s, steps) && DisciplinedRun(s, steps) && End(s, steps).advances < WORD / 2
    ensures var e := End(s, steps);
      Quiescent(e) && e.ready ==> e.readyBy == e.activity && Odd(e.activity)
  {
    InitiallyFine(s);
    RunKeeps(s, steps);
    var e := End(s, steps);
    if Quiescent(e) && e.ready {
      QuietIsExact(e);
    }
  }

  lemma InitiallyFine(s: State)
    requires Initial(s)
    ensures Invariant(s) && !Odd(s.activity)
  {
    DivUnique(0, 2, 0, 0);
  }

  lemma QuietIsExact(s: State)
    requires Invariant(s) && Quiescent(s) && s.ready
    ensures s.readyBy == s.activity && Odd(s.activity)
  {
    forall t
      ensures !Withdraws(s, t)
    {
      assert !PcOf(s, t).Stored? && !PcOf(s, t).Clearing? && !PcOf(s, t).Retracting?;
    }
  }

  // ---- A failed re-check that has not retracted yet ----

  lemma StaleMeansRetracting(s: State)
    requires Invariant(s) && BetweenWrites(s) && s.ready
    ensures s.readyBy != s.activity <==> exists t :: PcOf(s, t) == Retracting(s.readyBy)
  {
    if s.readyBy != s.activity {
      var t :| Withdraws(s, t);
      assert !PcOf(s, t).Stored? && !PcOf(s, t).Clearing?;
      assert PcOf(s, t) == Retracting(s.readyBy);
    }
    forall t | PcOf(s, t) == Retracting(s.readyBy)
      ensures s.readyBy < s.activity
    {
      assert LeaseIssued(s.activity, PcOf(s, t));
    }
  }

  /**
   * With nobody between store and re-check or between bump and clear, a ready
   * flag is stale exactly while its own publisher has yet to retract it.
   */
  lemma StaleExactlyWhileRetracting(s: State, steps: seq<Step>)
    requires Initial(s) && Runs(s, steps) && DisciplinedRun(s, steps) && End(s, steps).advances < WORD / 2
    requires BetweenWrites(End(s, steps)) && End(s, steps).ready
    ensures var e := End(s, steps);
      e.readyBy != e.activity <==> exists t :: PcOf(e, t) == Retracting(e.readyBy)
  {
    InitiallyFine(s);
    RunKeeps(s, steps);
    StaleMeansRetracting(End(s, steps));
  }

  /** Such a moment exists: a disconnect between the first test of a publication and its store. */
  lemma RetractionLeavesStaleReady(s: State, steps: seq<Step>)
    requires Initial(s)
    requires steps == [Load(0, true), CompareExchange(0, false), Check(1, 3), Load(0, false),
                       CompareExchange(0, false), Clear(0), Store(1), Recheck(1)]
    ensures Runs(s, steps) && DisciplinedRun(s, steps)
    ensures BetweenWrites(End(s, steps)) && !Current(End(s, steps))
  {
    WordsOfTheExample();
    var s1 := Next(s, steps[0]);
    var s2 := Next(s1, steps[1]);
    var s3 := Next(s2, steps[2]);
    var s4 := Next(s3, steps[3]);
    var s5 := Next(s4, steps[4]);
    var s6 := Next(s5, steps[5]);
    var s7 := Next(s6, steps[6]);
    var s8 := Next(s7, steps[7]);
    assert s8.ready && s8.readyBy == 3 && s8.activity == 4 && s8.threads == map[0 := Idle, 1 := Retracting(3)];
    Unfold(s7, s8, steps[7..]);
    Unfold(s6, s8, steps[6..]);
    Unfold(s5, s8, steps[5..]);
    Unfold(s4, s8, steps[4..]);
    Unfold(s3, s8, steps[3..]);
    Unfold(s2, s8, steps[2..]);
    Unfold(s1, s8, steps[1..]);
    Unfold(s, s8, steps);
  }

  lemma WordsOfTheExample()
    ensures !Odd(0) && Odd(3)
    ensures NextWord(0, true) == 3 && NextWord(3, true) == 5 && NextWord(3, false) == 4
  {
    DivUnique(0, 2, 0, 0);
    DivUnique(2, WORD, 0, 2);
    DivUnique(2, 2, 1, 0);
    DivUnique(3, 2, 1, 1);
    DivUnique(5, WORD, 0, 5);
    DivUnique(5, 2, 2, 1);
  }

  // ---- Without the discipline ----

  /** Connect, publish, connect again: the flag then stands for a connection that is gone. */
  lemma SecondConnectLeavesStaleReady(s: State, steps: seq<Step>)
    requires Initial(s)
    requires steps == [Load(0, true), CompareExchange(0, false), Check(1, 3), Store(1), Recheck(1),
                       Load(0, true), CompareExchange(0, false)]
    ensures Runs(s, steps)
    ensures Quiescent(End(s, steps)) && !Current(End(s, steps))
  {
    WordsOfTheExample();
    var s1 := Next(s, steps[0]);
    var s2 := Next(s1, steps[1]);
    var s3 := Next(s2, steps[2]);
    var s4 := Next(s3, steps[3]);
    var s5 := Next(s4, steps[4]);
    var s6 := Next(s5, steps[5]);
    var s7 := Next(s6, steps[6]);
    assert s7.ready && s7.readyBy == 3 && s7.activity == 5 && s7.threads == map[0 := Idle, 1 := Idle];
    Unfold(s6, s7, steps[6..]);
    Unfold(s5, s7, steps[5..]);
    Unfold(s4, s7, steps[4..]);
    Unfold(s3, s7, steps[3..]);
    Unfold(s2, s7, steps[2..]);
    Unfold(s1, s7, steps[1..]);
    Unfold(s, s7, steps);
  }

  lemma Unfold(s: State, last: State, steps: seq<Step>)
    requires steps != [] && Enabled(s, steps[0])
    requires Runs(Next(s, steps[0]), steps[1..]) && End(Next(s, steps[0]), steps[1..]) == last
    ensures Runs(s, steps) && End(s, steps) == last
    ensures Disciplined(s, steps[0]) && DisciplinedRun(Next(s, steps[0]), steps[1..]) ==> DisciplinedRun(s, steps)
  {
  }

  /**
   * Exactly when a connect is safe with nothing halfway: the ready flag must be
   * down. A word marked disconnected guarantees that.
   */
  lemma ConnectSafeExactlyWhenNotReady(s: State, t: nat)
    requires Invariant(s) && Quiescent(s) && s.advances + 1 < WORD / 2
    requires PcOf(s, t) == Advancing(true, s.activity)
    ensures Current(Next(s, CompareExchange(t, false))) <==> !s.ready
    ensures !Odd(s.activity) ==> !s.ready
  {
    WordIncreases(s, true);
    if s.ready {
      QuietIsExact(s);
    }
  }
}
