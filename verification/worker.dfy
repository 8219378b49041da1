/**
 * Readiness of the worker as it runs: the pump of `Pump` with its own steps on
 * the word and the flag of `Readiness`, among any number of publishers.
 */
module Worker {
  import opened Chain
  import Readiness
  import opened Pump

  predicate Connected(s: State) { Readiness.Odd(s.lease.activity) }

  /** The pump is reading the stream or handing over an update that is no gap. */
  predicate Serving(pc: Pc) {
    match pc
    case Reading => true
    case Acquiring(u, _) => !u.Gap?
    case Reserving(u, _) => !u.Gap?
    case _ => false
  }

  /** Where the pump's thread stands on the word, and what the word then says. */
  predicate ThreadFits(s: State) {
    var pc := Readiness.PcOf(s.lease, PUMP);
    if s.revoking then
      && !Serving(s.pc) && !s.pc.Connecting?
      && (pc.Idle? || (pc.Advancing? && !pc.active) || (pc.Clearing? && !Connected(s)))
    else if s.pc.Connecting? then !Connected(s) && (pc.Idle? || (pc.Advancing? && pc.active))
    else pc.Idle? && (Connected(s) <==> Serving(s.pc))
  }

  /** Only the pump's thread connects and disconnects. */
  ghost predicate OthersPublish(lease: Readiness.State) {
    forall t :: t != PUMP ==> !Readiness.PcOf(lease, t).Advancing? && !Readiness.PcOf(lease, t).Clearing?
  }

  /** A connected source has an open stream. */
  predicate OpenWhileConnected(s: State) {
    Connected(s) ==> s.subscriptions != [] && Open(LastOf(s))
  }

  ghost predicate LeaseFits(s: State) {
    ThreadFits(s) && OthersPublish(s.lease) && OpenWhileConnected(s) && Readiness.Invariant(s.lease)
  }

  // ---- Steps on the word and the flag ----

  /** The pump's control flow connects only from a disconnected word. */
  lemma ActionIsDisciplined(cfg: Config, s: State, step: Step)
    requires LeaseFits(s) && Enabled(cfg, s, step) && LeaseAction(s, step).Some?
    ensures Readiness.Enabled(s.lease, LeaseAction(s, step).value)
    ensures Readiness.Disciplined(s.lease, LeaseAction(s, step).value)
  {
  }

  lemma LeaseInvariantKept(lease: Readiness.State, action: Readiness.Step)
    requires Readiness.Invariant(lease) && Readiness.Enabled(lease, action) && Readiness.Disciplined(lease, action)
    requires Readiness.Next(lease, action).advances < Readiness.WORD / 2
    ensures Readiness.Invariant(Readiness.Next(lease, action))
  {
    Readiness.LeasesKept(lease, action);
    Readiness.CoverKept(lease, action);
  }

  lemma OthersKeptPublishing(lease: Readiness.State, action: Readiness.Step)
    requires OthersPublish(lease) && Readiness.Enabled(lease, action)
    requires OfPublisher(action) || (!action.Revoke? && action.thread == PUMP)
    ensures OthersPublish(Readiness.Next(lease, action))
  {
    forall t | t != PUMP
      ensures !Readiness.PcOf(Readiness.Next(lease, action), t).Advancing?
      ensures !Readiness.PcOf(Readiness.Next(lease, action), t).Clearing?
    {
      assert !Readiness.PcOf(lease, t).Advancing? && !Readiness.PcOf(lease, t).Clearing?;
      if action.Revoke? || action.thread != t {
        Readiness.OneThreadMoves(lease, action, t);
      }
    }
  }

  /** A publisher leaves the word and the pump's thread alone. */
  lemma PublisherFits(cfg: Config, s: State, action: Readiness.Step)
    requires LeaseFits(s) && Enabled(cfg, s, Publisher(action))
    ensures ThreadFits(Next(cfg, s, Publisher(action))) && OpenWhileConnected(Next(cfg, s, Publisher(action)))
  {
    Readiness.OneThreadMoves(s.lease, action, PUMP);
  }

  lemma LoadFits(cfg: Config, s: State)
    requires LeaseFits(s) && Enabled(cfg, s, LoadWord)
    ensures ThreadFits(Next(cfg, s, LoadWord)) && OpenWhileConnected(Next(cfg, s, LoadWord))
  {
  }

  lemma SwapFits(cfg: Config, s: State, spurious: bool)
    requires LeaseFits(s) && Ordered(cfg, s) && Enabled(cfg, s, SwapWord(spurious))
    requires Next(cfg, s, SwapWord(spurious)).lease.advances < Readiness.WORD / 2
    ensures ThreadFits(Next(cfg, s, SwapWord(spurious))) && OpenWhileConnected(Next(cfg, s, SwapWord(spurious)))
  {
    if Readiness.Advances(s.lease, Readiness.CompareExchange(PUMP, spurious)) {
      Readiness.WordIncreases(s.lease, Readiness.PcOf(s.lease, PUMP).active);
    }
  }

  lemma ClearFits(cfg: Config, s: State)
    requires LeaseFits(s) && Enabled(cfg, s, ClearFlag)
    ensures ThreadFits(Next(cfg, s, ClearFlag)) && OpenWhileConnected(Next(cfg, s, ClearFlag))
  {
  }

  lemma ReadFits(cfg: Config, s: State, item: Item)
    requires LeaseFits(s) && Enabled(cfg, s, Read(item))
    ensures ThreadFits(Next(cfg, s, Read(item))) && OpenWhileConnected(Next(cfg, s, Read(item)))
  {
    TerminalIsGap(cfg, UpdateOf(item));
  }

  lemma SubscribedFits(cfg: Config, s: State, step: Step)
    requires LeaseFits(s) && Enabled(cfg, s, step) && step.Subscribed?
    ensures ThreadFits(Next(cfg, s, step)) && OpenWhileConnected(Next(cfg, s, step))
  {
    TerminalIsGap(cfg, Gap(None, step.notice));
  }

  lemma EnqueueFits(cfg: Config, s: State)
    requires LeaseFits(s) && Ordered(cfg, s) && Enabled(cfg, s, Enqueue)
    ensures ThreadFits(Next(cfg, s, Enqueue)) && OpenWhileConnected(Next(cfg, s, Enqueue))
  {
  }

  /** The pump's other steps leave the lease alone. */
  lemma ControlFits(cfg: Config, s: State, step: Step)
    requires LeaseFits(s) && Ordered(cfg, s) && Enabled(cfg, s, step) && LeaseAction(s, step).None?
    ensures ThreadFits(Next(cfg, s, step)) && OpenWhileConnected(Next(cfg, s, step))
    ensures Next(cfg, s, step).lease == s.lease
  {
    match step
    case Read(item) => ReadFits(cfg, s, item);
    case Subscribed(_, _) => SubscribedFits(cfg, s, step);
    case Enqueue => EnqueueFits(cfg, s);
    case _ =>
  }

  lemma StepFits(cfg: Config, s: State, step: Step)
    requires LeaseFits(s) && Ordered(cfg, s) && Enabled(cfg, s, step)
    requires Next(cfg, s, step).lease.advances < Readiness.WORD / 2
    ensures LeaseFits(Next(cfg, s, step)) && s.lease.advances <= Next(cfg, s, step).lease.advances
  {
    if LeaseAction(s, step).None? {
      ControlFits(cfg, s, step);
    } else {
      var action := LeaseAction(s, step).value;
      ActionIsDisciplined(cfg, s, step);
      LeaseInvariantKept(s.lease, action);
      OthersKeptPublishing(s.lease, action);
      match step
      case Publisher(_) => PublisherFits(cfg, s, action);
      case LoadWord => LoadFits(cfg, s);
      case SwapWord(spurious) => SwapFits(cfg, s, spurious);
      case ClearFlag => ClearFits(cfg, s);
    }
  }

  // ---- Runs ----

  /** Only a step with an action on the word or the flag touches the lease. */
  lemma LeaseUntouched(cfg: Config, s: State, step: Step)
    requires Enabled(cfg, s, step) && LeaseAction(s, step).None?
    ensures Next(cfg, s, step).lease == s.lease
  {
  }

  lemma StepAdvances(cfg: Config, s: State, step: Step)
    requires Enabled(cfg, s, step)
    ensures s.lease.advances <= Next(cfg, s, step).lease.advances
  {
    if LeaseAction(s, step).None? {
      LeaseUntouched(cfg, s, step);
    }
  }

  lemma {:induction false} AdvancesGrow(cfg: Config, s: State, steps: seq<Step>)
    requires Runs(cfg, s, steps)
    ensures s.lease.advances <= End(cfg, s, steps).lease.advances
    decreases |steps|
  {
    if steps != [] {
      StepAdvances(cfg, s, steps[0]);
      AdvancesGrow(cfg, Next(cfg, s, steps[0]), steps[1..]);
    }
  }

  lemma {:induction false} RunFits(cfg: Config, s: State, steps: seq<Step>)
    requires LeaseFits(s) && Ordered(cfg, s) && Runs(cfg, s, steps)
    requires End(cfg, s, steps).lease.advances < Readiness.WORD / 2
    ensures LeaseFits(End(cfg, s, steps)) && Ordered(cfg, End(cfg, s, steps))
    decreases |steps|
  {
    if steps != [] {
      AdvancesGrow(cfg, Next(cfg, s, steps[0]), steps[1..]);
      StepFits(cfg, s, steps[0]);
      StepKeeps(cfg, s, steps[0]);
      RunFits(cfg, Next(cfg, s, steps[0]), steps[1..]);
    }
  }

  lemma InitiallyFits(cfg: Config, s: State)
    requires Initial(cfg, s)
    ensures LeaseFits(s) && Ordered(cfg, s)
  {
    Readiness.InitiallyFine(s.lease);
  }

  /** What a run does to the word and the flag, in order. */
  function Actions(cfg: Config, s: State, steps: seq<Step>): seq<Readiness.Step>
    requires Runs(cfg, s, steps)
    decreases |steps|
  {
    if steps == [] then []
    else
      var rest := Actions(cfg, Next(cfg, s, steps[0]), steps[1..]);
      if LeaseAction(s, steps[0]).Some? then [LeaseAction(s, steps[0]).value] + rest else rest
  }

  /** The actions are a run of `Readiness` from one word to another, and every connect in it follows a disconnect. */
  ghost predicate DisciplinedFrom(lease: Readiness.State, actions: seq<Readiness.Step>, end: Readiness.State) {
    Readiness.Runs(lease, actions) && Readiness.DisciplinedRun(lease, actions) && Readiness.End(lease, actions) == end
  }

  lemma FirstAction(lease: Readiness.State, action: Readiness.Step, rest: seq<Readiness.Step>, end: Readiness.State)
    requires Readiness.Enabled(lease, action) && Readiness.Disciplined(lease, action)
    requires DisciplinedFrom(Readiness.Next(lease, action), rest, end)
    ensures DisciplinedFrom(lease, [action] + rest, end)
  {
    assert ([action] + rest)[1..] == rest;
  }

  lemma {:induction false} RunIsDisciplined(cfg: Config, s: State, steps: seq<Step>)
    requires LeaseFits(s) && Ordered(cfg, s) && Runs(cfg, s, steps)
    requires End(cfg, s, steps).lease.advances < Readiness.WORD / 2
    ensures DisciplinedFrom(s.lease, Actions(cfg, s, steps), End(cfg, s, steps).lease)
    decreases |steps|
  {
    if steps != [] {
      var n := Next(cfg, s, steps[0]);
      AdvancesGrow(cfg, n, steps[1..]);
      StepFits(cfg, s, steps[0]);
      StepKeeps(cfg, s, steps[0]);
      RunIsDisciplined(cfg, n, steps[1..]);
      if LeaseAction(s, steps[0]).Some? {
        ActionIsDisciplined(cfg, s, steps[0]);
        FirstAction(s.lease, LeaseAction(s, steps[0]).value, Actions(cfg, n, steps[1..]), End(cfg, s, steps).lease);
      } else {
        ControlFits(cfg, s, steps[0]);
      }
    }
  }

  /**
   * In every run of the worker, what the pump and the publishers do to the word
   * and the flag is a disciplined run of `Readiness`: the pump connects only
   * from a disconnected word.
   */
  lemma PumpIsDisciplined(cfg: Config, s: State, steps: seq<Step>)
    requires Initial(cfg, s) && Runs(cfg, s, steps) && End(cfg, s, steps).lease.advances < Readiness.WORD / 2
    ensures var actions := Actions(cfg, s, steps);
      && Readiness.Runs(s.lease, actions)
      && Readiness.DisciplinedRun(s.lease, actions)
      && Readiness.End(s.lease, actions) == End(cfg, s, steps).lease
  {
    InitiallyFits(cfg, s);
    RunIsDisciplined(cfg, s, steps);
  }

  /**
   * In every interleaving of pump, publishers, consumer and shutdown: when a gap
   * enters the queue the source is marked disconnected, so no lease is current,
   * and a ready flag still up belongs to a publisher that has yet to take it back.
   */
  lemma GapNeedsRevocation(cfg: Config, s: State, steps: seq<Step>)
    requires Initial(cfg, s) && Runs(cfg, s, steps) && End(cfg, s, steps).lease.advances < Readiness.WORD / 2
    requires Enabled(cfg, End(cfg, s, steps), Enqueue) && End(cfg, s, steps).pc.update.Gap?
    ensures var lease := End(cfg, s, steps).lease;
      && !Readiness.Odd(lease.activity)
      && (lease.ready ==> exists t ::
            && t != PUMP
            && Readiness.PcOf(lease, t) in {Readiness.Stored(lease.readyBy), Readiness.Retracting(lease.readyBy)})
  {
    InitiallyFits(cfg, s);
    RunFits(cfg, s, steps);
    var lease := End(cfg, s, steps).lease;
    if lease.ready {
      assert lease.readyBy != lease.activity;
      var t :| Readiness.Withdraws(lease, t);
      assert t != PUMP ==> !Readiness.PcOf(lease, t).Clearing?;
    }
  }

  /**
   * The worker's readiness in every interleaving: ready with nothing halfway
   * means that a source is connected, that its own lease published the flag, and
   * that its stream is open with no gap admitted from it.
   */
  lemma WorkerReadiness(cfg: Config, s: State, steps: seq<Step>)
    requires Initial(cfg, s) && Runs(cfg, s, steps) && End(cfg, s, steps).lease.advances < Readiness.WORD / 2
    ensures var e := End(cfg, s, steps);
      Readiness.Quiescent(e.lease) && e.lease.ready ==>
        && e.lease.readyBy == e.lease.activity && Readiness.Odd(e.lease.activity)
        && e.subscriptions != [] && Open(LastOf(e))
  {
    InitiallyFits(cfg, s);
    RunFits(cfg, s, steps);
    var e := End(cfg, s, steps);
    if Readiness.Quiescent(e.lease) && e.lease.ready {
      Readiness.QuietIsExact(e.lease);
    }
  }

  /**
   * The worker's exact condition when a failed re-check may be pending: with
   * nobody between store and re-check or between bump and clear, a ready flag is
   * stale exactly while its own publisher has yet to retract it.
   */
  lemma WorkerStaleExactlyWhileRetracting(cfg: Config, s: State, steps: seq<Step>)
    requires Initial(cfg, s) && Runs(cfg, s, steps) && End(cfg, s, steps).lease.advances < Readiness.WORD / 2
    requires Readiness.BetweenWrites(End(cfg, s, steps).lease) && End(cfg, s, steps).lease.ready
    ensures var lease := End(cfg, s, steps).lease;
      lease.readyBy != lease.activity <==> exists t :: Readiness.PcOf(lease, t) == Readiness.Retracting(lease.readyBy)
  {
    InitiallyFits(cfg, s);
    RunFits(cfg, s, steps);
    Readiness.StaleMeansRetracting(End(cfg, s, steps).lease);
  }

  /** In every run the source counts as connected only while the pump serves its stream or is about to leave it. */
  lemma ConnectedExactlyWhileServing(cfg: Config, s: State, steps: seq<Step>)
    requires Initial(cfg, s) && Runs(cfg, s, steps) && End(cfg, s, steps).lease.advances < Readiness.WORD / 2
    ensures var e := End(cfg, s, steps);
      && (!e.revoking ==> (Connected(e) <==> Serving(e.pc)))
      && (Connected(e) ==> e.subscriptions != [] && Open(LastOf(e)))
  {
    InitiallyFits(cfg, s);
    RunFits(cfg, s, steps);
  }
}
