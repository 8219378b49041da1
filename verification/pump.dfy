/**
 * The source pump of crates/lunarbase-event-worker/src/pump.rs as atomic steps
 * of the pump, the readiness publishers, the queue's consumer, the shutdown
 * signal and the runtime that may abort the pump, in any order. The pump marks
 * its source connected or disconnected by its own steps on the readiness word
 * and flag.
 */
module Pump {
  import opened Chain
  import opened Integers
  import Readiness

  const PERMIT_WORD: nat := 0x1_0000_0000

  /** An update with its retained charge; `slack` is what compaction would give back. */
  datatype Update =
    | Data(payload: nat, position: ChainCursor, bytes: nat, slack: nat)
    | Gap(cursor: Option<ChainCursor>, bytes: nat)

  /** What a stream yields, or the timer in its place; the numbers are the charges of the gap notices. */
  datatype Item =
    | Yielded(update: Update)
    | Failed(notice: nat)
    | Closed(notice: nat)
    | Stalled(notice: nat)

  datatype Config = Config(byteCapacity: nat, slots: nat, budgetNotice: nat)

  datatype Queued = Queued(update: Update, charge: nat)

  /**
   * One subscription: the items taken from its stream, the updates admitted for
   * it, and the notices sent after it for subscriptions that failed.
   */
  datatype Subscription = Subscription(items: seq<Item>, admitted: seq<Update>, failures: seq<Update>)

  datatype Pc =
    | Starting
    | Subscribing
    | Connecting
    | Reading
    | Acquiring(update: Update, streamed: bool)
    | Reserving(update: Update, streamed: bool)
    | Reconnecting
    | Exited

  /** The thread the pump runs on; every other thread publishes. */
  const PUMP: nat := 0

  /**
   * While `revoking` the pump is inside `mark_inactive` and goes on at `pc` once
   * that is done. `taken` is all the consumer ever took from the queue, and
   * `received` the part of it that it still holds.
   */
  datatype State = State(
    pc: Pc,
    revoking: bool,
    lease: Readiness.State,
    shutdown: bool,
    closed: bool,
    aborted: bool,
    free: nat,
    queue: seq<Queued>,
    received: seq<Queued>,
    taken: seq<Queued>,
    depth: nat,
    bytes: nat,
    subscriptions: seq<Subscription>)

  datatype Step =
    | Begin
    | Subscribed(connected: bool, notice: nat)
    | Read(item: Item)
    | Acquire
    | Enqueue
    | Cancel
    | Wake
    | LoadWord
    | SwapWord(spurious: bool)
    | ClearFlag
    | Publisher(action: Readiness.Step)
    | Shutdown
    | CloseQueue
    | Abort
    | Receive
    | Release

  predicate Initial(cfg: Config, s: State) {
    && s.pc.Starting? && !s.revoking && Readiness.Initial(s.lease) && !s.closed && !s.aborted
    && s.free == cfg.byteCapacity
    && s.queue == [] && s.received == [] && s.taken == [] && s.depth == 0 && s.bytes == 0 && s.subscriptions == []
  }

  function UpdateOf(item: Item): Update {
    match item
    case Yielded(u) => u
    case Failed(n) => Gap(None, n)
    case Closed(n) => Gap(None, n)
    case Stalled(n) => Gap(None, n)
  }

  function CursorOf(u: Update): Option<ChainCursor> {
    if u.Data? then Some(u.position) else u.cursor
  }

  /** Compacts an update that fits the byte capacity and turns any other into a gap at its cursor. */
  function Normalize(cfg: Config, u: Update): Update {
    if u.bytes > cfg.byteCapacity then Gap(CursorOf(u), cfg.budgetNotice)
    else if u.Gap? then u
    else u.(bytes := if u.slack <= u.bytes then u.bytes - u.slack else 0, slack := 0)
  }

  predicate Terminal(cfg: Config, u: Update) {
    u.Gap? || u.bytes > cfg.byteCapacity
  }

  /** Permits taken for an update: at least one, truncated to 32 bits. */
  function Charge(u: Update): nat {
    Mod(if u.bytes == 0 then 1 else u.bytes, PERMIT_WORD)
  }

  function LastOf(s: State): Subscription
    requires s.subscriptions != []
  {
    s.subscriptions[|s.subscriptions| - 1]
  }

  function WithLast(s: State, sub: Subscription): seq<Subscription>
    requires s.subscriptions != []
  {
    s.subscriptions[|s.subscriptions| - 1 := sub]
  }

  /** The flag or one publication step of a thread that is not the pump. */
  predicate OfPublisher(action: Readiness.Step) {
    action.Revoke?
    || ((action.Check? || action.Store? || action.Recheck? || action.Retract?) && action.thread != PUMP)
  }

  /** Where the pump can be suspended, so where an abort ends it. */
  predicate Awaits(pc: Pc) {
    pc.Subscribing? || pc.Reading? || pc.Acquiring? || pc.Reserving? || pc.Reconnecting?
  }

  predicate Enabled(cfg: Config, s: State, step: Step) {
    match step
    case Begin => s.pc.Starting? && !s.revoking
    case Subscribed(_, _) => s.pc.Subscribing? && !s.revoking && !s.shutdown
    case Read(_) => s.pc.Reading? && !s.revoking && !s.shutdown && s.subscriptions != []
    case Acquire => s.pc.Acquiring? && !s.revoking && Charge(s.pc.update) <= s.free
    case Enqueue =>
      && s.pc.Reserving? && !s.revoking && !s.closed && |s.queue| < cfg.slots
      && s.subscriptions != []
    case Cancel =>
      && !s.revoking
      && (|| (s.shutdown && Awaits(s.pc) && !s.pc.Reconnecting?)
          || (s.closed && s.pc.Reserving?)
          || (s.aborted && Awaits(s.pc)))
    case Wake => s.pc.Reconnecting? && !s.revoking
    case LoadWord => (s.revoking || s.pc.Connecting?) && Readiness.PcOf(s.lease, PUMP).Idle?
    case SwapWord(_) => Readiness.PcOf(s.lease, PUMP).Advancing?
    case ClearFlag => Readiness.PcOf(s.lease, PUMP).Clearing?
    case Publisher(action) => OfPublisher(action) && Readiness.Enabled(s.lease, action)
    case Shutdown => true
    case CloseQueue => true
    case Abort => true
    case Receive => s.queue != [] && !s.closed
    case Release => s.received != []
  }

  /** Leaving the pump task disconnects the source once more. */
  function Exit(s: State): State {
    s.(pc := Exited, revoking := true)
  }

  function Admit(s: State, u: Update): State
    requires s.subscriptions != []
  {
    s.(subscriptions := WithLast(s, LastOf(s).(admitted := LastOf(s).admitted + [u])))
  }

  /** A notice that a subscription failed follows all that the one before it sent. */
  function Notify(s: State, u: Update): State
    requires s.subscriptions != []
  {
    s.(subscriptions := WithLast(s, LastOf(s).(failures := LastOf(s).failures + [u])))
  }

  /** What a step does to the readiness word and flag, if anything. */
  function LeaseAction(s: State, step: Step): Option<Readiness.Step> {
    match step
    case LoadWord => Some(Readiness.Load(PUMP, !s.revoking))
    case SwapWord(spurious) => Some(Readiness.CompareExchange(PUMP, spurious))
    case ClearFlag => Some(Readiness.Clear(PUMP))
    case Publisher(action) => Some(action)
    case _ => None
  }

  function LeaseStep(s: State, action: Readiness.Step): State
    requires Readiness.Enabled(s.lease, action)
  {
    s.(lease := Readiness.Next(s.lease, action))
  }

  function Next(cfg: Config, s: State, step: Step): State
    requires Enabled(cfg, s, step)
  {
    match step
    case Begin => if s.shutdown then Exit(s) else s.(pc := Subscribing, revoking := true)
    case Subscribed(connected, notice) =>
      if connected then s.(pc := Connecting, subscriptions := s.subscriptions + [Subscription([], [], [])])
      else if s.subscriptions != [] then s.(pc := Acquiring(Normalize(cfg, Gap(None, notice)), false))
      else s.(pc := Reconnecting, revoking := true)
    case Read(item) =>
      var u := UpdateOf(item);
      s.(pc := Acquiring(Normalize(cfg, u), true),
         revoking := Terminal(cfg, u),
         subscriptions := WithLast(s, LastOf(s).(items := LastOf(s).items + [item])))
    case Acquire => s.(pc := Reserving(s.pc.update, s.pc.streamed), free := s.free - Charge(s.pc.update))
    case Enqueue =>
      var u := s.pc.update;
      var queued := s.(queue := s.queue + [Queued(u, Charge(u))], depth := s.depth + 1, bytes := s.bytes + u.bytes);
      if !s.pc.streamed then Notify(queued, u).(pc := Reconnecting, revoking := true)
      else if u.Gap? then Admit(queued, u).(pc := Reconnecting, revoking := true)
      else Admit(queued, u).(pc := Reading)
    case Cancel =>
      if s.pc.Reserving? then Exit(s).(free := s.free + Charge(s.pc.update)) else Exit(s)
    case Wake => if s.shutdown then Exit(s) else s.(pc := Starting)
    case LoadWord => LeaseStep(s, Readiness.Load(PUMP, !s.revoking))
    case SwapWord(spurious) =>
      var action := Readiness.CompareExchange(PUMP, spurious);
      var connected := s.pc.Connecting? && !s.revoking && Readiness.Advances(s.lease, action);
      if connected then LeaseStep(s, action).(pc := Reading) else LeaseStep(s, action)
    case ClearFlag => LeaseStep(s, Readiness.Clear(PUMP)).(revoking := false)
    case Publisher(action) => LeaseStep(s, action)
    case Shutdown => s.(shutdown := true)
    case CloseQueue =>
      s.(closed := true, queue := [], free := s.free + Charges(s.queue),
         depth := Down(s.depth, |s.queue|), bytes := Down(s.bytes, Bytes(s.queue)))
    case Abort => s.(aborted := true)
    case Receive =>
      s.(queue := s.queue[1..], received := s.received + [s.queue[0]], taken := s.taken + [s.queue[0]])
    case Release =>
      var q := s.received[0];
      s.(received := s.received[1..], free := s.free + q.charge,
         depth := Down(s.depth, 1), bytes := Down(s.bytes, q.update.bytes))
  }

  /** The relaxed counters only ever give back what they took (see `Counters`). */
  function Down(a: nat, b: nat): nat { if b <= a then a - b else 0 }

  function Charges(qs: seq<Queued>): nat {
    if qs == [] then 0 else qs[0].charge + Charges(qs[1..])
  }

  function Bytes(qs: seq<Queued>): nat {
    if qs == [] then 0 else qs[0].update.bytes + Bytes(qs[1..])
  }

  lemma {:induction false} ChargesAppend(qs: seq<Queued>, q: Queued)
    ensures Charges(qs + [q]) == Charges(qs) + q.charge && Bytes(qs + [q]) == Bytes(qs) + q.update.bytes
    decreases |qs|
  {
    if qs != [] {
      ChargesAppend(qs[1..], q);
      assert (qs + [q])[1..] == qs[1..] + [q];
    }
  }

  // ---- Permits and counters ----

  function InFlight(pc: Pc): nat {
    if pc.Reserving? then Charge(pc.update) else 0
  }

  /** Free permits plus every charge held make up the byte capacity. */
  predicate Permits(cfg: Config, s: State) {
    s.free + InFlight(s.pc) + Charges(s.queue) + Charges(s.received) == cfg.byteCapacity
  }

  /** The depth and byte gauges describe exactly the queued and held updates. */
  predicate Counters(s: State) {
    s.depth == |s.queue| + |s.received| && s.bytes == Bytes(s.queue) + Bytes(s.received)
  }

  predicate Accounts(cfg: Config, s: State) {
    Permits(cfg, s) && Counters(s) && |s.queue| <= cfg.slots
  }

  lemma EnqueueAccounts(cfg: Config, s: State)
    requires Accounts(cfg, s) && Enabled(cfg, s, Enqueue)
    ensures Accounts(cfg, Next(cfg, s, Enqueue))
  {
    ChargesAppend(s.queue, Queued(s.pc.update, Charge(s.pc.update)));
  }

  lemma ReceiveAccounts(cfg: Config, s: State)
    requires Accounts(cfg, s) && Enabled(cfg, s, Receive)
    ensures Accounts(cfg, Next(cfg, s, Receive))
  {
    ChargesAppend(s.received, s.queue[0]);
  }

  lemma ReturnAccounts(cfg: Config, s: State, step: Step)
    requires Accounts(cfg, s) && Enabled(cfg, s, step)
    requires step.CloseQueue? || step.Release? || step.Acquire? || step.Cancel?
    ensures Accounts(cfg, Next(cfg, s, step))
  {
  }

  /** The other steps touch neither permits nor gauges. */
  lemma IdleAccounts(cfg: Config, s: State, step: Step)
    requires Enabled(cfg, s, step) && !step.Enqueue? && !step.Receive?
    requires !step.CloseQueue? && !step.Release? && !step.Acquire? && !step.Cancel?
    ensures var n := Next(cfg, s, step);
      && n.free == s.free && n.queue == s.queue && n.received == s.received && n.depth == s.depth && n.bytes == s.bytes
      && InFlight(n.pc) == InFlight(s.pc)
  {
  }

  lemma AccountsKept(cfg: Config, s: State, step: Step)
    requires Accounts(cfg, s) && Enabled(cfg, s, step)
    ensures Accounts(cfg, Next(cfg, s, step))
  {
    if step.Enqueue? {
      EnqueueAccounts(cfg, s);
    } else if step.Receive? {
      ReceiveAccounts(cfg, s);
    } else if step.CloseQueue? || step.Release? || step.Acquire? || step.Cancel? {
      ReturnAccounts(cfg, s, step);
    } else {
      IdleAccounts(cfg, s, step);
    }
  }

  // ---- What is admitted for a subscription ----

  /** The admitted updates are the first items of the stream, in order, normalized; at most the last is missing. */
  predicate InStreamOrder(cfg: Config, sub: Subscription) {
    && |sub.admitted| <= |sub.items| <= |sub.admitted| + 1
    && forall i :: 0 <= i < |sub.admitted| ==> sub.admitted[i] == Normalize(cfg, UpdateOf(sub.items[i]))
  }

  /** No gap was admitted yet. */
  predicate Open(sub: Subscription) {
    forall i :: 0 <= i < |sub.admitted| ==> !sub.admitted[i].Gap?
  }

  /** A gap ends the stream: nothing was taken or admitted after it. */
  predicate GapIsLast(sub: Subscription) {
    forall i :: 0 <= i < |sub.admitted| && sub.admitted[i].Gap? ==> i + 1 == |sub.items|
  }

  /** Everything taken was admitted, and the last of it is the only gap. */
  predicate Ended(sub: Subscription) {
    && |sub.admitted| == |sub.items| > 0 && sub.admitted[|sub.admitted| - 1].Gap?
    && forall i :: 0 <= i < |sub.admitted| - 1 ==> !sub.admitted[i].Gap?
  }

  ghost predicate EachInOrder(cfg: Config, subs: seq<Subscription>) {
    forall k :: 0 <= k < |subs| ==> InStreamOrder(cfg, subs[k]) && GapIsLast(subs[k])
  }

  ghost predicate EarlierEnded(subs: seq<Subscription>) {
    forall k :: 0 <= k < |subs| - 1 ==> Ended(subs[k])
  }

  predicate AllEnded(subs: seq<Subscription>) {
    forall k :: 0 <= k < |subs| ==> Ended(subs[k])
  }

  /** The pump holds the last item taken from the current stream. */
  predicate HoldsLast(cfg: Config, sub: Subscription, u: Update) {
    && |sub.items| == |sub.admitted| + 1
    && u == Normalize(cfg, UpdateOf(sub.items[|sub.admitted|]))
  }

  /** The current stream is open and everything taken from it was admitted. */
  predicate CaughtUp(s: State) {
    s.subscriptions != [] && Open(LastOf(s)) && |LastOf(s).items| == |LastOf(s).admitted|
  }

  ghost predicate PcFits(cfg: Config, s: State) {
    match s.pc
    case Starting => AllEnded(s.subscriptions)
    case Subscribing => AllEnded(s.subscriptions)
    case Reconnecting => AllEnded(s.subscriptions)
    case Connecting => CaughtUp(s)
    case Reading => CaughtUp(s)
    case Acquiring(u, streamed) => Sending(cfg, s, u, streamed)
    case Reserving(u, streamed) => Sending(cfg, s, u, streamed)
    case Exited => s.shutdown || s.closed || s.aborted
  }

  ghost predicate Sending(cfg: Config, s: State, u: Update, streamed: bool) {
    if streamed then s.subscriptions != [] && Open(LastOf(s)) && HoldsLast(cfg, LastOf(s), u)
    else u.Gap? && s.subscriptions != [] && AllEnded(s.subscriptions)
  }

  ghost predicate Ordered(cfg: Config, s: State) {
    EachInOrder(cfg, s.subscriptions) && EarlierEnded(s.subscriptions) && PcFits(cfg, s)
  }

  /**
   * Normalization keeps the cursor, and the payload of what is not made a gap.
   * What it lets through fits the byte capacity if the notice does, so its
   * permits can always be had when nothing else holds any.
   */
  lemma NormalizedFits(cfg: Config, u: Update)
    ensures CursorOf(Normalize(cfg, u)) == CursorOf(u)
    ensures Normalize(cfg, u).Data? ==> u.Data? && Normalize(cfg, u).payload == u.payload
    ensures cfg.budgetNotice <= cfg.byteCapacity ==> Normalize(cfg, u).bytes <= cfg.byteCapacity
    ensures cfg.budgetNotice <= cfg.byteCapacity && 0 < cfg.byteCapacity < PERMIT_WORD ==>
      1 <= Charge(Normalize(cfg, u)) <= cfg.byteCapacity
  {
    var n := Normalize(cfg, u);
    if n.bytes < PERMIT_WORD {
      DivUnique(if n.bytes == 0 then 1 else n.bytes, PERMIT_WORD, 0, if n.bytes == 0 then 1 else n.bytes);
    }
  }

  lemma TerminalIsGap(cfg: Config, u: Update)
    ensures Terminal(cfg, u) <==> Normalize(cfg, u).Gap?
  {
  }

  lemma ReplaceLast(cfg: Config, s: State, sub: Subscription)
    requires s.subscriptions != [] && EachInOrder(cfg, s.subscriptions) && EarlierEnded(s.subscriptions)
    requires InStreamOrder(cfg, sub) && GapIsLast(sub)
    ensures EachInOrder(cfg, WithLast(s, sub)) && EarlierEnded(WithLast(s, sub))
    ensures Ended(sub) ==> AllEnded(WithLast(s, sub))
  {
  }

  lemma ReadKeeps(cfg: Config, s: State, item: Item)
    requires Ordered(cfg, s) && Enabled(cfg, s, Read(item))
    ensures Ordered(cfg, Next(cfg, s, Read(item)))
  {
    var sub := LastOf(s);
    ReplaceLast(cfg, s, sub.(items := sub.items + [item]));
    TerminalIsGap(cfg, UpdateOf(item));
  }

  /** Admitting the item held: a gap ends the subscription, anything else leaves it open. */
  lemma AdmitExtends(cfg: Config, sub: Subscription, u: Update)
    requires InStreamOrder(cfg, sub) && Open(sub) && HoldsLast(cfg, sub, u)
    ensures var more := sub.(admitted := sub.admitted + [u]);
      && InStreamOrder(cfg, more) && GapIsLast(more) && |more.items| == |more.admitted|
      && if u.Gap? then Ended(more) else Open(more)
  {
  }

  lemma EnqueueKeeps(cfg: Config, s: State)
    requires Ordered(cfg, s) && Enabled(cfg, s, Enqueue)
    ensures Ordered(cfg, Next(cfg, s, Enqueue))
  {
    if s.pc.streamed {
      var sub := LastOf(s);
      AdmitExtends(cfg, sub, s.pc.update);
      ReplaceLast(cfg, s, sub.(admitted := sub.admitted + [s.pc.update]));
    } else {
      ReplaceLast(cfg, s, LastOf(s).(failures := LastOf(s).failures + [s.pc.update]));
    }
  }

  lemma SubscribedKeeps(cfg: Config, s: State, step: Step)
    requires Ordered(cfg, s) && Enabled(cfg, s, step) && step.Subscribed?
    ensures Ordered(cfg, Next(cfg, s, step))
  {
    TerminalIsGap(cfg, Gap(None, step.notice));
  }

  /** Steps on the readiness word leave the subscriptions alone. */
  lemma WordKeeps(cfg: Config, s: State, step: Step)
    requires Ordered(cfg, s) && Enabled(cfg, s, step)
    requires step.LoadWord? || step.SwapWord? || step.ClearFlag? || step.Publisher?
    ensures Ordered(cfg, Next(cfg, s, step))
  {
    SameSubscriptions(cfg, s, Next(cfg, s, step));
  }

  lemma SameSubscriptions(cfg: Config, s: State, n: State)
    requires Ordered(cfg, s) && n.subscriptions == s.subscriptions
    requires n.shutdown == s.shutdown && n.closed == s.closed && n.aborted == s.aborted
    requires n.pc == s.pc || (s.pc.Connecting? && n.pc.Reading?)
    ensures Ordered(cfg, n)
  {
  }

  /** Steps of the environment and of the queue leave the pump where it is. */
  lemma EnvironmentKeeps(cfg: Config, s: State, step: Step)
    requires Ordered(cfg, s) && Enabled(cfg, s, step)
    requires step.Shutdown? || step.CloseQueue? || step.Abort? || step.Receive? || step.Release?
    ensures Ordered(cfg, Next(cfg, s, step))
  {
    var n := Next(cfg, s, step);
    assert n.subscriptions == s.subscriptions && n.pc == s.pc;
  }

  lemma ControlKeeps(cfg: Config, s: State, step: Step)
    requires Ordered(cfg, s) && Enabled(cfg, s, step)
    requires step.Begin? || step.Acquire? || step.Cancel? || step.Wake?
    ensures Ordered(cfg, Next(cfg, s, step))
  {
    var n := Next(cfg, s, step);
    assert n.subscriptions == s.subscriptions;
  }

  lemma StepKeeps(cfg: Config, s: State, step: Step)
    requires Ordered(cfg, s) && Enabled(cfg, s, step)
    ensures Ordered(cfg, Next(cfg, s, step))
  {
    if step.Read? {
      ReadKeeps(cfg, s, step.item);
    } else if step.Enqueue? {
      EnqueueKeeps(cfg, s);
    } else if step.Subscribed? {
      SubscribedKeeps(cfg, s, step);
    } else if step.LoadWord? || step.SwapWord? || step.ClearFlag? || step.Publisher? {
      WordKeeps(cfg, s, step);
    } else if step.Shutdown? || step.CloseQueue? || step.Abort? || step.Receive? || step.Release? {
      EnvironmentKeeps(cfg, s, step);
    } else {
      ControlKeeps(cfg, s, step);
    }
  }

  // ---- Runs ----

  predicate Runs(cfg: Config, s: State, steps: seq<Step>)
    decreases |steps|
  {
    steps == [] || (Enabled(cfg, s, steps[0]) && Runs(cfg, Next(cfg, s, steps[0]), steps[1..]))
  }

  function End(cfg: Config, s: State, steps: seq<Step>): State
    requires Runs(cfg, s, steps)
    decreases |steps|
  {
    if steps == [] then s else End(cfg, Next(cfg, s, steps[0]), steps[1..])
  }

  lemma {:induction false} RunKeeps(cfg: Config, s: State, steps: seq<Step>)
    requires Runs(cfg, s, steps) && Ordered(cfg, s) && Accounts(cfg, s)
    ensures Ordered(cfg, End(cfg, s, steps)) && Accounts(cfg, End(cfg, s, steps))
    decreases |steps|
  {
    if steps != [] {
      StepKeeps(cfg, s, steps[0]);
      AccountsKept(cfg, s, steps[0]);
      RunKeeps(cfg, Next(cfg, s, steps[0]), steps[1..]);
    }
  }

  /** At every moment of every run free permits and held charges add up, and the gauges are exact. */
  lemma PermitsAreConserved(cfg: Config, s: State, steps: seq<Step>)
    requires Initial(cfg, s) && Runs(cfg, s, steps)
    ensures var e := End(cfg, s, steps); Permits(cfg, e) && Counters(e) && |e.queue| <= cfg.slots
  {
    RunKeeps(cfg, s, steps);
  }

  /** Whether the current stream's last item was taken but not admitted. */
  predicate Pending(s: State) {
    s.subscriptions != [] && |LastOf(s).items| == |LastOf(s).admitted| + 1
  }

  /**
   * At every moment of every run, each subscription's admitted updates are a
   * contiguous prefix of its stream in order, with a gap only at its very end.
   * Every subscription but the current one was admitted whole and ended in one
   * gap; at most the last item of the current one is missing, and only while the
   * pump is sending it or after it exited, which takes a shutdown, a closed
   * queue or an abort.
   */
  lemma AdmittedInOrder(cfg: Config, s: State, steps: seq<Step>)
    requires Initial(cfg, s) && Runs(cfg, s, steps)
    ensures var e := End(cfg, s, steps);
      && EachInOrder(cfg, e.subscriptions)
      && EarlierEnded(e.subscriptions)
      && (e.subscriptions != [] ==>
          || |LastOf(e).items| == |LastOf(e).admitted|
          || (Pending(e) && (e.pc.Acquiring? || e.pc.Reserving? || e.pc.Exited?)))
      && (e.pc.Exited? ==> e.shutdown || e.closed || e.aborted)
      && (e.pc.Starting? || e.pc.Subscribing? || e.pc.Reconnecting? ==> AllEnded(e.subscriptions))
  {
    RunKeeps(cfg, s, steps);
  }
}
