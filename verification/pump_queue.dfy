/** What the pump's consumer receives, in which order, and which failures it hears of. */
module PumpQueue {
  import opened Chain
  import Readiness
  import opened Pump

  // ---- What the consumer receives ----

  function Updates(qs: seq<Queued>): seq<Update> {
    seq(|qs|, i requires 0 <= i < |qs| => qs[i].update)
  }

  /** All that was put into the queue, subscription by subscription. */
  function Sent(subs: seq<Subscription>): seq<Update> {
    if subs == [] then []
    else
      var last := subs[|subs| - 1];
      Sent(subs[..|subs| - 1]) + last.admitted + last.failures
  }

  /** Notices of failed subscriptions only follow a subscription that ended. */
  ghost predicate FailuresFollow(subs: seq<Subscription>) {
    forall k :: 0 <= k < |subs| && subs[k].failures != [] ==> !Open(subs[k])
  }

  /**
   * What the consumer took, followed by what still is in the queue, is what was
   * sent, in order; a closed queue is empty. What it holds is the last part of
   * what it took.
   */
  predicate InLine(closed: bool, queue: seq<Queued>, taken: seq<Queued>, received: seq<Queued>, sent: seq<Update>) {
    && Updates(taken) <= sent
    && (if closed then queue == [] else Updates(taken) + Updates(queue) == sent)
    && |received| <= |taken| && received == taken[|taken| - |received|..]
  }

  predicate FirstInFirstOut(s: State) {
    InLine(s.closed, s.queue, s.taken, s.received, Sent(s.subscriptions))
  }

  lemma OneSent(queue: seq<Queued>, q: Queued, taken: seq<Queued>, received: seq<Queued>, sent: seq<Update>)
    requires InLine(false, queue, taken, received, sent)
    ensures InLine(false, queue + [q], taken, received, sent + [q.update])
  {
    assert Updates(queue + [q]) == Updates(queue) + [q.update];
  }

  lemma OneTaken(queue: seq<Queued>, taken: seq<Queued>, received: seq<Queued>, sent: seq<Update>)
    requires InLine(false, queue, taken, received, sent) && queue != []
    ensures InLine(false, queue[1..], taken + [queue[0]], received + [queue[0]], sent)
  {
    assert Updates(taken + [queue[0]]) == Updates(taken) + [queue[0].update];
    assert Updates(queue) == [queue[0].update] + Updates(queue[1..]);
  }

  lemma SentAfter(s: State, sub: Subscription)
    requires s.subscriptions != []
    ensures Sent(WithLast(s, sub)) == Sent(s.subscriptions[..|s.subscriptions| - 1]) + sub.admitted + sub.failures
  {
    var n := |s.subscriptions| - 1;
    assert WithLast(s, sub)[..n] == s.subscriptions[..n];
  }

  lemma AdmitSends(s: State, u: Update)
    requires s.subscriptions != [] && LastOf(s).failures == []
    ensures Sent(Admit(s, u).subscriptions) == Sent(s.subscriptions) + [u]
  {
    var sub := LastOf(s);
    SentAfter(s, sub.(admitted := sub.admitted + [u]));
  }

  lemma NotifySends(s: State, u: Update)
    requires s.subscriptions != []
    ensures Sent(Notify(s, u).subscriptions) == Sent(s.subscriptions) + [u]
  {
    var sub := LastOf(s);
    SentAfter(s, sub.(failures := sub.failures + [u]));
  }

  lemma EnqueueSends(cfg: Config, s: State)
    requires FailuresFollow(s.subscriptions) && Ordered(cfg, s) && Enabled(cfg, s, Enqueue)
    ensures Sent(Next(cfg, s, Enqueue).subscriptions) == Sent(s.subscriptions) + [s.pc.update]
  {
    if s.pc.streamed {
      AdmitSends(s, s.pc.update);
    } else {
      NotifySends(s, s.pc.update);
    }
  }

  lemma EnqueueFollows(cfg: Config, s: State)
    requires FailuresFollow(s.subscriptions) && Ordered(cfg, s) && Enabled(cfg, s, Enqueue)
    ensures FailuresFollow(Next(cfg, s, Enqueue).subscriptions)
  {
  }

  lemma EnqueueFlows(cfg: Config, s: State)
    requires FirstInFirstOut(s) && FailuresFollow(s.subscriptions) && Ordered(cfg, s) && Enabled(cfg, s, Enqueue)
    ensures FirstInFirstOut(Next(cfg, s, Enqueue))
  {
    EnqueueSends(cfg, s);
    OneSent(s.queue, Queued(s.pc.update, Charge(s.pc.update)), s.taken, s.received, Sent(s.subscriptions));
  }

  lemma SubscriptionSends(cfg: Config, s: State, step: Step)
    requires FailuresFollow(s.subscriptions) && Enabled(cfg, s, step) && (step.Subscribed? || step.Read?)
    ensures Sent(Next(cfg, s, step).subscriptions) == Sent(s.subscriptions)
    ensures FailuresFollow(Next(cfg, s, step).subscriptions)
  {
    if step.Read? {
      var sub := LastOf(s);
      SentAfter(s, sub.(items := sub.items + [step.item]));
    } else if step.connected {
      assert Next(cfg, s, step).subscriptions[..|s.subscriptions|] == s.subscriptions;
    }
  }

  /** The other steps send nothing; of them only the consumer's and closing touch the queue. */
  lemma NothingSent(cfg: Config, s: State, step: Step)
    requires Enabled(cfg, s, step) && !step.Enqueue? && !step.Subscribed? && !step.Read?
    ensures Next(cfg, s, step).subscriptions == s.subscriptions
  {
  }

  lemma QueueKept(cfg: Config, s: State, step: Step)
    requires Enabled(cfg, s, step) && !step.Enqueue? && !step.Receive? && !step.CloseQueue? && !step.Release?
    ensures var n := Next(cfg, s, step);
      n.queue == s.queue && n.taken == s.taken && n.received == s.received && n.closed == s.closed
  {
  }

  lemma ConsumerFlows(cfg: Config, s: State, step: Step)
    requires FirstInFirstOut(s) && Enabled(cfg, s, step) && (step.Receive? || step.CloseQueue? || step.Release?)
    ensures FirstInFirstOut(Next(cfg, s, step))
  {
    NothingSent(cfg, s, step);
    if step.Receive? {
      OneTaken(s.queue, s.taken, s.received, Sent(s.subscriptions));
    }
  }

  lemma StepFlows(cfg: Config, s: State, step: Step)
    requires FirstInFirstOut(s) && FailuresFollow(s.subscriptions) && Ordered(cfg, s) && Enabled(cfg, s, step)
    ensures FirstInFirstOut(Next(cfg, s, step)) && FailuresFollow(Next(cfg, s, step).subscriptions)
  {
    if step.Enqueue? {
      EnqueueFlows(cfg, s);
      EnqueueFollows(cfg, s);
    } else if step.Receive? || step.CloseQueue? || step.Release? {
      ConsumerFlows(cfg, s, step);
      NothingSent(cfg, s, step);
    } else {
      QueueKept(cfg, s, step);
      if step.Subscribed? || step.Read? {
        SubscriptionSends(cfg, s, step);
      } else {
        NothingSent(cfg, s, step);
      }
    }
  }

  lemma {:induction false} RunFlows(cfg: Config, s: State, steps: seq<Step>)
    requires Runs(cfg, s, steps) && Ordered(cfg, s) && FirstInFirstOut(s) && FailuresFollow(s.subscriptions)
    ensures FirstInFirstOut(End(cfg, s, steps))
    decreases |steps|
  {
    if steps != [] {
      StepKeeps(cfg, s, steps[0]);
      StepFlows(cfg, s, steps[0]);
      RunFlows(cfg, Next(cfg, s, steps[0]), steps[1..]);
    }
  }

  /** The updates made of the first items of a stream. */
  function Normalized(cfg: Config, items: seq<Item>): seq<Update> {
    seq(|items|, i requires 0 <= i < |items| => Normalize(cfg, UpdateOf(items[i])))
  }

  lemma {:induction false} PartOfSent(subs: seq<Subscription>, k: nat)
    requires k < |subs|
    ensures Sent(subs[..k]) + subs[k].admitted <= Sent(subs)
    decreases |subs|
  {
    var n := |subs| - 1;
    if k < n {
      PartOfSent(subs[..n], k);
      assert subs[..n][..k] == subs[..k];
    }
  }

  /** Each subscription's part of what was sent is the normalized beginning of its stream, after all earlier parts. */
  ghost predicate PartsInOrder(cfg: Config, subs: seq<Subscription>) {
    forall k :: 0 <= k < |subs| ==> PartInOrder(cfg, subs, k)
  }

  predicate PartInOrder(cfg: Config, subs: seq<Subscription>, k: nat)
    requires k < |subs|
  {
    var sub := subs[k];
    && |sub.admitted| <= |sub.items|
    && Sent(subs[..k]) + Normalized(cfg, sub.items[..|sub.admitted|]) <= Sent(subs)
  }

  lemma PartIsNormalized(cfg: Config, subs: seq<Subscription>, k: nat)
    requires EachInOrder(cfg, subs) && k < |subs|
    ensures PartInOrder(cfg, subs, k)
  {
    var sub := subs[k];
    PartOfSent(subs, k);
    assert InStreamOrder(cfg, sub);
    assert Normalized(cfg, sub.items[..|sub.admitted|]) == sub.admitted;
  }

  /**
   * At every moment of every run the consumer has taken, in order, a prefix of
   * what was sent, and the open queue holds exactly the rest. In what was sent
   * each subscription's part is the normalized beginning of its stream, right
   * after all that earlier subscriptions sent.
   */
  lemma ReceivedInOrder(cfg: Config, s: State, steps: seq<Step>)
    requires Initial(cfg, s) && Runs(cfg, s, steps)
    ensures FirstInFirstOut(End(cfg, s, steps)) && PartsInOrder(cfg, End(cfg, s, steps).subscriptions)
  {
    RunFlows(cfg, s, steps);
    RunKeeps(cfg, s, steps);
    var subs := End(cfg, s, steps).subscriptions;
    forall k | 0 <= k < |subs|
      ensures PartInOrder(cfg, subs, k)
    {
      PartIsNormalized(cfg, subs, k);
    }
  }

  // ---- Failed subscriptions ----

  /** A subscription that fails after an earlier one succeeded. */
  predicate Fails(s: State, step: Step) {
    step.Subscribed? && !step.connected && s.subscriptions != []
  }

  function FailedAttempts(cfg: Config, s: State, steps: seq<Step>): nat
    requires Runs(cfg, s, steps)
    decreases |steps|
  {
    if steps == [] then 0
    else (if Fails(s, steps[0]) then 1 else 0) + FailedAttempts(cfg, Next(cfg, s, steps[0]), steps[1..])
  }

  /** Notices sent for failed subscriptions. */
  function Notices(subs: seq<Subscription>): nat {
    if subs == [] then 0 else Notices(subs[..|subs| - 1]) + |subs[|subs| - 1].failures|
  }

  /** A notice is on its way. */
  predicate Notifying(pc: Pc) {
    (pc.Acquiring? || pc.Reserving?) && !pc.streamed
  }

  function Reported(s: State): nat { Notices(s.subscriptions) + if Notifying(s.pc) then 1 else 0 }

  lemma NoticesAfter(s: State, sub: Subscription)
    requires s.subscriptions != []
    ensures Notices(WithLast(s, sub)) + |LastOf(s).failures| == Notices(s.subscriptions) + |sub.failures|
  {
    var n := |s.subscriptions| - 1;
    assert WithLast(s, sub)[..n] == s.subscriptions[..n];
  }

  lemma EnqueueReports(cfg: Config, s: State)
    requires Enabled(cfg, s, Enqueue)
    ensures Reported(Next(cfg, s, Enqueue)) == Reported(s)
  {
    var sub, u := LastOf(s), s.pc.update;
    NoticesAfter(s, sub.(admitted := sub.admitted + [u]));
    NoticesAfter(s, sub.(failures := sub.failures + [u]));
  }

  lemma ReadReports(cfg: Config, s: State, item: Item)
    requires Enabled(cfg, s, Read(item))
    ensures Reported(Next(cfg, s, Read(item))) == Reported(s)
  {
    var sub := LastOf(s);
    NoticesAfter(s, sub.(items := sub.items + [item]));
  }

  lemma SubscribedReports(cfg: Config, s: State, step: Step)
    requires Enabled(cfg, s, step) && step.Subscribed?
    ensures Reported(Next(cfg, s, step)) == Reported(s) + if Fails(s, step) then 1 else 0
  {
    SubscribedMoves(cfg, s, step);
    OneMoreSubscription(s.subscriptions, Subscription([], [], []));
  }

  lemma SubscribedMoves(cfg: Config, s: State, step: Step)
    requires Enabled(cfg, s, step) && step.Subscribed?
    ensures !Notifying(s.pc)
    ensures var n := Next(cfg, s, step);
      if step.connected then n.subscriptions == s.subscriptions + [Subscription([], [], [])] && !Notifying(n.pc)
      else n.subscriptions == s.subscriptions && (Notifying(n.pc) <==> Fails(s, step))
  {
  }

  lemma OneMoreSubscription(subs: seq<Subscription>, sub: Subscription)
    ensures Notices(subs + [sub]) == Notices(subs) + |sub.failures|
  {
    assert (subs + [sub])[..|subs|] == subs;
  }

  /** The other steps lose a notice only by ending the pump. */
  lemma OtherReports(cfg: Config, s: State, step: Step)
    requires Enabled(cfg, s, step) && !step.Enqueue? && !step.Subscribed? && !step.Read?
    ensures var n := Next(cfg, s, step);
      && Notices(n.subscriptions) == Notices(s.subscriptions)
      && (Notifying(n.pc) ==> Notifying(s.pc))
      && (Notifying(s.pc) && !n.pc.Exited? ==> Notifying(n.pc)) && (s.pc.Exited? ==> n.pc.Exited?)
  {
    NothingSent(cfg, s, step);
  }

  lemma {:induction false} RunReports(cfg: Config, s: State, steps: seq<Step>)
    requires Runs(cfg, s, steps)
    ensures var e := End(cfg, s, steps);
      && Reported(e) <= Reported(s) + FailedAttempts(cfg, s, steps)
      && Reported(s) + FailedAttempts(cfg, s, steps) <= Reported(e) + (if e.pc.Exited? && !s.pc.Exited? then 1 else 0)
      && (s.pc.Exited? ==> e.pc.Exited?)
    decreases |steps|
  {
    if steps != [] {
      var step := steps[0];
      RunReports(cfg, Next(cfg, s, step), steps[1..]);
      if step.Enqueue? {
        EnqueueReports(cfg, s);
      } else if step.Subscribed? {
        SubscribedReports(cfg, s, step);
      } else if step.Read? {
        ReadReports(cfg, s, step.item);
      } else {
        OtherReports(cfg, s, step);
      }
    }
  }

  /**
   * In every run each subscription that fails after an earlier success is
   * reported by a gap of its own, in the queue or on its way to it; only the last
   * one can be lost, when the pump ends.
   */
  lemma FailuresAreReported(cfg: Config, s: State, steps: seq<Step>)
    requires Initial(cfg, s) && Runs(cfg, s, steps)
    ensures var e, failed := End(cfg, s, steps), FailedAttempts(cfg, s, steps);
      && (!e.pc.Exited? ==> Notices(e.subscriptions) + (if Notifying(e.pc) then 1 else 0) == failed)
      && (e.pc.Exited? ==> failed - 1 <= Notices(e.subscriptions) <= failed)
  {
    RunReports(cfg, s, steps);
  }
}
