/** Which lanes a history of events leaves active, and in which order. */
module Lanes {
  import opened Chain
  import opened LogOrder

  /** The log adds the asset and no later one removes it. */
  predicate Stays(logs: seq<ContractLog>, i: nat, asset: nat) {
    && i < |logs| && logs[i].event == LaneAdded(asset)
    && forall j :: i < j < |logs| ==> logs[j].event != LaneRemoved(asset)
  }

  /** The first such log is the one that made the lane active. */
  predicate Activates(logs: seq<ContractLog>, i: nat, asset: nat) {
    Stays(logs, i, asset) && forall k :: 0 <= k < i ==> !Stays(logs, k, asset)
  }

  predicate NoRepeats(active: seq<nat>) {
    forall p, q :: 0 <= p < q < |active| ==> active[p] != active[q]
  }

  ghost predicate OnlyStaying(active: seq<nat>, logs: seq<ContractLog>) {
    forall asset :: asset in active <==> exists i: nat :: Stays(logs, i, asset)
  }

  ghost predicate ByActivation(active: seq<nat>, logs: seq<ContractLog>) {
    forall p, q, i: nat, j: nat ::
      0 <= p < q < |active| && Activates(logs, i, active[p]) && Activates(logs, j, active[q]) ==> i < j
  }

  /** Exactly the assets added and not removed since, each once, in the order in which they became active. */
  ghost predicate LanesOf(active: seq<nat>, logs: seq<ContractLog>) {
    NoRepeats(active) && OnlyStaying(active, logs) && ByActivation(active, logs)
  }

  // ---- One more event ----

  /** Whether an addition stands after one more log. */
  lemma StaysAfter(logs: seq<ContractLog>, log: ContractLog, i: nat, asset: nat)
    ensures Stays(logs + [log], i, asset) <==>
      || (Stays(logs, i, asset) && log.event != LaneRemoved(asset))
      || (i == |logs| && log.event == LaneAdded(asset))
  {
    var more := logs + [log];
    assert more[|logs|] == log;
    if i < |logs| {
      assert more[i] == logs[i];
      if Stays(more, i, asset) {
        forall j | i < j < |logs|
          ensures logs[j].event != LaneRemoved(asset)
        {
          assert more[j] == logs[j];
        }
      }
    }
  }

  lemma ActivatesAfter(logs: seq<ContractLog>, log: ContractLog, i: nat, asset: nat)
    requires Activates(logs + [log], i, asset)
    ensures Activates(logs, i, asset) || (i == |logs| && log.event == LaneAdded(asset))
    ensures i == |logs| ==> forall k: nat :: !Stays(logs, k, asset)
  {
    StaysAfter(logs, log, i, asset);
    forall k: nat | k < i
      ensures !Stays(logs, k, asset)
    {
      StaysAfter(logs, log, k, asset);
    }
  }

  lemma {:induction false} WithoutIs(active: seq<nat>, asset: nat)
    ensures forall x :: x in Without(active, asset) <==> x in active && x != asset
  {
    if active != [] {
      WithoutIs(active[1..], asset);
      assert active == [active[0]] + active[1..];
    }
  }

  /** What is left keeps its order. */
  lemma {:induction false} WithoutKeepsOrder(active: seq<nat>, asset: nat, p: nat, q: nat) returns (i: nat, j: nat)
    requires p < q < |Without(active, asset)|
    ensures i < j < |active| && active[i] == Without(active, asset)[p] && active[j] == Without(active, asset)[q]
  {
    var rest := Without(active[1..], asset);
    if active[0] == asset {
      i, j := WithoutKeepsOrder(active[1..], asset, p, q);
      i, j := i + 1, j + 1;
    } else if p > 0 {
      i, j := WithoutKeepsOrder(active[1..], asset, p - 1, q - 1);
      i, j := i + 1, j + 1;
    } else {
      assert Without(active, asset)[q] == rest[q - 1] && rest[q - 1] in rest;
      WithoutIs(active[1..], asset);
      var k :| 0 <= k < |active[1..]| && active[1..][k] == rest[q - 1];
      i, j := 0, k + 1;
    }
  }

  lemma StayingAfter(active: seq<nat>, logs: seq<ContractLog>, log: ContractLog)
    requires OnlyStaying(active, logs)
    ensures OnlyStaying(ApplyEvent(active, log.event), logs + [log])
  {
    var next := ApplyEvent(active, log.event);
    if log.event.LaneRemoved? {
      WithoutIs(active, log.event.asset);
    }
    forall asset
      ensures asset in next <==> exists i: nat :: Stays(logs + [log], i, asset)
    {
      if asset in next {
        if log.event == LaneAdded(asset) {
          StaysAfter(logs, log, |logs|, asset);
        } else {
          var i: nat :| Stays(logs, i, asset);
          StaysAfter(logs, log, i, asset);
        }
      }
      if i: nat :| Stays(logs + [log], i, asset) {
        StaysAfter(logs, log, i, asset);
      }
    }
  }

  lemma NoRepeatsAfter(active: seq<nat>, event: LaneEvent)
    requires NoRepeats(active)
    ensures NoRepeats(ApplyEvent(active, event))
  {
    if event.LaneRemoved? {
      var next := Without(active, event.asset);
      forall p, q | 0 <= p < q < |next|
        ensures next[p] != next[q]
      {
        var i, j := WithoutKeepsOrder(active, event.asset, p, q);
      }
    }
  }

  /** Two lanes that were active before keep their order. */
  lemma OldOrder(active: seq<nat>, logs: seq<ContractLog>, log: ContractLog, x: nat, y: nat, i: nat, j: nat)
    requires OnlyStaying(active, logs) && x in active && y in active
    requires forall k: nat, l: nat :: Activates(logs, k, x) && Activates(logs, l, y) ==> k < l
    requires Activates(logs + [log], i, x) && Activates(logs + [log], j, y)
    ensures i < j
  {
    ActivatesAfter(logs, log, i, x);
    ActivatesAfter(logs, log, j, y);
  }

  lemma OrderAfterRemoval(active: seq<nat>, logs: seq<ContractLog>, log: ContractLog)
    requires LanesOf(active, logs) && log.event.LaneRemoved?
    ensures ByActivation(ApplyEvent(active, log.event), logs + [log])
  {
    var next := Without(active, log.event.asset);
    forall p, q, i: nat, j: nat | 0 <= p < q < |next|
      && Activates(logs + [log], i, next[p]) && Activates(logs + [log], j, next[q])
      ensures i < j
    {
      var k, l := WithoutKeepsOrder(active, log.event.asset, p, q);
      OldOrder(active, logs, log, next[p], next[q], i, j);
    }
  }

  lemma OrderAfterOther(active: seq<nat>, logs: seq<ContractLog>, log: ContractLog)
    requires LanesOf(active, logs) && !log.event.LaneRemoved?
    ensures ByActivation(ApplyEvent(active, log.event), logs + [log])
  {
    var next := ApplyEvent(active, log.event);
    forall p, q, i: nat, j: nat | 0 <= p < q < |next|
      && Activates(logs + [log], i, next[p]) && Activates(logs + [log], j, next[q])
      ensures i < j
    {
      if q < |active| {
        OldOrder(active, logs, log, next[p], next[q], i, j);
      } else {
        assert next[p] in active;
        ActivatesAfter(logs, log, i, next[p]);
        ActivatesAfter(logs, log, j, next[q]);
        assert !exists k: nat :: Stays(logs, k, next[q]);
      }
    }
  }

  lemma OneMoreEvent(active: seq<nat>, logs: seq<ContractLog>, log: ContractLog)
    requires LanesOf(active, logs)
    ensures LanesOf(ApplyEvent(active, log.event), logs + [log])
  {
    NoRepeatsAfter(active, log.event);
    StayingAfter(active, logs, log);
    if log.event.LaneRemoved? {
      OrderAfterRemoval(active, logs, log);
    } else {
      OrderAfterOther(active, logs, log);
    }
  }

  // ---- Replays ----

  lemma {:induction false} ReplayMeans(active: seq<nat>, past: seq<ContractLog>, logs: seq<ContractLog>)
    requires LanesOf(active, past)
    ensures LanesOf(Replay(active, logs), past + logs)
    decreases |logs|
  {
    if logs == [] {
      assert past + logs == past;
    } else {
      OneMoreEvent(active, past, logs[0]);
      ReplayMeans(ApplyEvent(active, logs[0].event), past + [logs[0]], logs[1..]);
      assert past + [logs[0]] + logs[1..] == past + logs;
    }
  }

  /** A replay from nothing leaves exactly the lanes of its logs. */
  lemma ReplayLeaves(logs: seq<ContractLog>)
    ensures LanesOf(Replay([], logs), logs)
  {
    ReplayMeans([], [], logs);
    assert [] + logs == logs;
  }
}
