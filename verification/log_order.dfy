/** Logs of one contract: which blocks they lie in, how they are ordered, and the lanes they add up to. */
module LogOrder {
  import opened Chain
  import opened Lexicographic

  datatype LaneEvent = LaneAdded(asset: nat) | LaneRemoved(asset: nat) | OtherEvent

  datatype ContractLog = ContractLog(address: nat, cursor: ChainCursor, event: LaneEvent, bytes: nat)

  /** What `compareCursor` compares, most significant first. */
  function Key(c: ChainCursor): seq<nat> {
    var positioned := c.transactionIndex.Some? && c.logIndex.Some?;
    [c.blockNumber, OrZero(c.transactionIndex), OrZero(c.logIndex),
     if positioned then 0 else OrZero(c.sourceSequence), if positioned then 0 else OrZero(c.sourceSubIndex)]
  }

  predicate Below(a: ContractLog, b: ContractLog) {
    Compare(Key(a.cursor), Key(b.cursor)) <= 0
  }

  /** The cursor order field by field; a source's own numbering counts only without full coordinates. */
  predicate InOrder(a: ChainCursor, b: ChainCursor) {
    if a.blockNumber != b.blockNumber then a.blockNumber < b.blockNumber
    else if OrZero(a.transactionIndex) != OrZero(b.transactionIndex) then
      OrZero(a.transactionIndex) < OrZero(b.transactionIndex)
    else if OrZero(a.logIndex) != OrZero(b.logIndex) then OrZero(a.logIndex) < OrZero(b.logIndex)
    else if Numbering(a) != Numbering(b) then
      Numbering(a).0 < Numbering(b).0 || (Numbering(a).0 == Numbering(b).0 && Numbering(a).1 < Numbering(b).1)
    else true
  }

  function Numbering(c: ChainCursor): (nat, nat) {
    if c.transactionIndex.Some? && c.logIndex.Some? then (0, 0)
    else (OrZero(c.sourceSequence), OrZero(c.sourceSubIndex))
  }

  lemma BelowExactly(a: ContractLog, b: ContractLog)
    ensures Below(a, b) <==> InOrder(a.cursor, b.cursor)
  {
    var s, t := Key(a.cursor), Key(b.cursor);
    assert s[0..] == s && t[0..] == t && s[5..] == [] && t[5..] == [];
    CompareFrom(s, t, 0);
    CompareFrom(s, t, 1);
    CompareFrom(s, t, 2);
    CompareFrom(s, t, 3);
    CompareFrom(s, t, 4);
  }

  predicate Sorted(logs: seq<ContractLog>) {
    forall i, j :: 0 <= i < j < |logs| ==> Below(logs[i], logs[j])
  }

  /** The logs of blocks `lo` up to but not including `hi`. */
  function InBlocks(logs: seq<ContractLog>, lo: nat, hi: nat): seq<ContractLog> {
    if logs == [] then []
    else
      (if lo <= logs[0].cursor.blockNumber < hi then [logs[0]] else []) + InBlocks(logs[1..], lo, hi)
  }

  function TotalBytes(logs: seq<ContractLog>): nat {
    if logs == [] then 0 else logs[0].bytes + TotalBytes(logs[1..])
  }

  lemma {:induction false} SplitBlocks(logs: seq<ContractLog>, lo: nat, mid: nat, hi: nat)
    requires lo <= mid <= hi
    ensures multiset(InBlocks(logs, lo, hi)) == multiset(InBlocks(logs, lo, mid)) + multiset(InBlocks(logs, mid, hi))
    ensures TotalBytes(InBlocks(logs, lo, hi))
      == TotalBytes(InBlocks(logs, lo, mid)) + TotalBytes(InBlocks(logs, mid, hi))
  {
    if logs != [] {
      SplitBlocks(logs[1..], lo, mid, hi);
      HeadBlock(logs, lo, hi);
      HeadBlock(logs, lo, mid);
      HeadBlock(logs, mid, hi);
    }
  }

  lemma HeadBlock(logs: seq<ContractLog>, lo: nat, hi: nat)
    requires logs != []
    ensures var rest, whole := InBlocks(logs[1..], lo, hi), InBlocks(logs, lo, hi);
      if lo <= logs[0].cursor.blockNumber < hi then
        multiset(whole) == multiset{logs[0]} + multiset(rest) && TotalBytes(whole) == logs[0].bytes + TotalBytes(rest)
      else whole == rest
  {
    var rest, whole := InBlocks(logs[1..], lo, hi), InBlocks(logs, lo, hi);
    if lo <= logs[0].cursor.blockNumber < hi {
      assert whole == [logs[0]] + rest && whole[1..] == rest;
    } else {
      assert whole == rest;
    }
  }

  lemma {:induction false} NoBlocks(logs: seq<ContractLog>, lo: nat, hi: nat)
    requires hi <= lo
    ensures InBlocks(logs, lo, hi) == []
  {
    if logs != [] {
      NoBlocks(logs[1..], lo, hi);
    }
  }

  lemma {:induction false} InBlocksAre(logs: seq<ContractLog>, lo: nat, hi: nat)
    ensures forall x :: x in InBlocks(logs, lo, hi) <==> x in logs && lo <= x.cursor.blockNumber < hi
  {
    if logs != [] {
      InBlocksAre(logs[1..], lo, hi);
      assert logs == [logs[0]] + logs[1..];
    }
  }

  lemma {:induction false} BytesConcat(a: seq<ContractLog>, b: seq<ContractLog>)
    ensures TotalBytes(a + b) == TotalBytes(a) + TotalBytes(b)
  {
    if a == [] {
      assert a + b == b;
    } else {
      BytesConcat(a[1..], b);
      assert (a + b)[1..] == a[1..] + b;
    }
  }

  lemma Uncons(logs: seq<ContractLog>)
    requires logs != []
    ensures multiset(logs) == multiset{logs[0]} + multiset(logs[1..])
  {
    assert logs == [logs[0]] + logs[1..];
  }

  lemma CancelOne(x: ContractLog, m: multiset<ContractLog>, n: multiset<ContractLog>)
    requires multiset{x} + m == multiset{x} + n
    ensures m == n
  {
    forall y
      ensures m[y] == n[y]
    {
      assert (multiset{x} + m)[y] == (multiset{x} + n)[y];
    }
  }

  lemma TakeOut(logs: seq<ContractLog>, j: nat)
    requires j < |logs|
    ensures multiset(logs) == multiset{logs[j]} + multiset(logs[..j] + logs[j + 1..])
    ensures TotalBytes(logs) == logs[j].bytes + TotalBytes(logs[..j] + logs[j + 1..])
  {
    var front, tail := logs[..j], logs[j..];
    assert logs == front + tail && tail[1..] == logs[j + 1..];
    BytesConcat(front, tail);
    BytesConcat(front, tail[1..]);
    Uncons(tail);
  }

  lemma {:induction false} BytesPermuted(a: seq<ContractLog>, b: seq<ContractLog>)
    requires multiset(a) == multiset(b)
    ensures TotalBytes(a) == TotalBytes(b)
    decreases |a|
  {
    if a == [] {
      assert |multiset(b)| == 0;
    } else {
      assert a[0] in multiset(b);
      var j :| 0 <= j < |b| && b[j] == a[0];
      var rest := b[..j] + b[j + 1..];
      Uncons(a);
      TakeOut(b, j);
      CancelOne(a[0], multiset(a[1..]), multiset(rest));
      BytesPermuted(a[1..], rest);
    }
  }

  // ---- Sorting ----

  function Insert(log: ContractLog, logs: seq<ContractLog>): seq<ContractLog> {
    if logs == [] then [log]
    else if Below(log, logs[0]) then [log] + logs
    else [logs[0]] + Insert(log, logs[1..])
  }

  /** A stable sort by cursor. */
  function SortByCursor(logs: seq<ContractLog>): seq<ContractLog> {
    if logs == [] then [] else Insert(logs[0], SortByCursor(logs[1..]))
  }

  lemma BelowAll(log: ContractLog, logs: seq<ContractLog>, j: nat)
    requires Sorted(logs) && j < |logs| && Below(log, logs[0])
    ensures Below(log, logs[j])
  {
    if j > 0 {
      CompareTransitive(Key(log.cursor), Key(logs[0].cursor), Key(logs[j].cursor));
    }
  }

  lemma PrependSorted(log: ContractLog, logs: seq<ContractLog>)
    requires Sorted(logs) && forall x :: x in logs ==> Below(log, x)
    ensures Sorted([log] + logs)
  {
    var all := [log] + logs;
    forall i, j | 0 <= i < j < |all|
      ensures Below(all[i], all[j])
    {
      assert all[j] == logs[j - 1];
    }
  }

  lemma OneOf(all: seq<ContractLog>, log: ContractLog, rest: seq<ContractLog>, x: ContractLog)
    requires multiset(all) == multiset{log} + multiset(rest) && x in all
    ensures x == log || x in rest
  {
    assert x in multiset(all);
  }

  lemma {:induction false} InsertSorts(log: ContractLog, logs: seq<ContractLog>)
    requires Sorted(logs)
    ensures Sorted(Insert(log, logs)) && multiset(Insert(log, logs)) == multiset{log} + multiset(logs)
  {
    if logs != [] {
      if Below(log, logs[0]) {
        forall j | 0 <= j < |logs|
          ensures Below(log, logs[j])
        {
          BelowAll(log, logs, j);
        }
        PrependSorted(log, logs);
        Uncons([log] + logs);
      } else {
        var rest := Insert(log, logs[1..]);
        InsertSorts(log, logs[1..]);
        Uncons(logs);
        Uncons([logs[0]] + rest);
        CompareSymmetric(Key(log.cursor), Key(logs[0].cursor));
        forall x | x in rest
          ensures Below(logs[0], x)
        {
          OneOf(rest, log, logs[1..], x);
        }
        PrependSorted(logs[0], rest);
      }
    }
  }

  lemma {:induction false} SortSorts(logs: seq<ContractLog>)
    ensures Sorted(SortByCursor(logs)) && multiset(SortByCursor(logs)) == multiset(logs)
  {
    if logs != [] {
      SortSorts(logs[1..]);
      InsertSorts(logs[0], SortByCursor(logs[1..]));
      assert logs == [logs[0]] + logs[1..];
    }
  }

  lemma {:induction false} SortedStays(logs: seq<ContractLog>)
    requires Sorted(logs)
    ensures SortByCursor(logs) == logs
  {
    if logs != [] {
      SortedStays(logs[1..]);
      assert logs == [logs[0]] + logs[1..];
    }
  }

  /** No two logs share a position. */
  ghost predicate Positioned(logs: seq<ContractLog>) {
    forall x, y :: x in logs && y in logs && Key(x.cursor) == Key(y.cursor) ==> x == y
  }

  /** With distinct positions there is one sorted order. */
  lemma {:induction false} SortedIsUnique(a: seq<ContractLog>, b: seq<ContractLog>)
    requires Sorted(a) && Sorted(b) && multiset(a) == multiset(b) && Positioned(a)
    ensures a == b
    decreases |a|
  {
    if a == [] {
      assert |multiset(b)| == 0;
    } else {
      SameFirst(a, b);
      Uncons(a);
      Uncons(b);
      CancelOne(a[0], multiset(a[1..]), multiset(b[1..]));
      TailSorted(a);
      TailSorted(b);
      TailPositioned(a);
      SortedIsUnique(a[1..], b[1..]);
      assert a == [a[0]] + a[1..] && b == [b[0]] + b[1..];
    }
  }

  lemma TailSorted(a: seq<ContractLog>)
    requires a != [] && Sorted(a)
    ensures Sorted(a[1..])
  {
  }

  lemma TailPositioned(a: seq<ContractLog>)
    requires a != [] && Positioned(a)
    ensures Positioned(a[1..])
  {
    assert forall x :: x in a[1..] ==> x in a;
  }

  lemma SameFirst(a: seq<ContractLog>, b: seq<ContractLog>)
    requires a != [] && Sorted(a) && Sorted(b) && multiset(a) == multiset(b) && Positioned(a)
    ensures b != [] && a[0] == b[0]
  {
    assert a[0] in multiset(b) && b[0] in multiset(a);
    FirstIsLeast(a, b[0]);
    FirstIsLeast(b, a[0]);
    CompareSymmetric(Key(a[0].cursor), Key(b[0].cursor));
  }

  lemma FirstIsLeast(a: seq<ContractLog>, x: ContractLog)
    requires Sorted(a) && x in a
    ensures Below(a[0], x)
  {
    CompareSymmetric(Key(x.cursor), Key(x.cursor));
    var i :| 0 <= i < |a| && a[i] == x;
  }

  /** Sorted logs of earlier blocks before sorted logs of later ones. */
  lemma SortedConcat(a: seq<ContractLog>, b: seq<ContractLog>, border: nat)
    requires Sorted(a) && Sorted(b)
    requires forall x :: x in a ==> x.cursor.blockNumber < border
    requires forall x :: x in b ==> border <= x.cursor.blockNumber
    ensures Sorted(a + b)
  {
    var c := a + b;
    forall i, j | 0 <= i < j < |c|
      ensures Below(c[i], c[j])
    {
      if i < |a| <= j {
        assert c[i] in a && c[j] in b;
      }
    }
  }

  // ---- Lane discovery ----

  function Without(active: seq<nat>, asset: nat): seq<nat> {
    if active == [] then []
    else (if active[0] == asset then [] else [active[0]]) + Without(active[1..], asset)
  }

  /** One event against the insertion-ordered set of active lanes. */
  function ApplyEvent(active: seq<nat>, event: LaneEvent): seq<nat> {
    match event
    case LaneAdded(asset) => if asset in active then active else active + [asset]
    case LaneRemoved(asset) => Without(active, asset)
    case OtherEvent => active
  }

  function Replay(active: seq<nat>, logs: seq<ContractLog>): seq<nat>
    decreases |logs|
  {
    if logs == [] then active else Replay(ApplyEvent(active, logs[0].event), logs[1..])
  }

  lemma {:induction false} ReplayConcat(active: seq<nat>, a: seq<ContractLog>, b: seq<ContractLog>)
    ensures Replay(active, a + b) == Replay(Replay(active, a), b)
    decreases |a|
  {
    if a == [] {
      assert a + b == b;
    } else {
      var next := ApplyEvent(active, a[0].event);
      assert (a + b)[0] == a[0] && (a + b)[1..] == a[1..] + b;
      assert Replay(active, a + b) == Replay(next, a[1..] + b);
      ReplayConcat(next, a[1..], b);
    }
  }
}
