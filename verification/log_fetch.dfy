/**
 * Bisecting log fetch and lane discovery of packages/source-evm/src/rpc.ts,
 * against a provider that answers every call as it likes.
 */
module LogFetch {
  import opened Chain
  import opened LogOrder
  import opened Lanes

  datatype RpcError = Invalid | Limit | Transport

  /** A provider's answer: the logs, a documented range or result limit, or any other failure. */
  datatype Reply = Chunk(logs: seq<ContractLog>) | RangeLimit(reason: RpcError) | Failure(error: RpcError)

  /** The answer to the n-th call, which may differ from earlier ones for the same range. */
  type Provider = (nat, nat, nat) -> Reply

  datatype Limits = Limits(maxPageBlocks: nat, maxLogs: nat, maxBytes: nat)

  /** Inclusive block range. */
  datatype Range = Range(from: nat, to: nat)

  /** Whenever the provider answers with logs they are those of the range, in any order. */
  ghost predicate Honest(provider: Provider, history: seq<ContractLog>) {
    forall n: nat, f: nat, t: nat :: provider(n, f, t).Chunk? ==>
      LogsOf(provider(n, f, t).logs, history, f, t + 1)
  }

  /** It rejects nothing but ranges of several blocks. */
  ghost predicate Reliable(provider: Provider) {
    forall n: nat, f: nat, t: nat :: !provider(n, f, t).Failure? && (provider(n, f, t).RangeLimit? ==> f < t)
  }

  predicate AllFrom(logs: seq<ContractLog>, address: nat) {
    forall x :: x in logs ==> x.address == address
  }

  predicate Fits(limits: Limits, logs: seq<ContractLog>) {
    |logs| <= limits.maxLogs && TotalBytes(logs) <= limits.maxBytes
  }

  // ---- Ranges ----

  /** Consecutive nonempty ranges from `lo` up to but not including `hi`. */
  predicate Covers(ranges: seq<Range>, lo: nat, hi: nat)
    decreases |ranges|
  {
    if ranges == [] then lo == hi
    else ranges[0].from == lo <= ranges[0].to && Covers(ranges[1..], ranges[0].to + 1, hi)
  }

  /** The same for a stack whose top is its last element. */
  predicate Partition(stack: seq<Range>, lo: nat, hi: nat)
    decreases |stack|
  {
    if stack == [] then lo == hi
    else
      var n := |stack| - 1;
      stack[n].from == lo <= stack[n].to && Partition(stack[..n], stack[n].to + 1, hi)
  }

  function Reversed(ranges: seq<Range>): seq<Range> {
    if ranges == [] then [] else Reversed(ranges[1..]) + [ranges[0]]
  }

  lemma {:induction false} ReversedPartition(ranges: seq<Range>, lo: nat, hi: nat)
    requires Covers(ranges, lo, hi)
    ensures Partition(Reversed(ranges), lo, hi)
    decreases |ranges|
  {
    if ranges != [] {
      ReversedPartition(ranges[1..], ranges[0].to + 1, hi);
      var n := |Reversed(ranges)| - 1;
      assert Reversed(ranges)[..n] == Reversed(ranges[1..]);
    }
  }

  lemma {:induction false} CoversAppend(ranges: seq<Range>, lo: nat, r: Range)
    requires Covers(ranges, lo, r.from) && r.from <= r.to
    ensures Covers(ranges + [r], lo, r.to + 1)
    decreases |ranges|
  {
    if ranges == [] {
      assert (ranges + [r])[1..] == [];
    } else {
      CoversAppend(ranges[1..], ranges[0].to + 1, r);
      assert (ranges + [r])[1..] == ranges[1..] + [r];
    }
  }

  lemma {:induction false} PartitionEnds(stack: seq<Range>, lo: nat, hi: nat)
    requires Partition(stack, lo, hi)
    ensures lo <= hi
    decreases |stack|
  {
    if stack != [] {
      var n := |stack| - 1;
      PartitionEnds(stack[..n], stack[n].to + 1, hi);
    }
  }

  /** An upper bound on the calls a stack can still cause. */
  function Work(stack: seq<Range>): nat
    decreases |stack|
  {
    if stack == [] then 0
    else
      var n := |stack| - 1;
      var r := stack[n];
      Work(stack[..n]) + (if r.from <= r.to then 2 * (r.to - r.from) + 1 else 0)
  }

  function Top(stack: seq<Range>): Range
    requires stack != []
  {
    stack[|stack| - 1]
  }

  function Pop(stack: seq<Range>): seq<Range>
    requires stack != []
  {
    stack[..|stack| - 1]
  }

  /** Replaces the top range by its upper and then its lower half. */
  function Bisect(stack: seq<Range>): seq<Range>
    requires stack != [] && Top(stack).from < Top(stack).to
  {
    var top := Top(stack);
    var middle := top.from + (top.to - top.from) / 2;
    Pop(stack) + [Range(middle + 1, top.to)] + [Range(top.from, middle)]
  }

  lemma PopKeeps(stack: seq<Range>, lo: nat, hi: nat)
    requires stack != [] && Partition(stack, lo, hi)
    ensures Top(stack).from == lo <= Top(stack).to < hi
    ensures Partition(Pop(stack), Top(stack).to + 1, hi) && Work(Pop(stack)) < Work(stack)
  {
    PartitionEnds(Pop(stack), Top(stack).to + 1, hi);
  }

  /** Splitting the top range keeps the partition and shrinks the work left. */
  lemma BisectKeeps(stack: seq<Range>, lo: nat, hi: nat)
    requires stack != [] && Partition(stack, lo, hi) && Top(stack).from < Top(stack).to
    ensures Partition(Bisect(stack), lo, hi) && Work(Bisect(stack)) < Work(stack)
  {
    var top := Top(stack);
    var middle := top.from + (top.to - top.from) / 2;
    var upper := Pop(stack) + [Range(middle + 1, top.to)];
    var both := upper + [Range(top.from, middle)];
    assert Pop(upper) == Pop(stack) && Pop(both) == upper;
  }

  method InitialLogRanges(from: nat, to: nat, maxPageBlocks: nat) returns (ranges: seq<Range>)
    requires maxPageBlocks > 0
    ensures from <= to ==> Covers(ranges, from, to + 1)
    ensures forall i :: 0 <= i < |ranges| ==> ranges[i].to - ranges[i].from < maxPageBlocks
  {
    ranges := [];
    var start := from;
    while start <= to
      invariant start <= to ==> Covers(ranges, from, start)
      invariant from <= to < start ==> Covers(ranges, from, to + 1)
      invariant forall i :: 0 <= i < |ranges| ==> ranges[i].to - ranges[i].from < maxPageBlocks
      decreases 1 + to - start
    {
      var end := start + maxPageBlocks - 1;
      var r := Range(start, if end < to then end else to);
      CoversAppend(ranges, from, r);
      ranges := ranges + [r];
      start := start + maxPageBlocks;
    }
  }

  // ---- One fetch ----

  lemma {:induction false} BytesPrefix(logs: seq<ContractLog>, n: nat)
    requires n <= |logs|
    ensures TotalBytes(logs[..n]) <= TotalBytes(logs)
  {
    assert logs == logs[..n] + logs[n..];
    BytesConcat(logs[..n], logs[n..]);
  }

  /** Adds a chunk log by log within the count and byte budgets. */
  method AppendChunk(limits: Limits, address: nat, logs: seq<ContractLog>, retained: nat, chunk: seq<ContractLog>)
    returns (r: Result<(seq<ContractLog>, nat), RpcError>)
    requires retained == TotalBytes(logs) && Fits(limits, logs)
    ensures r.Ok? <==> AllFrom(chunk, address) && Fits(limits, logs + chunk)
    ensures r.Ok? ==> r.value == (logs + chunk, TotalBytes(logs + chunk))
  {
    var all, bytes := logs, retained;
    for i := 0 to |chunk|
      invariant all == logs + chunk[..i] && bytes == TotalBytes(all) && Fits(limits, all)
      invariant AllFrom(chunk[..i], address)
    {
      assert chunk[..i + 1] == chunk[..i] + [chunk[i]];
      assert all + [chunk[i]] == logs + chunk[..i + 1];
      BytesConcat(all, [chunk[i]]);
      BytesPrefix(logs + chunk, |logs| + i + 1);
      assert (logs + chunk)[..|logs| + i + 1] == logs + chunk[..i + 1];
      if chunk[i].address != address {
        return Err(Invalid);
      }
      if |all| >= limits.maxLogs || bytes + chunk[i].bytes > limits.maxBytes {
        return Err(Limit);
      }
      all := all + [chunk[i]];
      bytes := bytes + chunk[i].bytes;
    }
    assert chunk[..|chunk|] == chunk;
    return Ok((all, bytes));
  }

  /** The logs of blocks `lo` up to but not including `hi`, each once, in any order. */
  ghost predicate LogsOf(logs: seq<ContractLog>, history: seq<ContractLog>, lo: nat, hi: nat) {
    forall x :: Times(logs, x) == Times(InBlocks(history, lo, hi), x)
  }

  ghost function Times(logs: seq<ContractLog>, x: ContractLog): nat {
    multiset(logs)[x]
  }

  lemma LogsOfBag(history: seq<ContractLog>, lo: nat, hi: nat, logs: seq<ContractLog>)
    ensures LogsOf(logs, history, lo, hi) <==> multiset(logs) == multiset(InBlocks(history, lo, hi))
  {
    if LogsOf(logs, history, lo, hi) {
      forall x
        ensures multiset(logs)[x] == multiset(InBlocks(history, lo, hi))[x]
      {
        assert Times(logs, x) == Times(InBlocks(history, lo, hi), x);
      }
    }
  }

  lemma LogsOfConcat(history: seq<ContractLog>, from: nat, next: nat, to: nat, logs: seq<ContractLog>,
                     chunk: seq<ContractLog>)
    requires from <= next <= to && LogsOf(logs, history, from, next) && LogsOf(chunk, history, next, to)
    ensures LogsOf(logs + chunk, history, from, to)
  {
    SplitBlocks(history, from, next, to);
    LogsOfBag(history, from, next, logs);
    LogsOfBag(history, next, to, chunk);
    LogsOfBag(history, from, to, logs + chunk);
  }

  lemma LogsOfSize(history: seq<ContractLog>, lo: nat, hi: nat, logs: seq<ContractLog>)
    requires LogsOf(logs, history, lo, hi)
    ensures TotalBytes(logs) == TotalBytes(InBlocks(history, lo, hi)) && |logs| == |InBlocks(history, lo, hi)|
  {
    LogsOfBag(history, lo, hi, logs);
    BytesPermuted(logs, InBlocks(history, lo, hi));
    assert |multiset(logs)| == |logs| && |multiset(InBlocks(history, lo, hi))| == |InBlocks(history, lo, hi)|;
  }

  /** A part of the range fits if the whole does. */
  lemma PartFits(limits: Limits, history: seq<ContractLog>, from: nat, next: nat, end: nat, logs: seq<ContractLog>)
    requires from <= next <= end && LogsOf(logs, history, from, next) && Fits(limits, InBlocks(history, from, end))
    ensures Fits(limits, logs)
  {
    SplitBlocks(history, from, next, end);
    LogsOfSize(history, from, next, logs);
    LogsOfBag(history, from, end, InBlocks(history, from, next) + InBlocks(history, next, end));
    LogsOfSize(history, from, end, InBlocks(history, from, next) + InBlocks(history, next, end));
  }

  lemma PartFrom(history: seq<ContractLog>, lo: nat, hi: nat, chunk: seq<ContractLog>, address: nat)
    requires AllFrom(history, address) && LogsOf(chunk, history, lo, hi)
    ensures AllFrom(chunk, address)
  {
    InBlocksAre(history, lo, hi);
    LogsOfBag(history, lo, hi, chunk);
    forall x | x in chunk
      ensures x.address == address
    {
      assert x in multiset(chunk);
    }
  }

  /** The provider rejects only what can still be split, and the logs are the contract's and fit. */
  ghost predicate CanSucceed(limits: Limits, provider: Provider, history: seq<ContractLog>, address: nat,
                             from: nat, to: nat)
  {
    Reliable(provider) && AllFrom(history, address) && Fits(limits, InBlocks(history, from, to + 1))
  }

  /** The next chunk extends what was fetched, and can be retained if the whole result can. */
  lemma ChunkExtends(limits: Limits, provider: Provider, history: seq<ContractLog>, address: nat, from: nat, to: nat,
                     next: nat, end: nat, logs: seq<ContractLog>, chunk: seq<ContractLog>)
    requires from <= next <= end <= to + 1 && LogsOf(logs, history, from, next) && LogsOf(chunk, history, next, end)
    ensures LogsOf(logs + chunk, history, from, end)
    ensures CanSucceed(limits, provider, history, address, from, to) ==>
      AllFrom(chunk, address) && Fits(limits, logs + chunk)
  {
    LogsOfConcat(history, from, next, end, logs, chunk);
    if CanSucceed(limits, provider, history, address, from, to) {
      PartFrom(history, next, end, chunk, address);
      PartFits(limits, history, from, end, to + 1, logs + chunk);
    }
  }

  /** All logs of the blocks below `next`, within the budgets. */
  ghost predicate Fetched(limits: Limits, address: nat, history: seq<ContractLog>, logs: seq<ContractLog>, bytes: nat,
                          from: nat, next: nat)
  {
    && LogsOf(logs, history, from, next)
    && bytes == TotalBytes(logs) && Fits(limits, logs) && AllFrom(logs, address)
  }

  lemma NothingFetched(limits: Limits, address: nat, history: seq<ContractLog>, from: nat)
    ensures Fetched(limits, address, history, [], 0, from, from)
  {
    NoBlocks(history, from, from);
  }

  lemma AddedIsFetched(limits: Limits, address: nat, history: seq<ContractLog>, logs: seq<ContractLog>,
                       chunk: seq<ContractLog>, from: nat, end: nat)
    requires LogsOf(logs + chunk, history, from, end) && Fits(limits, logs + chunk)
    requires AllFrom(logs, address) && AllFrom(chunk, address)
    ensures Fetched(limits, address, history, logs + chunk, TotalBytes(logs + chunk), from, end)
  {
  }

  /** Adds the logs of the next range. */
  method AddChunk(limits: Limits, address: nat, logs: seq<ContractLog>, bytes: nat, chunk: seq<ContractLog>,
                  ghost provider: Provider, ghost from: nat, ghost next: nat, ghost end: nat, ghost to: nat,
                  ghost history: seq<ContractLog>)
    returns (r: Result<(seq<ContractLog>, nat), RpcError>)
    requires from <= next <= end <= to + 1 && LogsOf(chunk, history, next, end)
    requires Fetched(limits, address, history, logs, bytes, from, next)
    ensures r.Ok? ==> Fetched(limits, address, history, r.value.0, r.value.1, from, end)
    ensures CanSucceed(limits, provider, history, address, from, to) ==> r.Ok?
  {
    ChunkExtends(limits, provider, history, address, from, to, next, end, logs, chunk);
    r := AppendChunk(limits, address, logs, bytes, chunk);
    if r.Ok? {
      AddedIsFetched(limits, address, history, logs, chunk, from, end);
    }
  }

  /** Asks for one range: the logs with its chunk added, or nothing if the range must be split. */
  method FetchRange(limits: Limits, provider: Provider, call: nat, top: Range, address: nat,
                    logs: seq<ContractLog>, bytes: nat, ghost from: nat, ghost to: nat, ghost history: seq<ContractLog>)
    returns (r: Result<Option<(seq<ContractLog>, nat)>, RpcError>)
    requires Honest(provider, history) && from <= top.from <= top.to <= to
    requires Fetched(limits, address, history, logs, bytes, from, top.from)
    ensures r.Ok? && r.value.Some? ==>
      Fetched(limits, address, history, r.value.value.0, r.value.value.1, from, top.to + 1)
    ensures r.Ok? && r.value.None? ==> top.from < top.to
    ensures CanSucceed(limits, provider, history, address, from, to) ==> r.Ok?
  {
    match provider(call, top.from, top.to)
    case Chunk(chunk) =>
      var added := AddChunk(limits, address, logs, bytes, chunk, provider, from, top.from, top.to + 1, to, history);
      if added.Err? {
        return Err(added.error);
      }
      return Ok(Some(added.value));
    case RangeLimit(reason) =>
      if top.from >= top.to {
        return Err(reason);
      }
      return Ok(None);
    case Failure(error) =>
      return Err(error);
  }

  /** The stack partitions the blocks from some `next` on, and exactly the logs before it were fetched. */
  ghost predicate Consistent(limits: Limits, address: nat, history: seq<ContractLog>, pending: seq<Range>,
                             logs: seq<ContractLog>, bytes: nat, from: nat, end: nat)
  {
    exists next: nat :: ConsistentAt(limits, address, history, pending, logs, bytes, from, next, end)
  }

  ghost predicate ConsistentAt(limits: Limits, address: nat, history: seq<ContractLog>, pending: seq<Range>,
                               logs: seq<ContractLog>, bytes: nat, from: nat, next: nat, end: nat)
  {
    from <= next <= end && Partition(pending, next, end) && Fetched(limits, address, history, logs, bytes, from, next)
  }

  lemma StartConsistent(limits: Limits, address: nat, history: seq<ContractLog>, pending: seq<Range>,
                        from: nat, end: nat)
    requires from <= end && Partition(pending, from, end)
    ensures Consistent(limits, address, history, pending, [], 0, from, end)
  {
    NothingFetched(limits, address, history, from);
    assert ConsistentAt(limits, address, history, pending, [], 0, from, from, end);
  }

  lemma TopIsNext(limits: Limits, address: nat, history: seq<ContractLog>, pending: seq<Range>, logs: seq<ContractLog>,
                  bytes: nat, from: nat, end: nat)
    requires Consistent(limits, address, history, pending, logs, bytes, from, end) && pending != []
    ensures from <= Top(pending).from <= Top(pending).to < end
    ensures Fetched(limits, address, history, logs, bytes, from, Top(pending).from)
  {
    var next: nat :| ConsistentAt(limits, address, history, pending, logs, bytes, from, next, end);
    PopKeeps(pending, next, end);
  }

  lemma PopConsistent(limits: Limits, address: nat, history: seq<ContractLog>, pending: seq<Range>,
                      logs: seq<ContractLog>, bytes: nat, from: nat, end: nat, all: seq<ContractLog>, allBytes: nat)
    requires Consistent(limits, address, history, pending, logs, bytes, from, end) && pending != []
    requires Fetched(limits, address, history, all, allBytes, from, Top(pending).to + 1)
    ensures Consistent(limits, address, history, Pop(pending), all, allBytes, from, end)
    ensures Work(Pop(pending)) < Work(pending)
  {
    var next: nat :| ConsistentAt(limits, address, history, pending, logs, bytes, from, next, end);
    PopKeeps(pending, next, end);
    assert ConsistentAt(limits, address, history, Pop(pending), all, allBytes, from, Top(pending).to + 1, end);
  }

  lemma BisectConsistent(limits: Limits, address: nat, history: seq<ContractLog>, pending: seq<Range>,
                         logs: seq<ContractLog>, bytes: nat, from: nat, end: nat)
    requires Consistent(limits, address, history, pending, logs, bytes, from, end)
    requires pending != [] && Top(pending).from < Top(pending).to
    ensures Consistent(limits, address, history, Bisect(pending), logs, bytes, from, end)
    ensures Work(Bisect(pending)) < Work(pending)
  {
    var next: nat :| ConsistentAt(limits, address, history, pending, logs, bytes, from, next, end);
    BisectKeeps(pending, next, end);
    assert ConsistentAt(limits, address, history, Bisect(pending), logs, bytes, from, next, end);
  }

  /** Empties the stack of pending ranges. */
  method FetchPending(limits: Limits, provider: Provider, first: nat, start: seq<Range>, address: nat,
                      ghost from: nat, ghost to: nat, ghost history: seq<ContractLog>)
    returns (r: Result<(seq<ContractLog>, nat), RpcError>, calls: nat)
    requires Honest(provider, history) && from <= to && Partition(start, from, to + 1)
    ensures r.Ok? ==> Consistent(limits, address, history, [], r.value.0, r.value.1, from, to + 1)
    ensures CanSucceed(limits, provider, history, address, from, to) ==> r.Ok?
  {
    var pending, logs: seq<ContractLog>, bytes: nat := start, [], 0;
    calls := first;
    StartConsistent(limits, address, history, start, from, to + 1);
    while pending != []
      invariant Consistent(limits, address, history, pending, logs, bytes, from, to + 1)
      decreases Work(pending)
    {
      TopIsNext(limits, address, history, pending, logs, bytes, from, to + 1);
      var reply := FetchRange(limits, provider, calls, Top(pending), address, logs, bytes, from, to, history);
      calls := calls + 1;
      if reply.Err? {
        return Err(reply.error), calls;
      }
      if reply.value.Some? {
        var added := reply.value.value;
        PopConsistent(limits, address, history, pending, logs, bytes, from, to + 1, added.0, added.1);
        pending, logs, bytes := Pop(pending), added.0, added.1;
      } else {
        BisectConsistent(limits, address, history, pending, logs, bytes, from, to + 1);
        pending := Bisect(pending);
      }
    }
    return Ok((logs, bytes)), calls;
  }

  /**
   * Whatever ranges the provider rejects: a result is the logs of the whole
   * range, each once and sorted, within the budgets; and it is reached whenever
   * the provider rejects only what can still be split and the logs fit.
   */
  method GetLogs(limits: Limits, provider: Provider, first: nat, from: nat, to: nat, address: nat,
                 ghost history: seq<ContractLog>)
    returns (r: Result<seq<ContractLog>, RpcError>, calls: nat)
    requires limits.maxPageBlocks > 0 && Honest(provider, history)
    ensures from > to ==> r == Err(Invalid)
    ensures r.Ok? ==> from <= to && Sorted(r.value) && LogsOf(r.value, history, from, to + 1)
    ensures r.Ok? ==> AllFrom(r.value, address) && Fits(limits, InBlocks(history, from, to + 1))
    ensures from <= to && CanSucceed(limits, provider, history, address, from, to) ==> r.Ok?
  {
    if from > to {
      return Err(Invalid), first;
    }
    var ranges := InitialLogRanges(from, to, limits.maxPageBlocks);
    ReversedPartition(ranges, from, to + 1);
    var fetched;
    fetched, calls := FetchPending(limits, provider, first, Reversed(ranges), address, from, to, history);
    if fetched.Err? {
      return Err(fetched.error), calls;
    }
    var logs := fetched.value.0;
    assert Fetched(limits, address, history, logs, fetched.value.1, from, to + 1);
    LogsOfSize(history, from, to + 1, logs);
    SortSorts(logs);
    LogsOfBag(history, from, to + 1, logs);
    LogsOfBag(history, from, to + 1, SortByCursor(logs));
    SameElements(logs, SortByCursor(logs), address);
    return Ok(SortByCursor(logs)), calls;
  }

  lemma SameElements(a: seq<ContractLog>, b: seq<ContractLog>, address: nat)
    requires multiset(a) == multiset(b) && AllFrom(a, address)
    ensures AllFrom(b, address)
  {
    forall x | x in b
      ensures x.address == address
    {
      assert x in multiset(b);
    }
  }

  // ---- Page by page ----

  /** A sorted page after the sorted logs of earlier blocks. */
  lemma PageExtends(history: seq<ContractLog>, from: nat, next: nat, end: nat, done: seq<ContractLog>,
                    page: seq<ContractLog>)
    requires from <= next <= end && Sorted(done) && Sorted(page)
    requires LogsOf(done, history, from, next) && LogsOf(page, history, next, end)
    ensures Sorted(done + page) && LogsOf(done + page, history, from, end)
    ensures Replay([], done + page) == Replay(Replay([], done), SortByCursor(page))
  {
    LogsOfConcat(history, from, next, end, done, page);
    LogsOfBag(history, from, next, done);
    LogsOfBag(history, next, end, page);
    InBlocksAre(history, from, next);
    InBlocksAre(history, next, end);
    forall x | x in done
      ensures x.cursor.blockNumber < next
    {
      assert x in multiset(done);
    }
    forall x | x in page
      ensures next <= x.cursor.blockNumber
    {
      assert x in multiset(page);
    }
    SortedConcat(done, page, next);
    ReplayConcat([], done, page);
    SortedStays(page);
  }

  /** What is known after the pages below `next`: one sorted order, replayed. */
  ghost predicate ReplayedTo(active: seq<nat>, history: seq<ContractLog>, from: nat, next: nat) {
    exists done :: ReplayOf(active, done, history, from, next)
  }

  ghost predicate ReplayOf(active: seq<nat>, done: seq<ContractLog>, history: seq<ContractLog>, from: nat, next: nat) {
    Sorted(done) && LogsOf(done, history, from, next) && active == Replay([], done) && LanesOf(active, done)
  }

  method ReplayNext(limits: Limits, provider: Provider, first: nat, from: nat, pageStart: nat, pageEnd: nat, core: nat,
                    active: seq<nat>, ghost history: seq<ContractLog>)
    returns (r: Result<seq<nat>, RpcError>, calls: nat)
    requires limits.maxPageBlocks > 0 && Honest(provider, history)
    requires from <= pageStart <= pageEnd && ReplayedTo(active, history, from, pageStart)
    ensures r.Ok? ==> ReplayedTo(r.value, history, from, pageEnd + 1)
  {
    var page;
    page, calls := GetLogs(limits, provider, first, pageStart, pageEnd, core, history);
    if page.Err? {
      return Err(page.error), calls;
    }
    ghost var done :| ReplayOf(active, done, history, from, pageStart);
    PageExtends(history, from, pageStart, pageEnd + 1, done, page.value);
    var next := ReplayPage(active, page.value);
    ReplayLeaves(done + page.value);
    assert ReplayOf(next, done + page.value, history, from, pageEnd + 1);
    return Ok(next), calls;
  }

  lemma ReplayIsWhole(active: seq<nat>, history: seq<ContractLog>, from: nat, end: nat)
    requires ReplayedTo(active, history, from, end) && Positioned(InBlocks(history, from, end))
    ensures active == Replay([], SortByCursor(InBlocks(history, from, end)))
    ensures LanesOf(active, SortByCursor(InBlocks(history, from, end)))
  {
    var done :| ReplayOf(active, done, history, from, end);
    LogsOfBag(history, from, end, done);
    OneOrder(InBlocks(history, from, end), done);
  }

  lemma NothingReplayed(history: seq<ContractLog>, from: nat, end: nat)
    requires end <= from
    ensures ReplayedTo([], history, from, end)
  {
    NoBlocks(history, from, end);
    ReplayLeaves([]);
    assert ReplayOf([], [], history, from, end);
  }

  /**
   * Page-by-page discovery gives the lanes of one replay of the full history in
   * cursor order, for every page size, unless the deployment lists its lanes
   * itself: exactly the assets added and not removed since, each once, in the
   * order in which they became active. With distinct positions there is only one
   * such order.
   */
  method ResolveLaneAssets(limits: Limits, provider: Provider, deploymentBlock: nat, snapshotBlock: nat, core: nat,
                           explicit: seq<nat>, ghost history: seq<ContractLog>)
    returns (r: Result<seq<nat>, RpcError>)
    requires limits.maxPageBlocks > 0 && Honest(provider, history)
    ensures explicit != [] ==> r == Ok(explicit)
    ensures explicit == [] && r.Ok? ==> ReplayedTo(r.value, history, deploymentBlock, snapshotBlock + 1)
    ensures explicit == [] && r.Ok? && Positioned(InBlocks(history, deploymentBlock, snapshotBlock + 1)) ==>
      && r.value == Replay([], SortByCursor(InBlocks(history, deploymentBlock, snapshotBlock + 1)))
      && LanesOf(r.value, SortByCursor(InBlocks(history, deploymentBlock, snapshotBlock + 1)))
  {
    if explicit != [] {
      return Ok(explicit);
    }
    var active: seq<nat>, pageStart, calls := [], deploymentBlock, 0;
    NothingReplayed(history, deploymentBlock, deploymentBlock);
    while pageStart <= snapshotBlock
      invariant deploymentBlock <= pageStart && (deploymentBlock <= snapshotBlock ==> pageStart <= snapshotBlock + 1)
      invariant deploymentBlock > snapshotBlock ==> active == []
      invariant ReplayedTo(active, history, deploymentBlock, pageStart)
      decreases snapshotBlock + 1 - pageStart
    {
      var candidateEnd := pageStart + limits.maxPageBlocks - 1;
      var pageEnd := if candidateEnd < snapshotBlock then candidateEnd else snapshotBlock;
      var next;
      next, calls := ReplayNext(limits, provider, calls, deploymentBlock, pageStart, pageEnd, core, active, history);
      if next.Err? {
        return Err(next.error);
      }
      active := next.value;
      pageStart := pageEnd + 1;
    }
    if deploymentBlock > snapshotBlock {
      NothingReplayed(history, deploymentBlock, snapshotBlock + 1);
    }
    assert ReplayedTo(active, history, deploymentBlock, snapshotBlock + 1);
    if Positioned(InBlocks(history, deploymentBlock, snapshotBlock + 1)) {
      ReplayIsWhole(active, history, deploymentBlock, snapshotBlock + 1);
    }
    return Ok(active);
  }

  lemma OneOrder(whole: seq<ContractLog>, done: seq<ContractLog>)
    requires Positioned(whole) && Sorted(done) && multiset(done) == multiset(whole)
    ensures done == SortByCursor(whole)
  {
    SortSorts(whole);
    forall x | x in done
      ensures x in whole
    {
      assert x in multiset(done);
    }
    SortedIsUnique(done, SortByCursor(whole));
  }

  /** Sorts the page once more and applies its events one by one. */
  method ReplayPage(active: seq<nat>, page: seq<ContractLog>) returns (next: seq<nat>)
    ensures next == Replay(active, SortByCursor(page))
    ensures forall past: seq<ContractLog> :: LanesOf(active, past) ==> LanesOf(next, past + SortByCursor(page))
  {
    var history := SortByCursor(page);
    next := active;
    for i := 0 to |history|
      invariant Replay(active, history) == Replay(next, history[i..])
    {
      next := ApplyEvent(next, history[i].event);
      assert history[i..][1..] == history[i + 1..];
    }
    forall past: seq<ContractLog> | LanesOf(active, past)
      ensures LanesOf(next, past + history)
    {
      ReplayMeans(active, past, history);
    }
  }
}
