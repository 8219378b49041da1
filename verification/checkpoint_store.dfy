/** Storing checkpoints under one key, and reading the latest one back. */
module CheckpointStore {
  import opened Chain
  import opened Lexicographic
  import opened Checkpoint

  datatype Saved = Saved(cursor: ChainCursor, json: Bytes)

  datatype Outcome = Stored | Unchanged | Stale

  datatype CheckpointError = Invalid

  /** Index of the first newline. */
  function FirstNewline(s: Bytes): Option<nat> {
    if s == [] then None
    else if s[0] == NEWLINE then Some(0)
    else
      var rest := FirstNewline(s[1..]);
      if rest.Some? then Some(rest.value + 1) else None
  }

  lemma {:induction false} FirstNewlineIs(s: Bytes)
    ensures FirstNewline(s).Some? ==>
      FirstNewline(s).value < |s| && s[FirstNewline(s).value] == NEWLINE && NEWLINE !in s[..FirstNewline(s).value]
    ensures FirstNewline(s).None? <==> NEWLINE !in s
  {
    if s != [] {
      FirstNewlineIs(s[1..]);
      assert s == [s[0]] + s[1..];
    }
  }

  lemma {:induction false} NewlineAfter(order: Bytes, json: Bytes)
    requires NEWLINE !in order
    ensures FirstNewline(order + [NEWLINE] + json) == Some(|order|)
  {
    if order != [] {
      NewlineAfter(order[1..], json);
      assert (order + [NEWLINE] + json)[1..] == order[1..] + [NEWLINE] + json;
    }
  }

  function Payload(c: Saved): Bytes
    requires Native(c.cursor)
  {
    Order(c.cursor) + [NEWLINE] + c.json
  }

  /** Drops the key prefix; a value that is JSON already is returned whole. */
  function CheckpointJson(payload: Bytes): Result<Bytes, CheckpointError> {
    if payload != [] && payload[0] == BRACE then Ok(payload)
    else if FirstNewline(payload).None? then Err(Invalid)
    else
      FirstNewlineIs(payload);
      var json := payload[FirstNewline(payload).value + 1..];
      if json == [] then Err(Invalid) else Ok(json)
  }

  lemma OrderHasNoNewline(c: ChainCursor)
    requires Native(c)
    ensures NEWLINE !in Order(c)
  {
    OrderBytes(c);
  }

  /** Stripping the prefix gives back exactly the JSON, unless that is empty. */
  lemma JsonRoundTrip(c: Saved)
    requires Native(c.cursor)
    ensures CheckpointJson(Payload(c)) == if c.json == [] then Err(Invalid) else Ok(c.json)
  {
    OrderBytes(c.cursor);
    PayloadOrder(c);
    assert Payload(c)[|Order(c.cursor)| + 1..] == c.json;
  }

  // ---- Compare and set ----

  /** The script: the new value of the key and what it reports. */
  function CompareAndSet(value: Option<Bytes>, payload: Bytes, order: Bytes): (Option<Bytes>, Outcome) {
    if value.None? then (Some(payload), Stored)
    else
      var current := value.value;
      var separator := FirstNewline(current);
      if separator.None? then (Some(payload), Stored)
      else
        FirstNewlineIs(current);
        var currentOrder := current[..separator.value];
        if Compare(order, currentOrder) > 0 then (Some(payload), Stored)
        else if order == currentOrder && current == payload then (value, Unchanged)
        else (value, Stale)
  }

  function StoreInto(value: Option<Bytes>, c: Saved): (Option<Bytes>, Outcome)
    requires Native(c.cursor)
  {
    CompareAndSet(value, Payload(c), Order(c.cursor))
  }

  // ---- Sequences of stores ----

  predicate AllNative(cs: seq<Saved>) {
    forall i :: 0 <= i < |cs| ==> Native(cs[i].cursor)
  }

  /** The key after storing `cs` in turn over the given value. */
  function StoreAll(value: Option<Bytes>, cs: seq<Saved>): Option<Bytes>
    requires AllNative(cs)
    decreases |cs|
  {
    if cs == [] then value else StoreInto(StoreAll(value, cs[..|cs| - 1]), cs[|cs| - 1]).0
  }

  /** The key after storing `cs` in turn, starting without a value. */
  function After(cs: seq<Saved>): Option<Bytes>
    requires AllNative(cs)
  {
    StoreAll(None, cs)
  }

  function Rel(a: Saved, b: Saved): int { Compare(Tuple(a.cursor), Tuple(b.cursor)) }

  /** The earliest among those with the greatest cursor tuple. */
  predicate IsLatest(cs: seq<Saved>, i: nat) {
    && i < |cs|
    && (forall j :: 0 <= j < |cs| ==> Rel(cs[j], cs[i]) <= 0)
    && (forall j :: 0 <= j < i ==> Rel(cs[j], cs[i]) < 0)
  }

  lemma LatestIsUnique(cs: seq<Saved>, i: nat, k: nat)
    requires IsLatest(cs, i) && IsLatest(cs, k)
    ensures i == k
  {
    CompareSymmetric(Tuple(cs[i].cursor), Tuple(cs[k].cursor));
  }

  lemma PayloadOrder(c: Saved)
    requires Native(c.cursor)
    ensures FirstNewline(Payload(c)) == Some(|Order(c.cursor)|) && Payload(c)[..|Order(c.cursor)|] == Order(c.cursor)
  {
    OrderHasNoNewline(c.cursor);
    NewlineAfter(Order(c.cursor), c.json);
  }

  /** Storing over an earlier checkpoint compares the cursor tuples. */
  lemma StoreCompares(a: Saved, c: Saved)
    requires Native(a.cursor) && Native(c.cursor)
    ensures var r := StoreInto(Some(Payload(a)), c);
      if Rel(a, c) < 0 then r == (Some(Payload(c)), Stored)
      else if Payload(a) == Payload(c) then r == (Some(Payload(a)), Unchanged)
      else r == (Some(Payload(a)), Stale)
  {
    PayloadOrder(a);
    PayloadOrder(c);
    OrderIsNumeric(c.cursor, a.cursor);
    CompareSymmetric(Tuple(c.cursor), Tuple(a.cursor));
    CompareSymmetric(Order(c.cursor), Order(a.cursor));
  }

  /** A newcomer that beats the latest one beats all; one that does not leaves it the latest. */
  lemma LatestExtends(cs: seq<Saved>, i: nat)
    requires cs != [] && IsLatest(cs[..|cs| - 1], i)
    ensures Rel(cs[i], cs[|cs| - 1]) < 0 ==> IsLatest(cs, |cs| - 1)
    ensures Rel(cs[i], cs[|cs| - 1]) >= 0 ==> IsLatest(cs, i)
  {
    var n := |cs| - 1;
    var c := cs[n];
    CompareSymmetric(Tuple(cs[i].cursor), Tuple(c.cursor));
    CompareSymmetric(Tuple(c.cursor), Tuple(c.cursor));
    forall j | 0 <= j < n
      ensures Rel(cs[i], c) < 0 ==> Rel(cs[j], c) < 0
      ensures Rel(cs[j], cs[i]) <= 0
    {
      assert cs[..n][j] == cs[j];
      if Rel(cs[i], c) < 0 {
        CompareTransitive(Tuple(cs[j].cursor), Tuple(cs[i].cursor), Tuple(c.cursor));
        CompareSymmetric(Tuple(cs[j].cursor), Tuple(c.cursor));
        CompareSymmetric(Tuple(cs[j].cursor), Tuple(cs[i].cursor));
      }
    }
    forall j | 0 <= j < i
      ensures Rel(cs[j], cs[i]) < 0
    {
      assert cs[..n][j] == cs[j];
    }
  }

  lemma OneStore(cs: seq<Saved>)
    requires |cs| == 1 && AllNative(cs)
    ensures IsLatest(cs, 0) && After(cs) == Some(Payload(cs[0]))
  {
    CompareSymmetric(Tuple(cs[0].cursor), Tuple(cs[0].cursor));
    var none := cs[..0];
    assert After(none) == None;
    assert After(cs) == StoreInto(After(none), cs[0]).0;
  }

  lemma {:induction false} LatestKept(cs: seq<Saved>) returns (i: nat)
    requires cs != [] && AllNative(cs)
    ensures IsLatest(cs, i) && After(cs) == Some(Payload(cs[i]))
    decreases |cs|
  {
    var n := |cs| - 1;
    if n == 0 {
      OneStore(cs);
      i := 0;
    } else {
      var k := LatestKept(cs[..n]);
      assert cs[..n][k] == cs[k];
      StoreCompares(cs[k], cs[n]);
      LatestExtends(cs, k);
      i := if Rel(cs[k], cs[n]) < 0 then n else k;
    }
  }

  /**
   * After any stores into an empty key it holds the earliest of the checkpoints
   * with the greatest cursor tuple, and its JSON reads back.
   */
  lemma KeepsTheLatest(cs: seq<Saved>) returns (i: nat)
    requires cs != [] && AllNative(cs)
    ensures IsLatest(cs, i) && After(cs) == Some(Payload(cs[i]))
    ensures cs[i].json != [] ==> CheckpointJson(After(cs).value) == Ok(cs[i].json)
  {
    i := LatestKept(cs);
    JsonRoundTrip(cs[i]);
  }

  /** A store reports success exactly when its cursor is beyond every earlier one. */
  lemma StoredExactlyWhenNewer(cs: seq<Saved>, c: Saved)
    requires AllNative(cs) && Native(c.cursor)
    ensures StoreInto(After(cs), c).1 == Stored <==> BeyondAll(c, cs)
    ensures StoreInto(After(cs), c).1 != Stored ==> StoreInto(After(cs), c).0 == After(cs)
  {
    if cs != [] {
      var i := KeepsTheLatest(cs);
      StoreCompares(cs[i], c);
      var all := cs + [c];
      assert all[..|cs|] == cs;
      LatestExtends(all, i);
      assert Rel(cs[i], c) < 0 ==> IsLatest(all, |cs|);
      assert forall j :: 0 <= j < |cs| ==> all[j] == cs[j];
    }
  }

  // ---- Whatever value the key holds ----

  /** The bytes before the first newline, which the script takes for the order of a stored value. */
  function Prefix(value: Bytes): Bytes
    requires NEWLINE in value
  {
    FirstNewlineIs(value);
    value[..FirstNewline(value).value]
  }

  /**
   * Any stored value is replaced exactly when it has no newline or the bytes
   * before its first newline are below the new order, and is kept otherwise.
   */
  lemma ReplacedExactly(value: Bytes, c: Saved)
    requires Native(c.cursor)
    ensures var r := StoreInto(Some(value), c);
      && (r.1 == Stored <==> NEWLINE !in value || Compare(Prefix(value), Order(c.cursor)) < 0)
      && r.0 == Some(if r.1 == Stored then Payload(c) else value)
      && (r.1 == Unchanged <==> value == Payload(c))
  {
    FirstNewlineIs(value);
    PayloadOrder(c);
    if NEWLINE in value {
      CompareSymmetric(Order(c.cursor), Prefix(value));
    }
  }

  /** A value that starts as JSON is replaced, whatever the cursor, exactly when it has no newline. */
  lemma JsonReplacedExactly(value: Bytes, c: Saved)
    requires Native(c.cursor) && value != [] && value[0] == BRACE
    ensures CheckpointJson(value) == Ok(value)
    ensures NEWLINE !in value ==> StoreInto(Some(value), c) == (Some(Payload(c)), Stored)
    ensures NEWLINE in value ==> StoreInto(Some(value), c) == (Some(value), Stale)
  {
    ReplacedExactly(value, c);
    OrderBytes(c.cursor);
    if NEWLINE in value {
      FirstNewlineIs(value);
      assert Prefix(value)[0] == BRACE > Order(c.cursor)[0];
      assert Payload(c)[0] == Order(c.cursor)[0];
    }
  }

  /** A value without a newline is forgotten at the first store: from then on the key is as if it had started empty. */
  lemma {:induction false} UnorderedIsForgotten(value: Bytes, cs: seq<Saved>)
    requires AllNative(cs) && cs != [] && NEWLINE !in value
    ensures StoreAll(Some(value), cs) == After(cs)
    decreases |cs|
  {
    var n := |cs| - 1;
    if n == 0 {
      ReplacedExactly(value, cs[0]);
      OneStore(cs);
      assert StoreAll(Some(value), cs[..0]) == Some(value);
    } else {
      UnorderedIsForgotten(value, cs[..n]);
    }
  }

  /** By contrast no stores at all replace JSON that contains a newline, and it is always loaded whole. */
  lemma {:induction false} MultilineJsonIsStuck(value: Bytes, cs: seq<Saved>)
    requires AllNative(cs) && value != [] && value[0] == BRACE && NEWLINE in value
    ensures StoreAll(Some(value), cs) == Some(value) && CheckpointJson(value) == Ok(value)
    decreases |cs|
  {
    if cs != [] {
      MultilineJsonIsStuck(value, cs[..|cs| - 1]);
      JsonReplacedExactly(value, cs[|cs| - 1]);
    }
  }

  // ---- What the store holds ----

  /** So whichever checkpoint is the latest is the one stored. */
  lemma LatestIsStored(cs: seq<Saved>, i: nat)
    requires AllNative(cs) && IsLatest(cs, i)
    ensures After(cs) == Some(Payload(cs[i]))
    ensures cs[i].json != [] ==> CheckpointJson(After(cs).value) == Ok(cs[i].json)
  {
    var k := KeepsTheLatest(cs);
    LatestIsUnique(cs, i, k);
  }

  /** The value is that of the latest checkpoint, if there is one. */
  ghost predicate HoldsLatest(value: Option<Bytes>, cs: seq<Saved>)
    requires AllNative(cs)
  {
    forall i: nat :: IsLatest(cs, i) ==> value == Some(Payload(cs[i]))
  }

  predicate BeyondAll(c: Saved, cs: seq<Saved>) {
    forall j :: 0 <= j < |cs| ==> Rel(cs[j], c) < 0
  }

  lemma AfterHoldsLatest(cs: seq<Saved>)
    requires AllNative(cs)
    ensures HoldsLatest(After(cs), cs)
  {
    forall i: nat | IsLatest(cs, i)
      ensures After(cs) == Some(Payload(cs[i]))
    {
      LatestIsStored(cs, i);
    }
  }

  lemma AfterOneMore(cs: seq<Saved>, c: Saved)
    requires AllNative(cs) && Native(c.cursor)
    ensures AllNative(cs + [c]) && After(cs + [c]) == StoreInto(After(cs), c).0
  {
    assert (cs + [c])[..|cs|] == cs;
  }

  // ---- The store ----

  /** What reading a checkpoint back gives: its JSON, or an error if that is empty. */
  function JsonOf(c: Saved): Result<Option<Bytes>, CheckpointError> {
    if c.json == [] then Err(Invalid) else Ok(Some(c.json))
  }

  /** One key of the store, with the checkpoints handed to it so far. */
  class RedisCheckpointStore {
    var value: Option<Bytes>
    ghost var history: seq<Saved>

    ghost predicate Valid()
      reads this
    {
      AllNative(history) && value == After(history)
    }

    constructor ()
      ensures Valid() && value == None && history == []
    {
      value, history := None, [];
    }

    /** Runs the script. */
    method Evaluate(payload: Bytes, order: Bytes) returns (outcome: Outcome)
      modifies this`value
      ensures (value, outcome) == CompareAndSet(old(value), payload, order)
    {
      if value.None? {
        value := Some(payload);
        return Stored;
      }
      var separator := FirstNewline(value.value);
      if separator.None? {
        value := Some(payload);
        return Stored;
      }
      FirstNewlineIs(value.value);
      var current := value.value[..separator.value];
      if Compare(order, current) > 0 {
        value := Some(payload);
        return Stored;
      }
      if order == current && value.value == payload {
        return Unchanged;
      }
      return Stale;
    }

    /**
     * Afterwards the key holds the latest checkpoint of all. The store reports
     * success exactly when the new one is beyond every earlier one, and leaves
     * the key alone otherwise.
     */
    method Store(c: Saved) returns (outcome: Outcome)
      requires Valid() && Native(c.cursor)
      modifies this
      ensures Valid() && history == old(history) + [c] && HoldsLatest(value, history)
      ensures outcome == Stored <==> BeyondAll(c, old(history))
      ensures outcome != Stored ==> value == old(value)
      ensures outcome == Unchanged ==> value == Some(Payload(c))
    {
      StoredExactlyWhenNewer(history, c);
      AfterOneMore(history, c);
      outcome := Evaluate(Payload(c), Order(c.cursor));
      history := history + [c];
      AfterHoldsLatest(history);
    }

    /** Nothing before the first store, and from then on the JSON of the latest checkpoint. */
    method Load() returns (r: Result<Option<Bytes>, CheckpointError>)
      requires Valid()
      ensures history == [] ==> r == Ok(None)
      ensures forall i: nat :: IsLatest(history, i) ==> r == JsonOf(history[i])
    {
      AfterHoldsLatest(history);
      forall i: nat | IsLatest(history, i)
        ensures CheckpointJson(Payload(history[i])).Ok? <==> history[i].json != []
        ensures history[i].json != [] ==> CheckpointJson(Payload(history[i])) == Ok(history[i].json)
      {
        JsonRoundTrip(history[i]);
      }
      if value.None? {
        return Ok(None);
      }
      var json :- CheckpointJson(value.value);
      return Ok(Some(json));
    }
  }
}
