/** The sliding-window rate limiter (rate_limit.py): pruned queues per key, in a bounded table. */
module RateLimit {
  type Key = string
  type Time = real

  /** The keys from the least to the most recently used, and the accepted requests of each. */
  datatype Table = Table(order: seq<Key>, hits: map<Key, seq<Time>>)

  datatype Config = Config(limit: nat, window: Time, maxKeys: nat)

  function Without(order: seq<Key>, key: Key): seq<Key> {
    if order == [] then []
    else if order[0] == key then Without(order[1..], key)
    else [order[0]] + Without(order[1..], key)
  }

  /** Drops what lies at or before `bound` from the left. */
  function Prune(hits: seq<Time>, bound: Time): seq<Time> {
    if hits == [] || hits[0] > bound then hits else Prune(hits[1..], bound)
  }

  /** The key is looked up or put in, and the oldest key dropped from a table that has grown too large. */
  function Touch(c: Config, t: Table, key: Key): Table {
    if key in t.hits then Table(Without(t.order, key) + [key], t.hits)
    else if |t.order| + 1 > c.maxKeys then
      var longer := t.order + [key];
      Table(longer[1..], t.hits[key := []] - {longer[0]})
    else Table(t.order + [key], t.hits[key := []])
  }

  /** The accepted requests of a key in the window. */
  function Fresh(c: Config, t: Table, key: Key, now: Time): seq<Time> {
    if key in t.hits then Prune(t.hits[key], now - c.window) else []
  }

  function Ask(c: Config, t: Table, key: Key, now: Time): (Table, bool) {
    var touched, recent := Touch(c, t, key), Fresh(c, t, key, now);
    var ok := |recent| < c.limit;
    var kept := if ok then recent + [now] else recent;
    (if key in touched.hits then touched.(hits := touched.hits[key := kept]) else touched, ok)
  }

  class RateLimiter {
    const config: Config
    var order: seq<Key>
    var hits: map<Key, seq<Time>>

    ghost function Snapshot(): Table
      reads this
    {
      Table(order, hits)
    }

    constructor (limit: nat, window: Time, maxKeys: nat)
      ensures config == Config(limit, window, maxKeys) && Snapshot() == Table([], map[])
    {
      config, order, hits := Config(limit, window, maxKeys), [], map[];
    }

    method Allow(key: Key, now: Time) returns (ok: bool)
      modifies this
      ensures (Snapshot(), ok) == Ask(config, old(Snapshot()), key, now)
    {
      var queue: seq<Time> := [];
      if key !in hits {
        order, hits := order + [key], hits[key := []];
        if |order| > config.maxKeys {
          hits := hits - {order[0]};
          order := order[1..];
        }
      } else {
        queue := hits[key];
        order := Without(order, key) + [key];
      }
      ghost var start, bound := queue, now - config.window;
      while |queue| > 0 && queue[0] <= now - config.window
        invariant Prune(queue, bound) == Prune(start, bound)
        decreases |queue|
      {
        queue := queue[1..];
      }
      ok := |queue| < config.limit;
      if ok { queue := queue + [now]; }
      if key in hits { hits := hits[key := queue]; }
    }

    method Reset()
      modifies this
      ensures Snapshot() == Table([], map[])
    {
      order, hits := [], map[];
    }
  }

  // ---------------------------------------------------------------- the full log

  datatype Entry = Accepted(key: Key, at: Time) | Dropped(key: Key)

  /** The key that a request drops from the table. */
  function Drops(c: Config, t: Table, key: Key): seq<Entry> {
    if key in t.hits || |t.order| + 1 <= c.maxKeys then []
    else [Dropped((t.order + [key])[0])]
  }

  /** What a request writes to the log; a key dropped at once has no entry of its own. */
  function Writes(c: Config, t: Table, key: Key, now: Time): seq<Entry> {
    var drops, ok := Drops(c, t, key), Ask(c, t, key, now).1;
    if ok && key in Touch(c, t, key).hits then drops + [Accepted(key, now)] else drops
  }

  /** All requests of `key` accepted since it was last dropped. */
  function Full(log: seq<Entry>, key: Key): seq<Time> {
    if log == [] then []
    else
      var before, last := Full(log[..|log| - 1], key), log[|log| - 1];
      if last.key != key then before else if last.Dropped? then [] else before + [last.at]
  }

  /** How many times lie after `bound`. */
  function Count(times: seq<Time>, bound: Time): nat {
    if times == [] then 0 else Count(times[1..], bound) + if times[0] > bound then 1 else 0
  }

  /** The table and the log after the requests. */
  function After(c: Config, requests: seq<(Key, Time)>): (Table, seq<Entry>) {
    if requests == [] then (Table([], map[]), [])
    else
      var (t, log) := After(c, requests[..|requests| - 1]);
      var (key, now) := requests[|requests| - 1];
      (Ask(c, t, key, now).0, log + Writes(c, t, key, now))
  }

  predicate Rising(requests: seq<(Key, Time)>) {
    forall i, j :: 0 <= i < j < |requests| ==> requests[i].1 <= requests[j].1
  }

  predicate Sorted(times: seq<Time>, last: Time) {
    && (forall i :: 0 <= i < |times| ==> times[i] <= last)
    && forall i, j :: 0 <= i < j < |times| ==> times[i] <= times[j]
  }

  /** A queue is the full list without a prefix that has left the window. */
  predicate Fits(full: seq<Time>, queue: seq<Time>, last: Time, window: Time) {
    && Sorted(full, last) && |queue| <= |full| && queue == full[|full| - |queue|..]
    && forall i :: 0 <= i < |full| - |queue| ==> full[i] <= last - window
  }

  predicate QueueOk(c: Config, t: Table, log: seq<Entry>, last: Time, key: Key) {
    if key in t.hits then Fits(Full(log, key), t.hits[key], last, c.window) else Full(log, key) == []
  }

  ghost predicate TableOk(c: Config, t: Table) {
    |t.order| <= c.maxKeys && Lists(t.order, t.hits)
  }

  ghost predicate Inv(c: Config, t: Table, log: seq<Entry>, last: Time) {
    TableOk(c, t) && forall key :: QueueOk(c, t, log, last, key)
  }

  lemma {:induction false} CountAll(times: seq<Time>, bound: Time)
    requires forall i :: 0 <= i < |times| ==> times[i] > bound
    ensures Count(times, bound) == |times|
  {
    if times != [] { CountAll(times[1..], bound); }
  }

  /** Pruning a sorted queue leaves what lies in the window. */
  lemma {:induction false} PruneCounts(times: seq<Time>, bound: Time, last: Time)
    requires Sorted(times, last)
    ensures var r := Prune(times, bound);
      && |r| == Count(times, bound) && |r| <= |times| && r == times[|times| - |r|..]
      && forall i :: 0 <= i < |times| - |r| ==> times[i] <= bound
  {
    if times != [] {
      if times[0] > bound {
        CountAll(times, bound);
        assert times == times[0..];
      } else {
        PruneCounts(times[1..], bound, last);
        var r := Prune(times, bound);
        assert times[1..][|times| - 1 - |r|..] == times[|times| - |r|..];
        forall i | 0 <= i < |times| - |r|
          ensures times[i] <= bound
        {
          if i > 0 { assert times[i] == times[1..][i - 1]; }
        }
      }
    }
  }

  /** What left the window earlier does not count. */
  lemma {:induction false} CountSuffix(full: seq<Time>, k: nat, bound: Time)
    requires k <= |full| && forall i :: 0 <= i < k ==> full[i] <= bound
    ensures Count(full, bound) == Count(full[k..], bound)
  {
    if k > 0 {
      CountSuffix(full[1..], k - 1, bound);
      assert full[1..][k - 1..] == full[k..];
    } else {
      assert full[0..] == full;
    }
  }

  /** The pruned queue holds what the full list has in the window. */
  lemma FitsPruned(full: seq<Time>, queue: seq<Time>, last: Time, now: Time, window: Time)
    requires Fits(full, queue, last, window) && last <= now
    ensures var recent := Prune(queue, now - window);
      Fits(full, recent, now, window) && |recent| == Count(full, now - window)
  {
    hide Prune, Count;
    var k, bound := |full| - |queue|, now - window;
    SortedSuffix(full, k, last);
    PruneCounts(queue, bound, last);
    CountSuffix(full, k, bound);
    var recent := Prune(queue, bound);
    assert queue[|queue| - |recent|..] == full[|full| - |recent|..];
    forall i | 0 <= i < |full| - |recent|
      ensures full[i] <= bound
    {
      if i >= k { assert full[i] == queue[i - k]; }
    }
  }

  lemma SortedSuffix(full: seq<Time>, k: nat, last: Time)
    requires Sorted(full, last) && k <= |full|
    ensures Sorted(full[k..], last)
  {
  }

  lemma FitsAppend(full: seq<Time>, queue: seq<Time>, now: Time, window: Time)
    requires Fits(full, queue, now, window)
    ensures Fits(full + [now], queue + [now], now, window)
  {
    var longer := full + [now];
    assert longer[|longer| - |queue| - 1..] == full[|full| - |queue|..] + [now];
  }

  /** The queue of a key, in the table or not. */
  function Queue(t: Table, key: Key): seq<Time> {
    if key in t.hits then t.hits[key] else []
  }

  lemma QueueFits(c: Config, t: Table, log: seq<Entry>, last: Time, key: Key)
    requires QueueOk(c, t, log, last, key)
    ensures Fits(Full(log, key), Queue(t, key), last, c.window)
  {
    var none: seq<Time> := [];
    assert none[0..] == none;
  }

  lemma FullDrop(log: seq<Entry>, dropped: Key, key: Key)
    ensures Full(log + [Dropped(dropped)], key) == if key == dropped then [] else Full(log, key)
  {
    assert (log + [Dropped(dropped)])[..|log|] == log;
  }

  lemma FullAccept(log: seq<Entry>, accepted: Key, at: Time, key: Key)
    ensures Full(log + [Accepted(accepted, at)], key) == Full(log, key) + if key == accepted then [at] else []
  {
    assert (log + [Accepted(accepted, at)])[..|log|] == log;
  }

  lemma {:induction false} WithoutIs(order: seq<Key>, key: Key)
    requires forall i, j :: 0 <= i < j < |order| ==> order[i] != order[j]
    ensures var r := Without(order, key);
      && (forall k :: k in r <==> k in order && k != key)
      && (forall i, j :: 0 <= i < j < |r| ==> r[i] != r[j])
      && |r| == |order| - if key in order then 1 else 0
  {
    if order != [] {
      WithoutIs(order[1..], key);
      assert order == [order[0]] + order[1..];
      assert order[0] !in order[1..];
    }
  }

  /** Distinct keys that are those of the table. */
  ghost predicate Lists(order: seq<Key>, hits: map<Key, seq<Time>>) {
    && (forall key :: key in hits <==> key in order)
    && forall i, j :: 0 <= i < j < |order| ==> order[i] != order[j]
  }

  lemma ListsMoved(order: seq<Key>, hits: map<Key, seq<Time>>, key: Key)
    requires Lists(order, hits) && key in hits
    ensures Lists(Without(order, key) + [key], hits) && |Without(order, key) + [key]| == |order|
  {
    WithoutIs(order, key);
    hide Without;
  }

  lemma ListsMore(order: seq<Key>, hits: map<Key, seq<Time>>, key: Key)
    requires Lists(order, hits) && key !in hits
    ensures Lists(order + [key], hits[key := []])
  {
  }

  lemma ListsLess(order: seq<Key>, hits: map<Key, seq<Time>>)
    requires Lists(order, hits) && order != []
    ensures Lists(order[1..], hits - {order[0]})
  {
    assert order == [order[0]] + order[1..];
    assert order[0] !in order[1..];
  }

  /** The table stays within its bound, with one queue for each key in the order. */
  lemma TouchOk(c: Config, t: Table, key: Key)
    requires TableOk(c, t)
    ensures TableOk(c, Touch(c, t, key))
    ensures forall k :: k in Touch(c, t, key).hits <==> (k in t.hits || k == key) && Dropped(k) !in Drops(c, t, key)
    ensures forall k :: k in Touch(c, t, key).hits && k in t.hits ==> Touch(c, t, key).hits[k] == t.hits[k]
  {
    hide Without, Lists;
    if key in t.hits {
      ListsMoved(t.order, t.hits, key);
    } else {
      ListsMore(t.order, t.hits, key);
      ListsLess(t.order + [key], t.hits[key := []]);
    }
  }

  /** The log after a request, as seen by one key. */
  lemma WritesFull(c: Config, t: Table, log: seq<Entry>, key: Key, now: Time, k: Key)
    ensures var full := Full(log + Writes(c, t, key, now), k);
      var before := if Dropped(k) in Drops(c, t, key) then [] else Full(log, k);
      full == before + if k == key && Ask(c, t, key, now).1 && key in Touch(c, t, key).hits then [now] else []
  {
    hide Touch, Ask, Full;
    var drops := Drops(c, t, key);
    if drops == [] { assert log + drops == log; } else { FullDrop(log, drops[0].key, k); }
    FullAccept(log + drops, key, now, k);
    assert log + drops + [Accepted(key, now)] == log + (drops + [Accepted(key, now)]);
  }

  /** The queue of one key after a request. */
  lemma AskQueue(c: Config, t: Table, key: Key, now: Time, k: Key)
    requires TableOk(c, t)
    ensures var (r, ok) := Ask(c, t, key, now); var recent := Prune(Queue(t, key), now - c.window);
      && ok == (|recent| < c.limit)
      && (k in r.hits <==> k in Touch(c, t, key).hits)
      && (k in r.hits ==> r.hits[k] == if k == key then (if ok then recent + [now] else recent) else Queue(t, k))
  {
    TouchOk(c, t, key);
    hide Touch, Drops, Prune, TableOk;
    assert key !in t.hits ==> Prune(Queue(t, key), now - c.window) == [] by { PruneNothing(now - c.window); }
  }

  lemma PruneNothing(bound: Time)
    ensures Prune([], bound) == []
  {
  }

  lemma AskKeepsQueue(c: Config, t: Table, log: seq<Entry>, last: Time, key: Key, now: Time, k: Key)
    requires Inv(c, t, log, last) && last <= now && c.window >= 0.0
    ensures QueueOk(c, Ask(c, t, key, now).0, log + Writes(c, t, key, now), now, k)
  {
    hide Inv, TableOk, Fits, Ask, Touch, Drops, Writes, Full, Prune, Count;
    InvOf(c, t, log, last, k);
    QueueFits(c, t, log, last, k);
    TouchOk(c, t, key);
    WritesFull(c, t, log, key, now, k);
    AskQueue(c, t, key, now, k);
    var full, recent := Full(log, k), Prune(Queue(t, k), now - c.window);
    FitsPruned(full, Queue(t, k), last, now, c.window);
    FitsAppend(full, recent, now, c.window);
    FitsLater(full, Queue(t, k), last, now, c.window);
    DropsAbsent(c, t, k, key);
    assert full + [] == full;
  }

  lemma InvOf(c: Config, t: Table, log: seq<Entry>, last: Time, key: Key)
    requires Inv(c, t, log, last)
    ensures QueueOk(c, t, log, last, key) && TableOk(c, t) && |t.order| <= c.maxKeys && |t.hits| <= c.maxKeys
  {
    hide QueueOk;
    KeysBounded(t.order, t.hits);
  }

  lemma FitsLater(full: seq<Time>, queue: seq<Time>, last: Time, now: Time, window: Time)
    requires Fits(full, queue, last, window) && last <= now
    ensures Fits(full, queue, now, window)
  {
  }

  /** A key that is dropped is another one, or was not in the table before. */
  lemma DropsAbsent(c: Config, t: Table, k: Key, key: Key)
    requires TableOk(c, t)
    ensures Dropped(k) in Drops(c, t, key) && k == key ==> key !in t.hits
  {
  }

  /** Every request keeps the bound of the table and each key's queue in step with the log. */
  lemma AskKeeps(c: Config, t: Table, log: seq<Entry>, last: Time, key: Key, now: Time)
    requires Inv(c, t, log, last) && last <= now && c.window >= 0.0
    ensures Inv(c, Ask(c, t, key, now).0, log + Writes(c, t, key, now), now)
  {
    TouchOk(c, t, key);
    forall k
      ensures QueueOk(c, Ask(c, t, key, now).0, log + Writes(c, t, key, now), now, k)
    {
      AskKeepsQueue(c, t, log, last, key, now, k);
    }
    hide Touch, Writes, QueueOk;
  }

  /** The time of the last request, or any time before the first. */
  function Last(requests: seq<(Key, Time)>, before: Time): Time {
    if requests == [] then before else requests[|requests| - 1].1
  }

  predicate Since(requests: seq<(Key, Time)>, before: Time) {
    forall r :: r in requests ==> before <= r.1
  }

  lemma {:induction false} AfterKeeps(c: Config, requests: seq<(Key, Time)>, before: Time)
    requires c.window >= 0.0 && Rising(requests) && Since(requests, before)
    ensures var (t, log) := After(c, requests); Inv(c, t, log, Last(requests, before))
  {
    hide Ask, Writes, QueueOk;
    if requests == [] {
      forall key ensures QueueOk(c, Table([], map[]), [], before, key) { EmptyOk(c, before, key); }
    } else {
      var front := requests[..|requests| - 1];
      var (key, now) := requests[|requests| - 1];
      AfterKeeps(c, front, before);
      var (t, log) := After(c, front);
      assert Last(front, before) <= now;
      AskKeeps(c, t, log, Last(front, before), key, now);
    }
  }

  lemma EmptyOk(c: Config, before: Time, key: Key)
    ensures QueueOk(c, Table([], map[]), [], before, key)
  {
  }

  /**
   Whatever was asked before, in non-decreasing time: a request of a key is allowed exactly if fewer
   than `limit` requests of it accepted since it was last dropped lie in the last window; and the
   table never holds more than its bound of keys.
   */
  lemma AllowsByTheFullLog(c: Config, requests: seq<(Key, Time)>, key: Key, now: Time)
    requires c.window >= 0.0 && Rising(requests + [(key, now)])
    ensures var (t, log) := After(c, requests);
      && (Ask(c, t, key, now).1 <==> Count(Full(log, key), now - c.window) < c.limit)
      && |t.order| <= c.maxKeys && |t.hits| <= c.maxKeys
  {
    var before := if requests == [] then now else requests[0].1;
    RisingFront(requests, key, now);
    var last := Last(requests, before);
    AfterKeeps(c, requests, before);
    AllowIs(c, After(c, requests).0, After(c, requests).1, last, key, now);
    hide *;
  }

  lemma AllowIs(c: Config, t: Table, log: seq<Entry>, last: Time, key: Key, now: Time)
    requires Inv(c, t, log, last) && last <= now
    ensures Ask(c, t, key, now).1 <==> Count(Full(log, key), now - c.window) < c.limit
    ensures |t.order| <= c.maxKeys && |t.hits| <= c.maxKeys
  {
    hide Inv, TableOk, Fits, Ask, Touch, Full, Prune, Count, QueueOk;
    InvOf(c, t, log, last, key);
    QueueFits(c, t, log, last, key);
    FitsPruned(Full(log, key), Queue(t, key), last, now, c.window);
    AskQueue(c, t, key, now, key);
  }

  lemma RisingFront(requests: seq<(Key, Time)>, key: Key, now: Time)
    requires Rising(requests + [(key, now)])
    ensures var before := if requests == [] then now else requests[0].1;
      Rising(requests) && Since(requests, before) && Last(requests, before) <= now
  {
    assert forall i :: 0 <= i < |requests| ==> (requests + [(key, now)])[i] == requests[i];
    assert (requests + [(key, now)])[|requests|] == (key, now);
  }

  lemma KeysBounded(order: seq<Key>, hits: map<Key, seq<Time>>)
    requires forall key :: key in hits <==> key in order
    ensures |hits| <= |order|
  {
    var keys := set key | key in order;
    assert keys == hits.Keys;
    SetOfSeq(order);
  }

  lemma {:induction false} SetOfSeq(order: seq<Key>)
    ensures |set key | key in order| <= |order|
  {
    if order == [] {
      assert (set key | key in order) == {};
    } else {
      SetOfSeq(order[1..]);
      assert order == [order[0]] + order[1..];
      assert (set key | key in order) == {order[0]} + set key | key in order[1..];
    }
  }
}
