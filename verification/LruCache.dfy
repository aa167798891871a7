/** `LRUQueryCache` and `HybridQueryCache`: bounded size, least recently used eviction, and
    expiry of single entries. */
module LruCache {
  import opened Wrappers

  /** A cached value with its time to live in seconds, if any. */
  datatype Entry<V> = Entry(value: V, ttl: Option<real>, createdAt: real)

  predicate IsExpired<V>(e: Entry<V>, now: real) {
    e.ttl.Some? && now - e.createdAt > e.ttl.value
  }

  /** The `OrderedDict` with its order, oldest first, and the counters. */
  datatype Cache<V> = Cache(maxSize: nat, order: seq<string>, entries: map<string, Entry<V>>, hits: nat, misses: nat)

  predicate Distinct(keys: seq<string>) {
    forall i, j | 0 <= i < j < |keys| :: keys[i] != keys[j]
  }

  /** The dictionary's order lists its keys once each, and the bound is kept. */
  ghost predicate Valid<V>(c: Cache<V>) {
    && c.maxSize >= 1 && |c.order| <= c.maxSize && Distinct(c.order)
    && forall k :: k in c.order <==> k in c.entries
  }

  function New<V>(maxSize: nat): Cache<V> {
    Cache(maxSize, [], map[], 0, 0)
  }

  function Without(keys: seq<string>, k: string): seq<string> {
    if keys == [] then []
    else if keys[0] == k then keys[1..]
    else [keys[0]] + Without(keys[1..], k)
  }

  /** `move_to_end`. */
  function ToEnd(keys: seq<string>, k: string): seq<string> {
    Without(keys, k) + [k]
  }

  function Dropped<V>(c: Cache<V>, k: string): Cache<V> {
    c.(order := Without(c.order, k), entries := c.entries - {k})
  }

  /** `get`. */
  function Got<V>(c: Cache<V>, k: string, now: real): (Cache<V>, Option<V>) {
    if k !in c.entries then (c.(misses := c.misses + 1), None)
    else if IsExpired(c.entries[k], now) then (Dropped(c, k).(misses := c.misses + 1), None)
    else (c.(order := ToEnd(c.order, k), hits := c.hits + 1), Some(c.entries[k].value))
  }

  /** `put`. */
  function Put<V>(c: Cache<V>, k: string, e: Entry<V>): Cache<V>
    requires c.maxSize >= 1
  {
    if k in c.entries then c.(order := ToEnd(c.order, k), entries := c.entries[k := e])
    else
      var room := if |c.order| >= c.maxSize then Dropped(c, c.order[0]) else c;
      room.(order := room.order + [k], entries := room.entries[k := e])
  }

  datatype Op<V> =
    | PutOp(k: string, e: Entry<V>)
    | GetOp(k: string, now: real)
    | InvalidateOp(k: string)
    | ClearOp

  function Step<V>(c: Cache<V>, op: Op<V>): (r: Cache<V>)
    requires c.maxSize >= 1
    ensures r.maxSize == c.maxSize
  {
    match op
    case PutOp(k, e) => Put(c, k, e)
    case GetOp(k, now) => Got(c, k, now).0
    case InvalidateOp(k) => if k in c.entries then Dropped(c, k) else c
    case ClearOp => Cache(c.maxSize, [], map[], 0, 0)
  }

  function Run<V>(maxSize: nat, ops: seq<Op<V>>): (r: Cache<V>)
    requires maxSize >= 1
    ensures r.maxSize == maxSize
  {
    if ops == [] then New(maxSize) else Step(Run(maxSize, ops[..|ops| - 1]), ops[|ops| - 1])
  }

  // ---------------------------------------------------------------- lists of keys

  lemma {:induction false} WithoutAt(keys: seq<string>, i: nat)
    requires Distinct(keys) && i < |keys|
    ensures Without(keys, keys[i]) == keys[..i] + keys[i + 1..]
  {
    if i > 0 {
      assert keys[1..][i - 1] == keys[i];
      WithoutAt(keys[1..], i - 1);
      assert keys == [keys[0]] + keys[1..];
    }
  }

  lemma {:induction false} WithoutMembers(keys: seq<string>, k: string)
    requires Distinct(keys)
    ensures Distinct(Without(keys, k))
    ensures forall x :: x in Without(keys, k) <==> x in keys && x != k
    ensures |Without(keys, k)| == if k in keys then |keys| - 1 else |keys|
  {
    if keys != [] {
      assert keys == [keys[0]] + keys[1..];
      WithoutMembers(keys[1..], k);
      var rest := Without(keys[1..], k);
      assert forall i | 0 <= i < |rest| :: rest[i] in rest;
    }
  }

  // ---------------------------------------------------------------- every run

  lemma StepKeepsValid<V>(c: Cache<V>, op: Op<V>)
    requires Valid(c)
    ensures Valid(Step(c, op))
  {
    match op
    case PutOp(k, e) =>
      WithoutMembers(c.order, k);
      if c.order != [] { WithoutMembers(c.order, c.order[0]); }
    case GetOp(k, now) => WithoutMembers(c.order, k);
    case InvalidateOp(k) => WithoutMembers(c.order, k);
    case ClearOp =>
  }

  /** Size never exceeds the bound, in any run. */
  lemma {:induction false} AlwaysValid<V>(maxSize: nat, ops: seq<Op<V>>)
    requires maxSize >= 1
    ensures Valid(Run(maxSize, ops)) && |Run(maxSize, ops).entries| <= maxSize
  {
    if ops != [] {
      AlwaysValid(maxSize, ops[..|ops| - 1]);
      StepKeepsValid(Run(maxSize, ops[..|ops| - 1]), ops[|ops| - 1]);
    }
    var c := Run(maxSize, ops);
    SizeOf(c.order, c.entries.Keys);
  }

  lemma {:induction false} SizeOf(keys: seq<string>, s: set<string>)
    requires Distinct(keys) && forall k :: k in keys <==> k in s
    ensures |s| == |keys|
  {
    if keys == [] {
      assert s == {};
    } else {
      var n := |keys| - 1;
      assert forall k :: k in keys[..n] <==> k in s - {keys[n]} by {
        assert keys == keys[..n] + [keys[n]];
      }
      SizeOf(keys[..n], s - {keys[n]});
    }
  }

  /** What was last put under a key, unless it was invalidated or cleared since. */
  function LastPut<V>(ops: seq<Op<V>>, k: string): Option<Entry<V>> {
    if ops == [] then None
    else
      match ops[|ops| - 1]
      case PutOp(j, e) => if j == k then Some(e) else LastPut(ops[..|ops| - 1], k)
      case GetOp(_, _) => LastPut(ops[..|ops| - 1], k)
      case InvalidateOp(j) => if j == k then None else LastPut(ops[..|ops| - 1], k)
      case ClearOp => None
  }

  /** The cache never holds anything but what was last put. */
  lemma {:induction false} HoldsLastPut<V>(maxSize: nat, ops: seq<Op<V>>, k: string)
    requires maxSize >= 1 && k in Run(maxSize, ops).entries
    ensures LastPut(ops, k) == Some(Run(maxSize, ops).entries[k])
  {
    if ops != [] {
      var before := Run(maxSize, ops[..|ops| - 1]);
      if k in before.entries {
        HoldsLastPut(maxSize, ops[..|ops| - 1], k);
      }
    }
  }

  /** After any operations whatever, `get` hits exactly when the key is cached and was put
      without a time to live, or no longer ago than that; and it returns the value last put. */
  lemma GetIsCurrent<V>(maxSize: nat, ops: seq<Op<V>>, k: string, now: real)
    requires maxSize >= 1
    ensures var c, put := Run(maxSize, ops), LastPut(ops, k);
            var hit := Got(c, k, now).1;
            && (hit.Some? <==> k in c.entries && put.Some?
                               && (put.value.ttl.None? || now <= put.value.createdAt + put.value.ttl.value))
            && (hit.Some? ==> hit.value == put.value.value)
  {
    if k in Run(maxSize, ops).entries { HoldsLastPut(maxSize, ops, k); }
  }

  /** How many gets there were since the last clear. */
  function GetsSinceClear<V>(ops: seq<Op<V>>): nat {
    if ops == [] then 0
    else
      match ops[|ops| - 1]
      case GetOp(_, _) => GetsSinceClear(ops[..|ops| - 1]) + 1
      case ClearOp => 0
      case _ => GetsSinceClear(ops[..|ops| - 1])
  }

  /** How many of them returned a value. */
  function HitsSinceClear<V>(maxSize: nat, ops: seq<Op<V>>): nat
    requires maxSize >= 1
  {
    if ops == [] then 0
    else
      var n := |ops| - 1;
      match ops[n]
      case GetOp(k, now) =>
        HitsSinceClear(maxSize, ops[..n]) + if Got(Run(maxSize, ops[..n]), k, now).1.Some? then 1 else 0
      case ClearOp => 0
      case _ => HitsSinceClear(maxSize, ops[..n])
  }

  lemma {:induction false} CountersCountGets<V>(maxSize: nat, ops: seq<Op<V>>)
    requires maxSize >= 1
    ensures Run(maxSize, ops).hits == HitsSinceClear(maxSize, ops)
    ensures Run(maxSize, ops).hits + Run(maxSize, ops).misses == GetsSinceClear(ops)
  {
    if ops != [] {
      CountersCountGets(maxSize, ops[..|ops| - 1]);
    }
  }

  // ---------------------------------------------------------------- least recently used

  /** Only puts and gets, and no get meets an expired entry. */
  ghost predicate Calm<V>(maxSize: nat, ops: seq<Op<V>>)
    requires maxSize >= 1
  {
    ops == [] ||
    var n := |ops| - 1;
    var c := Run(maxSize, ops[..n]);
    && Calm(maxSize, ops[..n])
    && (ops[n].PutOp? || (ops[n].GetOp? && (ops[n].k in c.entries ==> !IsExpired(c.entries[ops[n].k], ops[n].now))))
  }

  /** The keys touched so far, by a put or by a get that hit, in order. */
  function Touches<V>(maxSize: nat, ops: seq<Op<V>>): seq<string>
    requires maxSize >= 1
  {
    if ops == [] then []
    else
      var n := |ops| - 1;
      var log := Touches(maxSize, ops[..n]);
      match ops[n]
      case PutOp(k, _) => log + [k]
      case GetOp(k, now) => if Got(Run(maxSize, ops[..n]), k, now).1.Some? then log + [k] else log
      case _ => log
  }

  /** The distinct keys touched after `k` was last touched. */
  function TouchedAfter(log: seq<string>, k: string): set<string> {
    if log == [] || log[|log| - 1] == k then {}
    else TouchedAfter(log[..|log| - 1], k) + {log[|log| - 1]}
  }

  function Members(keys: seq<string>): set<string> {
    set k | k in keys
  }

  /** The keys touched since key `i` of the order was are exactly the later ones. */
  ghost predicate Ranked(order: seq<string>, log: seq<string>, i: int) {
    0 <= i < |order| && order[i] in log && TouchedAfter(log, order[i]) == Members(order[i + 1..])
  }

  /** The order is by last touch, and whatever is not cached has had too many others touched
      since. */
  ghost predicate ByRecency(order: seq<string>, maxSize: nat, log: seq<string>) {
    && Distinct(order) && |order| <= maxSize
    && (forall i | 0 <= i < |order| :: Ranked(order, log, i))
    && (forall k | k in log && k !in order :: |TouchedAfter(log, k)| >= maxSize)
  }

  lemma TouchMore(log: seq<string>, k: string, x: string)
    ensures TouchedAfter(log + [k], x) == if x == k then {} else TouchedAfter(log, x) + {k}
  {
  }

  /** Another touch keeps a key out. */
  lemma StaysOut(maxSize: nat, log: seq<string>, k: string, x: string)
    requires |TouchedAfter(log, x)| >= maxSize && x != k
    ensures |TouchedAfter(log + [k], x)| >= maxSize
  {
    TouchMore(log, k, x);
    if k in TouchedAfter(log, x) {
      assert TouchedAfter(log, x) + {k} == TouchedAfter(log, x);
    }
  }

  /** Key `j` of the old order, at `i` in the new one, is still followed by what was touched
      since. */
  lemma StillRanked(order: seq<string>, more: seq<string>, log: seq<string>, k: string, j: int, i: int)
    requires Ranked(order, log, j) && 0 <= i < |more| && more[i] == order[j] != k
    requires Members(more[i + 1..]) == Members(order[j + 1..]) + {k}
    ensures Ranked(more, log + [k], i)
  {
  }

  lemma LastRanked(more: seq<string>, log: seq<string>, k: string)
    requires more != [] && more[|more| - 1] == k
    ensures Ranked(more, log + [k], |more| - 1)
  {
  }

  /** Touching a cached key moves it to the end. */
  lemma TouchCached(order: seq<string>, maxSize: nat, log: seq<string>, at: nat)
    requires ByRecency(order, maxSize, log) && at < |order|
    ensures ByRecency(ToEnd(order, order[at]), maxSize, log + [order[at]])
  {
    var k := order[at];
    var more := order[..at] + order[at + 1..] + [k];
    assert ToEnd(order, k) == more by { WithoutAt(order, at); }
    WithoutMembers(order, k);
    forall i | 0 <= i < |more| ensures Ranked(more, log + [k], i) {
      MovedRanked(order, maxSize, log, at, i);
    }
    forall x | x in log + [k] && x !in more ensures |TouchedAfter(log + [k], x)| >= maxSize {
      assert x !in order && x != k;
      StaysOut(maxSize, log, k, x);
    }
  }

  lemma MovedKey(order: seq<string>, at: nat, i: nat)
    requires Distinct(order) && at < |order| && i < |order| - 1
    ensures (order[..at] + order[at + 1..] + [order[at]])[i] == order[if i < at then i else i + 1] != order[at]
  {
  }

  lemma MovedRanked(order: seq<string>, maxSize: nat, log: seq<string>, at: nat, i: nat)
    requires ByRecency(order, maxSize, log) && at < |order| && i < |order|
    ensures Ranked(order[..at] + order[at + 1..] + [order[at]], log + [order[at]], i)
  {
    var k, more := order[at], order[..at] + order[at + 1..] + [order[at]];
    if i < |more| - 1 {
      var j := if i < at then i else i + 1;
      assert Ranked(order, log, j);
      MovedTail(order, at, i);
      MovedKey(order, at, i);
      StillRanked(order, more, log, k, j, i);
    } else {
      LastRanked(more, log, k);
    }
  }

  /** What follows a key once another has moved to the end. */
  lemma MovedTail(order: seq<string>, at: nat, i: nat)
    requires at < |order| && i < |order| - 1
    ensures var j, more := if i < at then i else i + 1, order[..at] + order[at + 1..] + [order[at]];
            Members(more[i + 1..]) == Members(order[j + 1..]) + {order[at]}
  {
    var more := order[..at] + order[at + 1..] + [order[at]];
    if i < at {
      assert more[i + 1..] == order[i + 1..at] + order[at + 1..] + [order[at]];
      assert order[i + 1..] == order[i + 1..at] + [order[at]] + order[at + 1..];
    } else {
      assert more[i + 1..] == order[i + 2..] + [order[at]];
    }
  }

  lemma Appended(order: seq<string>, off: nat, k: string)
    requires Distinct(order) && k !in order && off <= 1 && off <= |order|
    ensures var more := order[off..] + [k];
            Distinct(more) && k in more && forall x | x in order && x !in more :: off == 1 && x == order[0]
  {
  }

  lemma MembersMore(keys: seq<string>, k: string)
    ensures Members(keys + [k]) == Members(keys) + {k}
  {
  }

  lemma RestRanked(order: seq<string>, maxSize: nat, log: seq<string>, k: string, off: nat, i: nat)
    requires ByRecency(order, maxSize, log) && k !in order && off <= |order| && i <= |order| - off
    ensures Ranked(order[off..] + [k], log + [k], i)
  {
    var more := order[off..] + [k];
    if i < |order| - off {
      var j := i + off;
      assert Ranked(order, log, j);
      assert more[i + 1..] == order[j + 1..] + [k];
      assert more[i] == order[j] && order[j] in order;
      MembersMore(order[j + 1..], k);
      StillRanked(order, more, log, k, j, i);
    } else {
      LastRanked(more, log, k);
    }
  }

  /** A new key goes to the end, and if the cache is full the first key leaves. */
  lemma TouchNew(order: seq<string>, maxSize: nat, log: seq<string>, k: string, off: nat)
    requires ByRecency(order, maxSize, log) && k !in order && maxSize >= 1
    requires off == if |order| >= maxSize then 1 else 0
    ensures ByRecency(order[off..] + [k], maxSize, log + [k])
  {
    var more := order[off..] + [k];
    Appended(order, off, k);
    forall i | 0 <= i < |more| ensures Ranked(more, log + [k], i) {
      RestRanked(order, maxSize, log, k, off, i);
    }
    forall x | x in log + [k] && x !in more ensures |TouchedAfter(log + [k], x)| >= maxSize {
      if x in order {
        Evicted(order, maxSize, log, k);
      } else {
        StaysOut(maxSize, log, k, x);
      }
    }
  }

  /** The key that leaves a full cache has had as many others touched since as fit. */
  lemma Evicted(order: seq<string>, maxSize: nat, log: seq<string>, k: string)
    requires ByRecency(order, maxSize, log) && k !in order && |order| == maxSize >= 1
    ensures |TouchedAfter(log + [k], order[0])| == maxSize
  {
    assert Ranked(order, log, 0);
    TouchMore(log, k, order[0]);
    SizeOf(order[1..], Members(order[1..]));
  }

  lemma {:induction false} RunByRecency<V>(maxSize: nat, ops: seq<Op<V>>)
    requires maxSize >= 1 && Calm(maxSize, ops)
    ensures ByRecency(Run(maxSize, ops).order, maxSize, Touches(maxSize, ops))
  {
    if ops != [] {
      var n := |ops| - 1;
      var c, log := Run(maxSize, ops[..n]), Touches(maxSize, ops[..n]);
      RunByRecency(maxSize, ops[..n]);
      AlwaysValid(maxSize, ops[..n]);
      var k := ops[n].k;
      if k in c.entries {
        var at :| 0 <= at < |c.order| && c.order[at] == k;
        TouchCached(c.order, maxSize, log, at);
      } else if ops[n].PutOp? {
        TouchNew(c.order, maxSize, log, k, if |c.order| >= maxSize then 1 else 0);
        if |c.order| >= maxSize { WithoutAt(c.order, 0); }
      }
    }
  }

  /** LRU refinement. Without expiry, invalidation and clearing, a key is cached exactly
      when it has been touched and fewer than `maxSize` other keys were touched since; and
      what is cached under it is what was last put. */
  lemma HoldsMostRecent<V>(maxSize: nat, ops: seq<Op<V>>, k: string)
    requires maxSize >= 1 && Calm(maxSize, ops)
    ensures var c, log := Run(maxSize, ops), Touches(maxSize, ops);
            && (k in c.entries <==> k in log && |TouchedAfter(log, k)| < maxSize)
            && (k in c.entries ==> LastPut(ops, k) == Some(c.entries[k]))
  {
    var c, log := Run(maxSize, ops), Touches(maxSize, ops);
    RunByRecency(maxSize, ops);
    AlwaysValid(maxSize, ops);
    if k in c.entries {
      HoldsLastPut(maxSize, ops, k);
      var i :| 0 <= i < |c.order| && c.order[i] == k;
      assert Ranked(c.order, log, i);
      SizeOf(c.order[i + 1..], Members(c.order[i + 1..]));
    }
  }

  // ---------------------------------------------------------------- the order in every run

  /** The order is by last touch: each key has been touched since every earlier one was. */
  ghost predicate InTouchOrder(order: seq<string>, log: seq<string>) {
    && (forall i | 0 <= i < |order| :: order[i] in log)
    && (forall i, j | 0 <= i < j < |order| :: order[j] in TouchedAfter(log, order[i]))
  }

  lemma RemovedInTouchOrder(order: seq<string>, log: seq<string>, k: string)
    requires Distinct(order) && InTouchOrder(order, log) && k in order
    ensures InTouchOrder(Without(order, k), log)
  {
    var at :| 0 <= at < |order| && order[at] == k;
    WithoutAt(order, at);
    var rest := Without(order, k);
    forall i | 0 <= i < |rest| ensures rest[i] in log {
      assert rest[i] == order[if i < at then i else i + 1];
    }
    forall i, j | 0 <= i < j < |rest| ensures rest[j] in TouchedAfter(log, rest[i]) {
      assert rest[i] == order[if i < at then i else i + 1];
      assert rest[j] == order[if j < at then j else j + 1];
    }
  }

  lemma TouchedInTouchOrder(order: seq<string>, log: seq<string>, k: string)
    requires InTouchOrder(order, log) && k !in order
    ensures InTouchOrder(order + [k], log + [k])
  {
    var more := order + [k];
    forall i, j | 0 <= i < j < |more| ensures more[j] in TouchedAfter(log + [k], more[i]) {
      assert more[i] == order[i] && order[i] in order;
      TouchMore(log, k, order[i]);
    }
  }

  lemma MovedInTouchOrder(order: seq<string>, log: seq<string>, k: string)
    requires Distinct(order) && InTouchOrder(order, log) && k in order
    ensures InTouchOrder(ToEnd(order, k), log + [k])
  {
    RemovedInTouchOrder(order, log, k);
    WithoutMembers(order, k);
    TouchedInTouchOrder(Without(order, k), log, k);
  }

  lemma PutInTouchOrder<V>(c: Cache<V>, log: seq<string>, k: string, e: Entry<V>)
    requires Valid(c) && InTouchOrder(c.order, log)
    ensures InTouchOrder(Put(c, k, e).order, log + [k])
  {
    if k in c.entries {
      MovedInTouchOrder(c.order, log, k);
    } else if |c.order| >= c.maxSize {
      RemovedInTouchOrder(c.order, log, c.order[0]);
      WithoutMembers(c.order, c.order[0]);
      TouchedInTouchOrder(Without(c.order, c.order[0]), log, k);
    } else {
      TouchedInTouchOrder(c.order, log, k);
    }
  }

  /** In every run, with whatever expiry, invalidation and clearing, the order is by last
      touch. */
  lemma {:induction false} OrderIsByLastTouch<V>(maxSize: nat, ops: seq<Op<V>>)
    requires maxSize >= 1
    ensures InTouchOrder(Run(maxSize, ops).order, Touches(maxSize, ops))
  {
    if ops != [] {
      var n := |ops| - 1;
      var c, log := Run(maxSize, ops[..n]), Touches(maxSize, ops[..n]);
      OrderIsByLastTouch(maxSize, ops[..n]);
      AlwaysValid(maxSize, ops[..n]);
      match ops[n]
      case PutOp(k, e) => PutInTouchOrder(c, log, k, e);
      case GetOp(k, now) =>
        if k in c.entries {
          RemovedInTouchOrder(c.order, log, k);
          MovedInTouchOrder(c.order, log, k);
        }
      case InvalidateOp(k) => if k in c.entries { RemovedInTouchOrder(c.order, log, k); }
      case ClearOp =>
    }
  }

  /** Of two keys, only one can have been touched since the other. */
  lemma {:induction false} NotBothLater(log: seq<string>, x: string, k: string)
    requires x in TouchedAfter(log, k)
    ensures k !in TouchedAfter(log, x)
  {
    var last := log[|log| - 1];
    if last != x {
      NotBothLater(log[..|log| - 1], x, k);
    }
  }

  /** The operation takes `k` out: it invalidates it, clears the cache, or finds it expired. */
  predicate TakesOut<V>(c: Cache<V>, op: Op<V>, k: string) {
    match op
    case PutOp(_, _) => false
    case GetOp(j, now) =>
      j == k && k in c.entries && c.entries[k].ttl.Some? && now > c.entries[k].createdAt + c.entries[k].ttl.value
    case InvalidateOp(j) => j == k
    case ClearOp => true
  }

  /** Every other cached key has been touched since `k` was. */
  ghost predicate Oldest<V>(c: Cache<V>, log: seq<string>, k: string) {
    forall x | x in c.entries && x != k :: x in TouchedAfter(log, k)
  }

  lemma OldestIsFirst<V>(c: Cache<V>, log: seq<string>, k: string)
    requires Valid(c) && InTouchOrder(c.order, log) && k in c.entries
    ensures Oldest(c, log, k) <==> k == c.order[0]
  {
    if k != c.order[0] {
      var i :| 0 < i < |c.order| && c.order[i] == k;
      assert c.order[i] in TouchedAfter(log, c.order[0]);
      NotBothLater(log, k, c.order[0]);
      assert c.order[0] in c.entries;
    } else {
      forall x | x in c.entries && x != k ensures x in TouchedAfter(log, k) {
        var i :| 0 <= i < |c.order| && c.order[i] == x;
      }
    }
  }

  /** In every run, a cached key leaves exactly when it is taken out, or it is the least
      recently touched one and a new key is put into a full cache. */
  lemma LeavesExactlyWhen<V>(maxSize: nat, ops: seq<Op<V>>, op: Op<V>, k: string)
    requires maxSize >= 1 && k in Run(maxSize, ops).entries
    ensures var c, log := Run(maxSize, ops), Touches(maxSize, ops);
            k !in Step(c, op).entries
            <==> || TakesOut(c, op, k)
                 || (op.PutOp? && op.k !in c.entries && |c.entries| == maxSize && Oldest(c, log, k))
  {
    var c := Run(maxSize, ops);
    AlwaysValid(maxSize, ops);
    OrderIsByLastTouch(maxSize, ops);
    OldestIsFirst(c, Touches(maxSize, ops), k);
    SizeOf(c.order, c.entries.Keys);
  }

  /** The keys put and not taken out since. */
  function Remaining<V>(maxSize: nat, ops: seq<Op<V>>): set<string>
    requires maxSize >= 1
  {
    if ops == [] then {}
    else
      var n := |ops| - 1;
      var c, before := Run(maxSize, ops[..n]), Remaining(maxSize, ops[..n]);
      if ops[n].PutOp? then before + {ops[n].k} else set k | k in before && !TakesOut(c, ops[n], k)
  }

  /** In every run, whatever is cached was put and not taken out since, and of that only keys
      with at least `maxSize` others touched since are missing. */
  lemma {:induction false} MissingOnlyIfOld<V>(maxSize: nat, ops: seq<Op<V>>, k: string)
    requires maxSize >= 1
    ensures var c, log := Run(maxSize, ops), Touches(maxSize, ops);
            && (k in c.entries ==> k in Remaining(maxSize, ops))
            && (k in Remaining(maxSize, ops) && k !in c.entries ==> k in log && |TouchedAfter(log, k)| >= maxSize)
  {
    if ops != [] {
      var n := |ops| - 1;
      var c, log := Run(maxSize, ops[..n]), Touches(maxSize, ops[..n]);
      MissingOnlyIfOld(maxSize, ops[..n], k);
      if k in Remaining(maxSize, ops) && k !in Run(maxSize, ops).entries {
        if k in c.entries {
          EvictedIsOld(maxSize, ops[..n], ops[n], k);
        } else if Touches(maxSize, ops) != log {
          StaysOut(maxSize, log, ops[n].k, k);
        }
      }
    }
  }

  lemma EvictedIsOld<V>(maxSize: nat, ops: seq<Op<V>>, op: Op<V>, k: string)
    requires maxSize >= 1 && k in Run(maxSize, ops).entries && k !in Step(Run(maxSize, ops), op).entries
    requires !TakesOut(Run(maxSize, ops), op, k)
    ensures op.PutOp? && k in Touches(maxSize, ops)
    ensures |TouchedAfter(Touches(maxSize, ops) + [op.k], k)| >= maxSize
  {
    var c, log := Run(maxSize, ops), Touches(maxSize, ops);
    LeavesExactlyWhen(maxSize, ops, op, k);
    AlwaysValid(maxSize, ops);
    OrderIsByLastTouch(maxSize, ops);
    TouchMore(log, op.k, k);
    var others := c.entries.Keys - {k} + {op.k};
    assert others <= TouchedAfter(log + [op.k], k);
    assert TouchedAfter(log + [op.k], k) == others + (TouchedAfter(log + [op.k], k) - others);
  }

  // ---------------------------------------------------------------- the objects

  class LRUQueryCache<V(==)> {
    const maxSize: nat
    var order: seq<string>
    var entries: map<string, Entry<V>>
    var hits: nat
    var misses: nat

    function Model(): Cache<V>
      reads this
    {
      Cache(maxSize, order, entries, hits, misses)
    }

    constructor (maxSize: nat)
      ensures Model() == New(maxSize)
    {
      this.maxSize, order, entries, hits, misses := maxSize, [], map[], 0, 0;
    }

    method Get(key: string, now: real) returns (r: Option<V>)
      modifies this
      ensures (Model(), r) == Got(old(Model()), key, now)
    {
      if key !in entries {
        misses := misses + 1;
        return None;
      }
      var entry := entries[key];
      if IsExpired(entry, now) {
        order, entries := Without(order, key), entries - {key};
        misses := misses + 1;
        return None;
      }
      order := ToEnd(order, key);
      hits := hits + 1;
      return Some(entry.value);
    }

    /** With no room at all the first insertion fails: there is nothing to evict. */
    method PutEntry(key: string, value: V, ttl: Option<real>, now: real) returns (ok: bool)
      requires Valid(Model()) || maxSize == 0
      modifies this
      ensures ok == (old(key in entries) || old(order) != [] || maxSize > 0)
      ensures ok && maxSize >= 1 ==> Model() == Put(old(Model()), key, Entry(value, ttl, now))
      ensures !ok ==> Model() == old(Model())
    {
      if key in entries {
        order := ToEnd(order, key);
        entries := entries[key := Entry(value, ttl, now)];
        return true;
      }
      if |order| >= maxSize {
        if order == [] {
          return false;
        }
        var removed := order[0];
        order, entries := Without(order, removed), entries - {removed};
      }
      order, entries := order + [key], entries[key := Entry(value, ttl, now)];
      return true;
    }

    method Invalidate(key: string)
      modifies this
      ensures Model() == if key in old(entries) then Dropped(old(Model()), key) else old(Model())
    {
      if key in entries {
        order, entries := Without(order, key), entries - {key};
      }
    }

    method Clear()
      modifies this
      ensures Model() == New(maxSize)
    {
      order, entries, hits, misses := [], map[], 0, 0;
    }
  }

  /** The cache in use: entries put without a time to live get the default one. */
  class HybridQueryCache<V(==)> {
    const store: LRUQueryCache<V>
    const defaultTtl: real

    constructor (maxSize: nat, defaultTtl: real)
      ensures fresh(store) && store.Model() == New(maxSize) && this.defaultTtl == defaultTtl
    {
      store := new LRUQueryCache(maxSize);
      this.defaultTtl := defaultTtl;
    }

    method PutEntry(key: string, value: V, ttl: Option<real>, now: real) returns (ok: bool)
      requires Valid(store.Model()) || store.maxSize == 0
      modifies store
      ensures ok == (old(key in store.entries) || old(store.order) != [] || store.maxSize > 0)
      ensures ok && store.maxSize >= 1 ==>
                && Valid(store.Model())
                && var lifetime := if ttl.Some? then ttl else Some(defaultTtl);
                   store.Model() == Put(old(store.Model()), key, Entry(value, lifetime, now))
      ensures !ok ==> store.Model() == old(store.Model())
    {
      ghost var e := Entry(value, if ttl.Some? then ttl else Some(defaultTtl), now);
      if store.maxSize >= 1 {
        StepKeepsValid(store.Model(), PutOp(key, e));
      }
      ok := store.PutEntry(key, value, if ttl.Some? then ttl else Some(defaultTtl), now);
    }
  }
}
