/** The bounded token-count cache: a ring buffer over a map, proved to be a first-in-first-out map
    (internal/desktop/google_slowmode.go). */
module TokenCache {
  import opened Bytes

  datatype Value = Value(tokens: int, expiresAt: int)

  /** The specification: the stored keys in the order they were inserted, and their values. */
  datatype Fifo<!K> = Fifo(order: seq<K>, values: map<K, Value>)

  function FifoPut<K>(f: Fifo<K>, max: int, ttl: int, key: K, tokens: int, now: int): Fifo<K> {
    if max <= 0 || ttl <= 0 then f
    else
      var value := Value(tokens, now + ttl);
      if key in f.values then Fifo(f.order, f.values[key := value])
      else if |f.order| < max then Fifo(f.order + [key], f.values[key := value])
      else Fifo(f.order[1..] + [key], (f.values - {f.order[0]})[key := value])
  }

  function FifoGet<K>(f: Fifo<K>, key: K, now: int): Option<int> {
    if key in f.values && f.values[key].expiresAt > now then Some(f.values[key].tokens) else None
  }

  class GoogleTokenCountCache<K(==, !new)> {
    const max: int
    const ttl: int
    var entries: map<K, Value>
    var order: seq<K>
    var next: nat

    ghost predicate Valid()
      reads this
    {
      RingValid(order, next, entries, max)
    }

    ghost function Abstract(): Fifo<K>
      requires Valid()
      reads this
    {
      RingAbstract(order, next, entries)
    }

    constructor (maxEntries: int, ttl: int)
      ensures Valid() && Abstract() == Fifo([], map[]) && max == maxEntries && this.ttl == ttl
    {
      max, this.ttl, entries, order, next := maxEntries, ttl, map[], [], 0;
    }

    method Get(key: K, now: int) returns (r: Option<int>)
      requires Valid()
      ensures r == FifoGet(Abstract(), key, now)
    {
      if key !in entries || !(entries[key].expiresAt > now) {
        return None;
      }
      return Some(entries[key].tokens);
    }

    method Put(key: K, tokens: int, now: int)
      requires Valid()
      modifies this
      ensures Valid() && Abstract() == FifoPut(old(Abstract()), max, ttl, key, tokens, now)
    {
      if max <= 0 || ttl <= 0 {
        return;
      }
      hide RingValid, RingAbstract;
      var value := Value(tokens, now + ttl);
      PutOnRing(order, next, entries, max, ttl, key, tokens, now);
      if key in entries {
        entries := entries[key := value];
        return;
      }
      if |order| < max {
        order := order + [key];
      } else {
        entries := entries - {order[next]};
        order := order[next := key];
        next := (next + 1) % max;
      }
      entries := entries[key := value];
    }
  }

  // ----- the ring

  ghost predicate Distinct<K>(s: seq<K>) {
    forall i, j :: 0 <= i < j < |s| ==> s[i] != s[j]
  }

  ghost predicate RingValid<K(!new)>(order: seq<K>, next: nat, entries: map<K, Value>, max: int) {
    && |order| <= (if max < 0 then 0 else max)
    && (if |order| < max then next == 0 else next < |order| || next == 0)
    && Distinct(order)
    && (forall k :: k in entries <==> k in order)
  }

  /** The ring rotated by `next` is the insertion order. */
  ghost function RingAbstract<K>(order: seq<K>, next: nat, entries: map<K, Value>): Fifo<K>
    requires next <= |order|
  {
    Fifo(order[next..] + order[..next], entries)
  }

  /** What each branch of Put does to the ring is what the specification does to the queue. */
  lemma PutOnRing<K(!new)>(order: seq<K>, next: nat, entries: map<K, Value>, max: int, ttl: int, key: K, tokens: int,
      now: int)
    requires RingValid(order, next, entries, max) && max > 0 && ttl > 0
    ensures next <= |order| && (|order| == max ==> next < |order|) && |order| <= max
    ensures var value := Value(tokens, now + ttl);
            var put := FifoPut(RingAbstract(order, next, entries), max, ttl, key, tokens, now);
            && (key in entries ==> RingHolds(order, next, entries[key := value], max, put))
            && (key !in entries && |order| < max ==> RingHolds(order + [key], next, entries[key := value], max, put))
            && (key !in entries && |order| == max ==>
                  RingHolds(order[next := key], (next + 1) % max, (entries - {order[next]})[key := value], max, put))
  {
    hide Distinct;
    if key !in entries {
      if |order| < max {
        RingAppend(order, key);
      } else {
        RingReplace(order, next, key);
      }
    }
  }

  ghost predicate RingHolds<K(!new)>(order: seq<K>, next: nat, entries: map<K, Value>, max: int, f: Fifo<K>) {
    RingValid(order, next, entries, max) && RingAbstract(order, next, entries) == f
  }

  /** Overwriting the oldest slot of a ring drops the head of its rotation and appends at the tail. */
  lemma RingReplace<K(!new)>(order: seq<K>, next: nat, key: K)
    requires next < |order| && Distinct(order) && key !in order
    ensures var o := order[next := key];
            var n := (next + 1) % |order|;
            && Distinct(o) && (order[next..] + order[..next])[0] == order[next]
            && (forall k :: k in o <==> k == key || (k in order && k != order[next]))
            && 0 <= n < |order|
            && o[n..] + o[..n] == (order[next..] + order[..next])[1..] + [key]
  {
    var o := order[next := key];
    if next + 1 == |order| {
      DivModUnique(next + 1, |order|, 1, 0);
      assert o[0..] + o[..0] == order[..next] + [key];
      assert (order[next..] + order[..next])[1..] == order[..next];
    } else {
      DivModUnique(next + 1, |order|, 0, next + 1);
      assert o[next + 1..] == order[next + 1..] && o[..next + 1] == order[..next] + [key];
      assert (order[next..] + order[..next])[1..] == order[next + 1..] + order[..next];
      Associative(order[next + 1..], order[..next], [key]);
    }
    RingMembers(order, next, key);
  }

  lemma RingAppend<K(!new)>(order: seq<K>, key: K)
    requires Distinct(order) && key !in order
    ensures Distinct(order + [key]) && (forall k :: k in order + [key] <==> k in order || k == key)
    ensures order[0..] + order[..0] == order && (order + [key])[0..] + (order + [key])[..0] == order + [key]
  {
  }

  lemma RingMembers<K(!new)>(order: seq<K>, next: nat, key: K)
    requires next < |order| && Distinct(order)
    ensures forall k :: k in order[next := key] <==> k == key || (k in order && k != order[next])
  {
    var o := order[next := key];
    forall k
      ensures k in o <==> k == key || (k in order && k != order[next])
    {
      if k in order && k != order[next] {
        var i :| 0 <= i < |order| && order[i] == k;
        assert o[i] == k;
      }
      assert o[next] == key;
    }
  }

  // ----- any sequence of insertions

  datatype PutCall<K> = PutCall(key: K, tokens: int, now: int)

  function Run<K>(puts: seq<PutCall<K>>, max: int, ttl: int): Fifo<K> {
    if puts == [] then Fifo([], map[])
    else
      var last := puts[|puts| - 1];
      FifoPut(Run(puts[..|puts| - 1], max, ttl), max, ttl, last.key, last.tokens, last.now)
  }

  /** The keys that were not stored when they were put, in order. */
  function FreshInsertions<K(==)>(puts: seq<PutCall<K>>, max: int, ttl: int): seq<K> {
    if puts == [] then []
    else
      var before := puts[..|puts| - 1];
      var last := puts[|puts| - 1];
      FreshInsertions(before, max, ttl) + if last.key in Run(before, max, ttl).values then [] else [last.key]
  }

  /** The last call that put this key. */
  function LatestPut<K(==)>(puts: seq<PutCall<K>>, key: K): Option<PutCall<K>> {
    if puts == [] then None
    else if puts[|puts| - 1].key == key then Some(puts[|puts| - 1])
    else LatestPut(puts[..|puts| - 1], key)
  }

  function LastOf<K>(s: seq<K>, n: nat): seq<K> {
    if |s| <= n then s else s[|s| - n..]
  }

  lemma LastOfSnoc<K>(s: seq<K>, x: K, n: nat)
    requires n > 0
    ensures |LastOf(s, n)| == if |s| < n then |s| else n
    ensures LastOf(s + [x], n) == if |s| < n then LastOf(s, n) + [x] else LastOf(s, n)[1..] + [x]
  {
  }

  /** No key is stored twice, and the map holds exactly the keys of the order. */
  ghost predicate Consistent<K(!new)>(f: Fifo<K>) {
    Distinct(f.order) && forall k :: k in f.values <==> k in f.order
  }

  lemma PutKeepsConsistent<K(!new)>(f: Fifo<K>, max: int, ttl: int, key: K, tokens: int, now: int)
    requires Consistent(f)
    ensures Consistent(FifoPut(f, max, ttl, key, tokens, now))
  {
    if max > 0 && ttl > 0 && key !in f.values && |f.order| >= max {
      var g := FifoPut(f, max, ttl, key, tokens, now);
      var n := |f.order|;
      assert g.order[n - 1] == key && forall i :: 0 <= i < n - 1 ==> g.order[i] == f.order[i + 1];
      forall k | k in f.order && k != f.order[0]
        ensures k in g.order
      {
        var i :| 0 <= i < n && f.order[i] == k;
        assert g.order[i - 1] == k;
      }
    }
  }

  ghost predicate HoldsLatest<K(!new)>(f: Fifo<K>, puts: seq<PutCall<K>>, ttl: int) {
    forall k :: k in f.values ==>
      && LatestPut(puts, k).Some?
      && f.values[k] == Value(LatestPut(puts, k).value.tokens, LatestPut(puts, k).value.now + ttl)
  }

  lemma PutHoldsLatest<K(!new)>(f: Fifo<K>, puts: seq<PutCall<K>>, max: int, ttl: int)
    requires puts != [] && HoldsLatest(f, puts[..|puts| - 1], ttl)
    ensures var last := puts[|puts| - 1];
            max > 0 && ttl > 0 ==> HoldsLatest(FifoPut(f, max, ttl, last.key, last.tokens, last.now), puts, ttl)
  {
  }

  lemma NothingPut<K(!new)>(max: int, ttl: int)
    requires max > 0
    ensures var f := Run<K>([], max, ttl);
            f.order == LastOf(FreshInsertions([], max, ttl), max) && Consistent(f) && HoldsLatest(f, [], ttl)
  {
  }

  /** What one more call does to the queue and to the list of fresh insertions. */
  lemma RunSnoc<K(!new)>(puts: seq<PutCall<K>>, max: int, ttl: int)
    requires puts != [] && max > 0 && ttl > 0
    ensures var before, last := puts[..|puts| - 1], puts[|puts| - 1];
            var f := Run(before, max, ttl);
            && Run(puts, max, ttl) == FifoPut(f, max, ttl, last.key, last.tokens, last.now)
            && FreshInsertions(puts, max, ttl)
                  == FreshInsertions(before, max, ttl) + (if last.key in f.values then [] else [last.key])
            && (f.order == LastOf(FreshInsertions(before, max, ttl), max) ==>
                  Run(puts, max, ttl).order == LastOf(FreshInsertions(puts, max, ttl), max))
  {
    var before, last := puts[..|puts| - 1], puts[|puts| - 1];
    LastOfSnoc(FreshInsertions(before, max, ttl), last.key, max);
    assert FreshInsertions(before, max, ttl) + [] == FreshInsertions(before, max, ttl);
  }

  /** After any calls, the stored keys are exactly the last `max` fresh insertions in order, without
      repetition, and each holds what its latest Put gave it. */
  lemma {:induction false} CacheIsFifo<K(!new)>(puts: seq<PutCall<K>>, max: int, ttl: int)
    requires max > 0 && ttl > 0
    ensures var f := Run(puts, max, ttl);
            f.order == LastOf(FreshInsertions(puts, max, ttl), max) && Consistent(f) && HoldsLatest(f, puts, ttl)
  {
    hide LastOf, Consistent, HoldsLatest, Run, FreshInsertions, FifoPut;
    if puts == [] {
      NothingPut<K>(max, ttl);
    } else {
      var before, last := puts[..|puts| - 1], puts[|puts| - 1];
      CacheIsFifo(before, max, ttl);
      RunSnoc(puts, max, ttl);
      PutKeepsConsistent(Run(before, max, ttl), max, ttl, last.key, last.tokens, last.now);
      PutHoldsLatest(Run(before, max, ttl), puts, max, ttl);
    }
  }

  /** A lookup finds a value exactly when the key is still among the last `max` fresh insertions and its
      latest Put has not expired; the value is the one that Put gave. */
  lemma GetFindsLatestPut<K(!new)>(puts: seq<PutCall<K>>, max: int, ttl: int, key: K, now: int, tokens: int)
    requires max > 0 && ttl > 0
    ensures FifoGet(Run(puts, max, ttl), key, now) == Some(tokens)
       <==> && key in LastOf(FreshInsertions(puts, max, ttl), max)
            && LatestPut(puts, key).Some?
            && LatestPut(puts, key).value.tokens == tokens && LatestPut(puts, key).value.now + ttl > now
  {
    CacheIsFifo(puts, max, ttl);
  }

  /** A cache without room or lifetime stays empty. */
  lemma {:induction false} DisabledCacheIsEmpty<K>(puts: seq<PutCall<K>>, max: int, ttl: int)
    requires max <= 0 || ttl <= 0
    ensures Run(puts, max, ttl) == Fifo([], map[])
  {
    if puts != [] {
      DisabledCacheIsEmpty(puts[..|puts| - 1], max, ttl);
    }
  }
}
