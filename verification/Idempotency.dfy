/**
 The cache of answered requests: a bounded map in insertion order whose entries expire.
 */
module Idempotency {
  import opened CodeUnits
  import opened ExpiringMap
  import opened Sequences
  import opened Wrappers

  function AfterGet<K(==), V>(es: seq<Entry<K, V>>, k: K, now: int): (seq<Entry<K, V>>, Option<V>) {
    var hit := Find(es, k);
    if hit.None? then (es, None)
    else if now >= hit.value.expiresAt then (Remove(es, k), None)
    else (es, Some(hit.value.value))
  }

  function AfterSet<K(==), V>(es: seq<Entry<K, V>>, k: K, v: V, now: int, ttl: int, maxEntries: nat): seq<Entry<K, V>> {
    Trim(Remove(Unexpired(es, now), k), maxEntries) + [Entry(k, v, now + ttl)]
  }

  class IdempotencyCache<K(==), V> {
    var values: seq<Entry<K, V>>
    const ttlMs: int
    const maxEntries: nat

    constructor (ttlMs: int, maxEntries: nat)
      requires ttlMs > 0 && maxEntries > 0
      ensures values == [] && this.ttlMs == ttlMs && this.maxEntries == maxEntries
    {
      values := [];
      this.ttlMs, this.maxEntries := ttlMs, maxEntries;
    }

    method Get(key: K, now: int) returns (value: Option<V>)
      modifies this
      ensures (values, value) == AfterGet(old(values), key, now)
    {
      var hit := Find(values, key);
      if hit.None? { return None; }
      if now >= hit.value.expiresAt {
        values := Remove(values, key);
        return None;
      }
      return Some(hit.value.value);
    }

    method Set(key: K, value: V, now: int)
      requires maxEntries > 0
      modifies this
      ensures values == AfterSet(old(values), key, value, now, ttlMs, maxEntries)
    {
      values := DropExpired(values, now);
      values := Remove(values, key);
      values := MakeRoom(values, maxEntries);
      values := values + [Entry(key, value, now + ttlMs)];
    }
  }

  // ---------------------------------------------------------------- histories

  datatype Use<K, V> = Got(key: K, time: int) | Put(key: K, value: V, time: int)

  /** The clock does not go back, and has reached `now`. */
  ghost predicate Ordered<K, V>(h: seq<Use<K, V>>, now: int) {
    h != [] ==> h[|h| - 1].time <= now && Ordered(h[..|h| - 1], h[|h| - 1].time)
  }

  function AfterUse<K(==), V>(es: seq<Entry<K, V>>, u: Use<K, V>, ttl: int, maxEntries: nat): seq<Entry<K, V>> {
    match u
    case Got(k, t) => AfterGet(es, k, t).0
    case Put(k, v, t) => AfterSet(es, k, v, t, ttl, maxEntries)
  }

  function After<K(==), V>(h: seq<Use<K, V>>, ttl: int, maxEntries: nat): seq<Entry<K, V>> {
    if h == [] then [] else AfterUse(After(h[..|h| - 1], ttl, maxEntries), h[|h| - 1], ttl, maxEntries)
  }

  /** The last value put under a key, when that was, and the other keys put since. */
  datatype LastPut<K, V> = Never | Last(value: V, time: int, others: set<K>)

  ghost function LastOf<K, V>(h: seq<Use<K, V>>, k: K): LastPut<K, V> {
    if h == [] then Never else Noted(LastOf(h[..|h| - 1], k), h[|h| - 1], k)
  }

  ghost function Noted<K, V>(before: LastPut<K, V>, u: Use<K, V>, k: K): LastPut<K, V> {
    match u
    case Got(_, _) => before
    case Put(x, v, t) =>
      if x == k then Last(v, t, {}) else if before.Never? then Never else before.(others := before.others + {x})
  }

  /** The value is neither too old nor pushed out. */
  ghost predicate Fresh<K, V>(last: LastPut<K, V>, now: int, ttl: int, maxEntries: nat) {
    last.Last? && now < last.time + ttl && |last.others| < maxEntries
  }

  // ---------------------------------------------------------------- what the entries say about one key

  /** The entries hold the last value put under `k` exactly when it is fresh. */
  ghost predicate Right<K, V>(es: seq<Entry<K, V>>, k: K, last: LastPut<K, V>, now: int, ttl: int, maxEntries: nat) {
    && (last.Last? ==> k !in last.others)
    && if Fresh(last, now, ttl, maxEntries) then Present(es, Entry(k, last.value, last.time + ttl), last.others) else Absent(es, k, now)
  }

  // ---------------------------------------------------------------- one use of the cache

  lemma {:induction false} AppendKeepsFresh<K, V>(es: seq<Entry<K, V>>, e: Entry<K, V>, others: set<K>, i: nat, n: Entry<K, V>)
    requires SplitsAt(es, e, others, i) && n.key != e.key && n.expiresAt >= e.expiresAt
    ensures Present(es + [n], e, others + {n.key})
  {
    var a, b := es[..i], es[i + 1..];
    KeysConcat(b, [n]);
    SplitsApart(a, e, b + [n], others + {n.key});
    assert es + [n] == a + [e] + (b + [n]);
  }

  lemma {:induction false} PutIsDistinct<K, V>(es: seq<Entry<K, V>>, x: K, v: V, now: int, ttl: int, maxEntries: nat)
    requires Distinct(es) && maxEntries > 0
    ensures Distinct(AfterSet(es, x, v, now, ttl, maxEntries)) && Distinct(Remove(Unexpired(es, now), x))
    ensures x !in Keys(Trim(Remove(Unexpired(es, now), x), maxEntries))
  {
    UnexpiredSome(es, now);
    Removed(Unexpired(es, now), x);
    var rest := Remove(Unexpired(es, now), x);
    Trimmed(rest, maxEntries);
    var d := if |rest| < maxEntries then 0 else |rest| + 1 - maxEntries;
    assert Trim(rest, maxEntries) == rest[d..] && rest == rest[..d] + rest[d..];
    KeysConcat(rest[..d], rest[d..]);
    DistinctTail(rest, d);
    DistinctAppend(rest[d..], Entry(x, v, now + ttl));
  }

  /** Putting another key: the entry of `k` survives exactly while there is room for it. */
  lemma {:induction false} PutOtherKeepsFresh<K, V>(es: seq<Entry<K, V>>, e: Entry<K, V>, others: set<K>, x: K, v: V,
                                                    now: int, ttl: int, maxEntries: nat)
    requires Present(es, e, others) && Distinct(es) && maxEntries > 0 && x != e.key && now < e.expiresAt <= now + ttl
    ensures if |others + {x}| < maxEntries then Present(AfterSet(es, x, v, now, ttl, maxEntries), e, others + {x})
            else Absent(AfterSet(es, x, v, now, ttl, maxEntries), e.key, now)
  {
    var i: nat :| SplitsAt(es, e, others, i);
    i := PruneKeepsFresh(es, e, others, i, now);
    i := RemoveKeepsFresh(Unexpired(es, now), e, others, i, x);
    PutIsDistinct(es, x, v, now, ttl, maxEntries);
    var rest, left := Remove(Unexpired(es, now), x), others - {x};
    TrimKeepsFresh(rest, e, left, i, maxEntries);
    assert left + {x} == others + {x} && |left + {x}| == |left| + 1;
    var kept := Trim(rest, maxEntries);
    if |left| + 1 < maxEntries {
      i :| SplitsAt(kept, e, left, i);
      AppendKeepsFresh(kept, e, left, i, Entry(x, v, now + ttl));
    } else {
      NoKeyAbsent(kept, e.key, Entry(x, v, now + ttl), now);
    }
  }

  lemma {:induction false} NoKeyAbsent<K, V>(es: seq<Entry<K, V>>, k: K, n: Entry<K, V>, now: int)
    requires k !in Keys(es) && n.key != k
    ensures Absent(es + [n], k, now)
  {
    forall i | 0 <= i < |es| ensures es[i].key != k { KeyIn(es, i); }
  }

  /** An entry that is not there, or is expired, stays that way when another key is put. */
  lemma {:induction false} PutOtherKeepsAbsent<K, V>(es: seq<Entry<K, V>>, k: K, x: K, v: V, now: int, ttl: int, maxEntries: nat)
    requires Absent(es, k, now) && maxEntries > 0 && x != k
    ensures Absent(AfterSet(es, x, v, now, ttl, maxEntries), k, now)
  {
    var pruned := Unexpired(es, now);
    UnexpiredSome(es, now);
    NoneUnexpired(es, k, now);
    Removed(pruned, x);
    var rest := Remove(pruned, x);
    Trimmed(rest, maxEntries);
    var d := if |rest| < maxEntries then 0 else |rest| + 1 - maxEntries;
    assert Trim(rest, maxEntries) == rest[d..] && rest == rest[..d] + rest[d..];
    KeysConcat(rest[..d], rest[d..]);
    NoKeyAbsent(rest[d..], k, Entry(x, v, now + ttl), now);
  }

  lemma {:induction false} PutItself<K, V>(es: seq<Entry<K, V>>, k: K, v: V, now: int, ttl: int, maxEntries: nat)
    requires Distinct(es) && maxEntries > 0
    ensures Present(AfterSet(es, k, v, now, ttl, maxEntries), Entry(k, v, now + ttl), {})
  {
    PutIsDistinct(es, k, v, now, ttl, maxEntries);
    var kept := Trim(Remove(Unexpired(es, now), k), maxEntries);
    SplitsApart(kept, Entry(k, v, now + ttl), [], {});
    assert kept + [Entry(k, v, now + ttl)] + [] == AfterSet(es, k, v, now, ttl, maxEntries);
  }

  lemma {:induction false} GetKeepsFresh<K, V>(es: seq<Entry<K, V>>, e: Entry<K, V>, others: set<K>, y: K, now: int)
    requires Present(es, e, others) && Distinct(es) && now < e.expiresAt
    ensures Present(AfterGet(es, y, now).0, e, others)
  {
    var i: nat :| SplitsAt(es, e, others, i);
    FindFresh(es, e, others);
    if Find(es, y).Some? && now >= Find(es, y).value.expiresAt {
      if y in others { NewerIsFound(es, e, others, i, y); assert false; }
      i := RemoveKeepsFresh(es, e, others, i, y);
      assert others - {y} == others;
    }
  }

  lemma {:induction false} RemoveKeepsAbsent<K, V>(es: seq<Entry<K, V>>, k: K, y: K, now: int)
    requires Absent(es, k, now)
    ensures Absent(Remove(es, y), k, now)
  {
    if es != [] {
      assert Absent(es[1..], k, now) by { assert forall i | 0 <= i < |es[1..]| :: es[1..][i] == es[i + 1]; }
      RemoveKeepsAbsent(es[1..], k, y, now);
      var rest := Remove(es[1..], y);
      assert forall i | 0 < i < |[es[0]] + rest| :: ([es[0]] + rest)[i] == rest[i - 1];
    }
  }

  lemma {:induction false} FreshExpires<K, V>(es: seq<Entry<K, V>>, e: Entry<K, V>, others: set<K>, now: int)
    requires Present(es, e, others) && e.expiresAt <= now
    ensures Absent(es, e.key, now)
  {
    var i: nat :| SplitsAt(es, e, others, i);
    forall j | 0 <= j < |es| && es[j].key == e.key ensures es[j].expiresAt <= now {
      if j < i { KeyIn(es[..i], j); }
      if j > i { KeyIn(es[i + 1..], j - i - 1); }
    }
  }

  // ---------------------------------------------------------------- whole histories

  lemma {:induction false} RightLater<K, V>(es: seq<Entry<K, V>>, k: K, last: LastPut<K, V>, t: int, now: int, ttl: int, maxEntries: nat)
    requires Right(es, k, last, t, ttl, maxEntries) && t <= now
    ensures Right(es, k, last, now, ttl, maxEntries)
  {
    if Fresh(last, t, ttl, maxEntries) && !Fresh(last, now, ttl, maxEntries) {
      FreshExpires(es, Entry(k, last.value, last.time + ttl), last.others, now);
    }
  }

  lemma {:induction false} GetIsRight<K, V>(es: seq<Entry<K, V>>, k: K, last: LastPut<K, V>, y: K, t: int, ttl: int, maxEntries: nat)
    requires Distinct(es) && Right(es, k, last, t, ttl, maxEntries)
    ensures Right(AfterGet(es, y, t).0, k, last, t, ttl, maxEntries)
  {
    if Fresh(last, t, ttl, maxEntries) {
      GetKeepsFresh(es, Entry(k, last.value, last.time + ttl), last.others, y, t);
    } else {
      RemoveKeepsAbsent(es, k, y, t);
    }
  }

  lemma {:induction false} PutIsRight<K, V>(es: seq<Entry<K, V>>, k: K, last: LastPut<K, V>, x: K, v: V, t: int, ttl: int, maxEntries: nat)
    requires Distinct(es) && maxEntries > 0 && x != k && (last.Last? ==> last.time <= t)
    requires Right(es, k, last, t, ttl, maxEntries)
    ensures Right(AfterSet(es, x, v, t, ttl, maxEntries), k, Noted(last, Put(x, v, t), k), t, ttl, maxEntries)
  {
    if Fresh(last, t, ttl, maxEntries) {
      PutOtherKeepsFresh(es, Entry(k, last.value, last.time + ttl), last.others, x, v, t, ttl, maxEntries);
    } else {
      PutOtherKeepsAbsent(es, k, x, v, t, ttl, maxEntries);
      if last.Last? { MoreOthers(last.others, x); }
    }
  }

  lemma {:induction false} UseIsRight<K, V>(es: seq<Entry<K, V>>, k: K, last: LastPut<K, V>, u: Use<K, V>, ttl: int, maxEntries: nat)
    requires Distinct(es) && ttl > 0 && maxEntries > 0 && (last.Last? ==> last.time <= u.time)
    requires Right(es, k, last, u.time, ttl, maxEntries)
    ensures Right(AfterUse(es, u, ttl, maxEntries), k, Noted(last, u, k), u.time, ttl, maxEntries)
  {
    match u
    case Got(y, t) => GetIsRight(es, k, last, y, t, ttl, maxEntries);
    case Put(x, v, t) =>
      if x == k { PutItself(es, k, v, t, ttl, maxEntries); } else { PutIsRight(es, k, last, x, v, t, ttl, maxEntries); }
  }

  lemma {:induction false} MoreOthers<K>(others: set<K>, x: K)
    ensures |others + {x}| >= |others|
  {
    if x in others { assert others + {x} == others; } else { assert |others + {x}| == |others| + 1; }
  }

  lemma {:induction false} UseIsDistinct<K, V>(es: seq<Entry<K, V>>, u: Use<K, V>, ttl: int, maxEntries: nat)
    requires Distinct(es) && maxEntries > 0
    ensures Distinct(AfterUse(es, u, ttl, maxEntries))
  {
    match u
    case Got(y, t) => Removed(es, y);
    case Put(x, v, t) => PutIsDistinct(es, x, v, t, ttl, maxEntries);
  }

  lemma {:induction false} HistoryIsRight<K, V>(h: seq<Use<K, V>>, k: K, now: int, ttl: int, maxEntries: nat)
    requires Ordered(h, now) && ttl > 0 && maxEntries > 0
    ensures Distinct(After(h, ttl, maxEntries)) && Right(After(h, ttl, maxEntries), k, LastOf(h, k), now, ttl, maxEntries)
    ensures LastOf(h, k).Last? ==> LastOf(h, k).time <= now
    decreases |h|
  {
    if h != [] {
      var front, u := h[..|h| - 1], h[|h| - 1];
      HistoryIsRight(front, k, u.time, ttl, maxEntries);
      UseIsRight(After(front, ttl, maxEntries), k, LastOf(front, k), u, ttl, maxEntries);
      UseIsDistinct(After(front, ttl, maxEntries), u, ttl, maxEntries);
      RightLater(After(h, ttl, maxEntries), k, LastOf(h, k), u.time, now, ttl, maxEntries);
    }
  }

  /**
   With a clock that does not go back, `get` returns the last value put under the key exactly
   when that is younger than the time to live and fewer than `maxEntries` other keys were put since.
   */
  lemma {:induction false} GetReturnsLastPut<K, V>(h: seq<Use<K, V>>, k: K, now: int, ttl: int, maxEntries: nat)
    requires Ordered(h, now) && ttl > 0 && maxEntries > 0
    ensures AfterGet(After(h, ttl, maxEntries), k, now).1
         == var last := LastOf(h, k); if Fresh(last, now, ttl, maxEntries) then Some(last.value) else None
  {
    HistoryIsRight(h, k, now, ttl, maxEntries);
    var es, last := After(h, ttl, maxEntries), LastOf(h, k);
    if Fresh(last, now, ttl, maxEntries) {
      FindFresh(es, Entry(k, last.value, last.time + ttl), last.others);
    } else {
      FindAbsent(es, k, now);
    }
  }

  lemma {:induction false} AfterOneMore<K, V>(h: seq<Use<K, V>>, u: Use<K, V>, ttl: int, maxEntries: nat)
    ensures After(h + [u], ttl, maxEntries) == AfterUse(After(h, ttl, maxEntries), u, ttl, maxEntries)
  {
    assert (h + [u])[..|h|] == h;
  }

  /** The uses of the cache by other calls, one after the other. */
  method Perform<K(==), V>(cache: IdempotencyCache<K, V>, uses: seq<Use<K, V>>, ghost h: seq<Use<K, V>>)
    requires cache.maxEntries > 0 && cache.values == After(h, cache.ttlMs, cache.maxEntries)
    modifies cache
    ensures cache.values == After(h + uses, cache.ttlMs, cache.maxEntries)
  {
    assert h + uses[..0] == h;
    for i := 0 to |uses|
      invariant cache.values == After(h + uses[..i], cache.ttlMs, cache.maxEntries)
    {
      AfterOneMore(h + uses[..i], uses[i], cache.ttlMs, cache.maxEntries);
      assert h + uses[..i + 1] == h + uses[..i] + [uses[i]];
      match uses[i] {
        case Got(key, time) => var _ := cache.Get(key, time);
        case Put(key, value, time) => cache.Set(key, value, time);
      }
    }
    assert uses[..|uses|] == uses;
  }

  /**
   ToolRouter.call around a dispatch that would answer `computed` at `answered`: the tool is
   dispatched exactly when the last answer under this key is not fresh any more. While it is
   dispatched, other calls, among them those it makes itself, use the cache as in `between`.
   */
  method Call<K(==), V>(cache: IdempotencyCache<K, V>, key: K, asked: int, between: seq<Use<K, V>>, answered: int, computed: V,
                        ghost h: seq<Use<K, V>>)
    returns (result: V, dispatched: bool, ghost later: seq<Use<K, V>>)
    requires cache.ttlMs > 0 && cache.maxEntries > 0 && Ordered(h, asked)
    requires Ordered(h + [Got(key, asked)] + between, answered)
    requires cache.values == After(h, cache.ttlMs, cache.maxEntries)
    modifies cache
    ensures cache.values == After(later, cache.ttlMs, cache.maxEntries)
    ensures later == h + [Got(key, asked)] + if dispatched then between + [Put(key, computed, answered)] else []
    ensures Ordered(later, if dispatched then answered else asked)
    ensures dispatched <==> !Fresh(LastOf(h, key), asked, cache.ttlMs, cache.maxEntries)
    ensures result == if dispatched then computed else LastOf(h, key).value
    ensures LastOf(later, key) == if dispatched then Last(computed, answered, {}) else LastOf(h, key)
  {
    GetReturnsLastPut(h, key, asked, cache.ttlMs, cache.maxEntries);
    AfterOneMore(h, Got(key, asked), cache.ttlMs, cache.maxEntries);
    var cached := cache.Get(key, asked);
    later := h + [Got(key, asked)];
    assert later[..|h|] == h;
    if cached.Some? { return cached.value, false, later; }
    Perform(cache, between, later);
    ghost var before := later + between;
    AfterOneMore(before, Put(key, computed, answered), cache.ttlMs, cache.maxEntries);
    cache.Set(key, computed, answered);
    Regroup(h + [Got(key, asked)], between, [Put(key, computed, answered)]);
    later := before + [Put(key, computed, answered)];
    assert later[..|before|] == before;
    return computed, true, later;
  }

  /** The cache key of a tool name and a request id. */
  function CacheKey(name: Text, requestId: Text): Text {
    name + [COLON] + requestId
  }

  /** Names without a colon keep the answers of different tools and requests apart. */
  lemma {:induction false} CacheKeysDiffer(n: Text, r: Text, m: Text, q: Text)
    requires COLON !in n && COLON !in m
    ensures CacheKey(n, r) == CacheKey(m, q) ==> n == m && r == q
  {
    var a, b := CacheKey(n, r), CacheKey(m, q);
    if n != [] && m != [] {
      CacheKeysDiffer(n[1..], r, m[1..], q);
      assert a[1..] == CacheKey(n[1..], r) && b[1..] == CacheKey(m[1..], q);
      assert a[0] == n[0] && b[0] == m[0] && n == [n[0]] + n[1..] && m == [m[0]] + m[1..];
    } else {
      assert (n == [] ==> a[0] == COLON && a[1..] == r) && (m == [] ==> b[0] == COLON && b[1..] == q);
      assert (n != [] ==> a[0] == n[0]) && (m != [] ==> b[0] == m[0]);
    }
  }
}
