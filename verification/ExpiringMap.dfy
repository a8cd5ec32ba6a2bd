/**
 A map in insertion order whose entries expire, as the bounded caches of the server keep it.
 */
module ExpiringMap {
  import opened Sequences
  import opened Wrappers

  datatype Entry<K, V> = Entry(key: K, value: V, expiresAt: int)

  ghost function Keys<K, V>(es: seq<Entry<K, V>>): set<K> {
    if es == [] then {} else {es[0].key} + Keys(es[1..])
  }

  ghost predicate Distinct<K, V>(es: seq<Entry<K, V>>) {
    es == [] || (es[0].key !in Keys(es[1..]) && Distinct(es[1..]))
  }

  function Remove<K(==), V>(es: seq<Entry<K, V>>, k: K): seq<Entry<K, V>> {
    if es == [] then [] else if es[0].key == k then Remove(es[1..], k) else [es[0]] + Remove(es[1..], k)
  }

  function Unexpired<K, V>(es: seq<Entry<K, V>>, now: int): seq<Entry<K, V>> {
    if es == [] then [] else if now >= es[0].expiresAt then Unexpired(es[1..], now) else [es[0]] + Unexpired(es[1..], now)
  }

  /** The newest entries that leave room for one more. */
  function Trim<K, V>(es: seq<Entry<K, V>>, maxEntries: nat): seq<Entry<K, V>> {
    if |es| < maxEntries || es == [] then es else Trim(es[1..], maxEntries)
  }

  function Find<K(==), V>(es: seq<Entry<K, V>>, k: K): Option<Entry<K, V>> {
    if es == [] then None else if es[0].key == k then Some(es[0]) else Find(es[1..], k)
  }

  method DropExpired<K, V>(es: seq<Entry<K, V>>, now: int) returns (kept: seq<Entry<K, V>>)
    ensures kept == Unexpired(es, now)
  {
    kept := [];
    for i := 0 to |es|
      invariant kept + Unexpired(es[i..], now) == Unexpired(es, now)
    {
      assert es[i..][1..] == es[i + 1..];
      if now < es[i].expiresAt { kept := kept + [es[i]]; }
    }
  }

  /** Delete the oldest entries until there is room for one more. */
  method MakeRoom<K, V>(es: seq<Entry<K, V>>, maxEntries: nat) returns (kept: seq<Entry<K, V>>)
    ensures kept == Trim(es, maxEntries)
  {
    kept := es;
    while |kept| >= maxEntries && kept != []
      invariant Trim(kept, maxEntries) == Trim(es, maxEntries)
    {
      kept := kept[1..];
    }
  }

  /** The entry of `k` at `i`, with exactly one newer entry for each key put since. */
  ghost predicate SplitsAt<K, V>(es: seq<Entry<K, V>>, e: Entry<K, V>, others: set<K>, i: nat) {
    && i < |es| && es[i] == e && Keys(es[i + 1..]) == others && e.key !in Keys(es[..i]) && e.key !in others
    && Later(es[i + 1..], e.expiresAt)
  }

  ghost predicate Later<K, V>(es: seq<Entry<K, V>>, t: int) {
    forall i | 0 <= i < |es| :: es[i].expiresAt >= t
  }

  ghost predicate Present<K, V>(es: seq<Entry<K, V>>, e: Entry<K, V>, others: set<K>) {
    exists i: nat :: SplitsAt(es, e, others, i)
  }

  ghost predicate Absent<K, V>(es: seq<Entry<K, V>>, k: K, now: int) {
    forall i | 0 <= i < |es| && es[i].key == k :: es[i].expiresAt <= now
  }

  lemma {:induction false} KeysConcat<K, V>(a: seq<Entry<K, V>>, b: seq<Entry<K, V>>)
    ensures Keys(a + b) == Keys(a) + Keys(b)
  {
    if a == [] { assert a + b == b; } else { KeysConcat(a[1..], b); assert (a + b)[1..] == a[1..] + b; }
  }

  lemma {:induction false} KeyIn<K, V>(es: seq<Entry<K, V>>, i: nat)
    requires i < |es|
    ensures es[i].key in Keys(es)
  {
    if i > 0 { KeyIn(es[1..], i - 1); }
  }

  lemma {:induction false} DistinctSize<K, V>(es: seq<Entry<K, V>>)
    requires Distinct(es)
    ensures |Keys(es)| == |es|
  {
    if es != [] { DistinctSize(es[1..]); }
  }

  lemma {:induction false} DistinctTail<K, V>(es: seq<Entry<K, V>>, i: nat)
    requires Distinct(es) && i <= |es|
    ensures Distinct(es[i..])
  {
    if i > 0 { DistinctTail(es[1..], i - 1); assert es[1..][i - 1..] == es[i..]; }
  }

  lemma {:induction false} DistinctAppend<K, V>(es: seq<Entry<K, V>>, e: Entry<K, V>)
    requires Distinct(es) && e.key !in Keys(es)
    ensures Distinct(es + [e])
  {
    if es != [] {
      DistinctAppend(es[1..], e);
      assert (es + [e])[1..] == es[1..] + [e];
      KeysConcat(es[1..], [e]);
    }
  }

  lemma {:induction false} RemoveConcat<K, V>(a: seq<Entry<K, V>>, b: seq<Entry<K, V>>, k: K)
    ensures Remove(a + b, k) == Remove(a, k) + Remove(b, k)
  {
    if a == [] {
      assert a + b == b;
    } else {
      RemoveConcat(a[1..], b, k);
      assert (a + b)[1..] == a[1..] + b;
      Regroup([a[0]], Remove(a[1..], k), Remove(b, k));
    }
  }

  lemma {:induction false} UnexpiredConcat<K, V>(a: seq<Entry<K, V>>, b: seq<Entry<K, V>>, now: int)
    ensures Unexpired(a + b, now) == Unexpired(a, now) + Unexpired(b, now)
  {
    if a == [] {
      assert a + b == b;
    } else {
      UnexpiredConcat(a[1..], b, now);
      assert (a + b)[1..] == a[1..] + b;
      Regroup([a[0]], Unexpired(a[1..], now), Unexpired(b, now));
    }
  }

  lemma {:induction false} Removed<K, V>(es: seq<Entry<K, V>>, k: K)
    ensures Keys(Remove(es, k)) == Keys(es) - {k} && (Distinct(es) ==> Distinct(Remove(es, k)))
    ensures k !in Keys(es) ==> Remove(es, k) == es
  {
    if es != [] {
      Removed(es[1..], k);
      assert ([es[0]] + Remove(es[1..], k))[1..] == Remove(es[1..], k);
      assert [es[0]] + es[1..] == es;
    }
  }

  lemma {:induction false} RemoveLater<K, V>(es: seq<Entry<K, V>>, k: K, t: int)
    requires Later(es, t)
    ensures Later(Remove(es, k), t)
  {
    if es != [] {
      assert Later(es[1..], t) by { assert forall i | 0 <= i < |es[1..]| :: es[1..][i] == es[i + 1]; }
      RemoveLater(es[1..], k, t);
    }
  }

  lemma {:induction false} UnexpiredSome<K, V>(es: seq<Entry<K, V>>, now: int)
    ensures Keys(Unexpired(es, now)) <= Keys(es) && (Distinct(es) ==> Distinct(Unexpired(es, now)))
    ensures forall e | e in Unexpired(es, now) :: e in es && now < e.expiresAt
  {
    if es != [] {
      UnexpiredSome(es[1..], now);
      assert ([es[0]] + Unexpired(es[1..], now))[1..] == Unexpired(es[1..], now);
    }
  }

  lemma {:induction false} UnexpiredAll<K, V>(es: seq<Entry<K, V>>, now: int)
    requires Later(es, now + 1)
    ensures Unexpired(es, now) == es
  {
    if es != [] {
      assert Later(es[1..], now + 1) by { assert forall i | 0 <= i < |es[1..]| :: es[1..][i] == es[i + 1]; }
      UnexpiredAll(es[1..], now);
    }
  }

  lemma {:induction false} Trimmed<K, V>(es: seq<Entry<K, V>>, maxEntries: nat)
    requires maxEntries > 0
    ensures Trim(es, maxEntries) == if |es| < maxEntries then es else es[|es| + 1 - maxEntries..]
  {
    if |es| >= maxEntries {
      Trimmed(es[1..], maxEntries);
      if |es| > maxEntries { assert es[1..][|es| - maxEntries..] == es[|es| + 1 - maxEntries..]; } else { assert es[1..] == es[1..]; }
    }
  }

  lemma {:induction false} SplitsApart<K, V>(a: seq<Entry<K, V>>, e: Entry<K, V>, b: seq<Entry<K, V>>, others: set<K>)
    requires Keys(b) == others && e.key !in Keys(a) && e.key !in others && Later(b, e.expiresAt)
    ensures SplitsAt(a + [e] + b, e, others, |a|)
  {
    var es := a + [e] + b;
    assert es[|a| + 1..] == b && es[..|a|] == a;
  }

  /** Expired entries go, the entry of `k` and the newer ones stay. */
  lemma {:induction false} PruneKeepsFresh<K, V>(es: seq<Entry<K, V>>, e: Entry<K, V>, others: set<K>, i: nat, now: int) returns (j: nat)
    requires SplitsAt(es, e, others, i) && now < e.expiresAt
    ensures SplitsAt(Unexpired(es, now), e, others, j)
  {
    var a, b := es[..i], es[i + 1..];
    assert es == a + ([e] + b);
    UnexpiredConcat(a, [e] + b, now);
    UnexpiredAll([e] + b, now);
    UnexpiredSome(a, now);
    var c := Unexpired(a, now);
    SplitsApart(c, e, b, others);
    Regroup(c, [e], b);
    j := |c|;
  }

  lemma {:induction false} RemoveKeepsFresh<K, V>(es: seq<Entry<K, V>>, e: Entry<K, V>, others: set<K>, i: nat, x: K) returns (j: nat)
    requires SplitsAt(es, e, others, i) && x != e.key
    ensures SplitsAt(Remove(es, x), e, others - {x}, j)
  {
    var a, b := es[..i], es[i + 1..];
    assert es == a + ([e] + b);
    RemoveConcat(a, [e] + b, x);
    assert ([e] + b)[1..] == b;
    Removed(a, x);
    Removed(b, x);
    RemoveLater(b, x, e.expiresAt);
    SplitsApart(Remove(a, x), e, Remove(b, x), others - {x});
    assert Remove(es, x) == Remove(a, x) + [e] + Remove(b, x);
    j := |Remove(a, x)|;
  }

  lemma {:induction false} DropOlder<K, V>(es: seq<Entry<K, V>>, e: Entry<K, V>, others: set<K>, i: nat, d: nat)
    requires SplitsAt(es, e, others, i) && d <= i
    ensures Present(es[d..], e, others)
  {
    var cut := es[d..i];
    assert es[..i] == es[..d] + cut;
    KeysConcat(es[..d], cut);
    SplitsApart(cut, e, es[i + 1..], others);
    assert es[d..] == cut + [e] + es[i + 1..];
  }

  lemma {:induction false} DropWithOlder<K, V>(es: seq<Entry<K, V>>, e: Entry<K, V>, others: set<K>, i: nat, d: nat)
    requires SplitsAt(es, e, others, i) && i < d <= |es|
    ensures e.key !in Keys(es[d..])
  {
    assert es[i + 1..] == es[i + 1..d] + es[d..];
    KeysConcat(es[i + 1..d], es[d..]);
  }

  /** Making room pushes the entry of `k` out exactly when the newer ones already fill what is left. */
  lemma {:induction false} TrimKeepsFresh<K, V>(es: seq<Entry<K, V>>, e: Entry<K, V>, others: set<K>, i: nat, maxEntries: nat)
    requires SplitsAt(es, e, others, i) && Distinct(es) && maxEntries > 0
    ensures if |others| + 1 < maxEntries then Present(Trim(es, maxEntries), e, others) else e.key !in Keys(Trim(es, maxEntries))
  {
    DistinctTail(es, i + 1);
    DistinctSize(es[i + 1..]);
    Trimmed(es, maxEntries);
    var d := if |es| < maxEntries then 0 else |es| + 1 - maxEntries;
    assert Trim(es, maxEntries) == es[d..];
    if d <= i { DropOlder(es, e, others, i, d); } else { DropWithOlder(es, e, others, i, d); }
  }

  lemma {:induction false} NoneUnexpired<K, V>(es: seq<Entry<K, V>>, k: K, now: int)
    requires Absent(es, k, now)
    ensures k !in Keys(Unexpired(es, now))
  {
    if es != [] {
      assert Absent(es[1..], k, now) by { assert forall i | 0 <= i < |es[1..]| :: es[1..][i] == es[i + 1]; }
      NoneUnexpired(es[1..], k, now);
      assert ([es[0]] + Unexpired(es[1..], now))[1..] == Unexpired(es[1..], now);
    }
  }

  lemma {:induction false} FindConcat<K, V>(a: seq<Entry<K, V>>, b: seq<Entry<K, V>>, k: K)
    requires k !in Keys(a)
    ensures Find(a + b, k) == Find(b, k)
  {
    if a == [] { assert a + b == b; } else { assert (a + b)[1..] == a[1..] + b; FindConcat(a[1..], b, k); }
  }

  lemma {:induction false} FindLater<K, V>(es: seq<Entry<K, V>>, k: K, t: int)
    requires k in Keys(es) && Later(es, t)
    ensures Find(es, k).Some? && Find(es, k).value.expiresAt >= t
  {
    if es[0].key != k {
      assert Later(es[1..], t) by { assert forall i | 0 <= i < |es[1..]| :: es[1..][i] == es[i + 1]; }
      FindLater(es[1..], k, t);
    }
  }

  lemma {:induction false} DistinctParts<K, V>(a: seq<Entry<K, V>>, b: seq<Entry<K, V>>, k: K)
    requires Distinct(a + b) && k in Keys(b)
    ensures k !in Keys(a)
  {
    if a != [] {
      assert (a + b)[1..] == a[1..] + b;
      KeysConcat(a[1..], b);
      DistinctParts(a[1..], b, k);
    }
  }

  lemma {:induction false} FindFresh<K, V>(es: seq<Entry<K, V>>, e: Entry<K, V>, others: set<K>)
    requires Present(es, e, others)
    ensures Find(es, e.key) == Some(e)
  {
    var i: nat :| SplitsAt(es, e, others, i);
    assert es == es[..i] + ([e] + es[i + 1..]);
    FindConcat(es[..i], [e] + es[i + 1..], e.key);
  }

  /** A newer entry than a fresh one is not found expired. */
  lemma {:induction false} NewerIsFound<K, V>(es: seq<Entry<K, V>>, e: Entry<K, V>, others: set<K>, i: nat, y: K)
    requires SplitsAt(es, e, others, i) && Distinct(es) && y in others
    ensures Find(es, y).Some? && Find(es, y).value.expiresAt >= e.expiresAt
  {
    var a, b := es[..i + 1], es[i + 1..];
    assert es == a + b;
    DistinctParts(a, b, y);
    FindConcat(a, b, y);
    FindLater(b, y, e.expiresAt);
  }

  lemma {:induction false} FindAbsent<K, V>(es: seq<Entry<K, V>>, k: K, now: int)
    requires Absent(es, k, now)
    ensures Find(es, k).Some? ==> Find(es, k).value.expiresAt <= now
  {
    if es != [] {
      assert Absent(es[1..], k, now) by { assert forall i | 0 <= i < |es[1..]| :: es[1..][i] == es[i + 1]; }
      FindAbsent(es[1..], k, now);
    }
  }
}
