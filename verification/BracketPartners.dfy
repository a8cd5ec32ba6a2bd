/**
 Which brackets belong together when shapes are ignored: a closing bracket closes the last
 opening one that is still open. Said with heights, without a stack.
 */
module BracketPartners {
  import opened BracketWords
  import opened CodeUnits

  /** Openers minus closers among the first `n` units; other units do not count. */
  ghost function Height(w: Text, n: nat): int
    requires n <= |w|
  {
    if n == 0 then 0 else Height(w, n - 1) + (if IsOpener(w[n - 1]) then 1 else if IsCloser(w[n - 1]) then -1 else 0)
  }

  /** The opener at `j` has not been closed in front of `i`: the height never came back to where it stood. */
  ghost predicate OpenAt(w: Text, j: nat, i: nat) {
    j < i <= |w| && IsOpener(w[j]) && forall k | j < k <= i :: Height(w, k) > Height(w, j)
  }

  /** The closer at `i` closes the opener at `j`, whether or not their shapes agree. */
  ghost predicate Partners(w: Text, j: nat, i: nat) {
    i < |w| && OpenAt(w, j, i) && IsCloser(w[i]) && Height(w, i + 1) == Height(w, j)
  }

  ghost predicate HasPartner(w: Text, i: nat) { exists j: nat :: Partners(w, j, i) }

  lemma {:induction false} OnePartner(w: Text, j: nat, k: nat, i: nat)
    requires Partners(w, j, i) && Partners(w, k, i)
    ensures j == k
  {
    assert Height(w, j) == Height(w, i + 1) == Height(w, k);
  }

  /** The places of the brackets still open in front of `i`, from the outside in. */
  ghost predicate AreOpen(w: Text, open: seq<nat>, i: nat) {
    && i <= |w|
    && (forall j: nat :: OpenAt(w, j, i) <==> j in open)
    && Ascending(open)
    && forall k | 0 <= k < |open| :: open[k] < i && Height(w, open[k]) == Height(w, i) - (|open| - k)
  }

  lemma {:induction false} StillOpen(w: Text, j: nat, i: nat)
    requires i < |w| && j < i
    ensures OpenAt(w, j, i + 1) <==> OpenAt(w, j, i) && Height(w, i + 1) > Height(w, j)
  {}

  lemma {:induction false} OthersStay(w: Text, open: seq<nat>, i: nat)
    requires i < |w| && AreOpen(w, open, i) && !IsBracket(w[i])
    ensures AreOpen(w, open, i + 1)
  {
    forall j: nat ensures OpenAt(w, j, i + 1) <==> j in open {
      if j < i { StillOpen(w, j, i); }
    }
  }

  lemma {:induction false} OneMoreOpen(w: Text, open: seq<nat>, i: nat)
    requires i < |w| && AreOpen(w, open, i) && IsOpener(w[i])
    ensures AreOpen(w, open + [i], i + 1)
  {
    forall j: nat ensures OpenAt(w, j, i + 1) <==> j in open + [i] {
      if j < i { StillOpen(w, j, i); }
    }
  }

  lemma {:induction false} NoneOpen(w: Text, open: seq<nat>, i: nat)
    requires i < |w| && AreOpen(w, open, i) && open == [] && IsCloser(w[i])
    ensures AreOpen(w, open, i + 1) && !HasPartner(w, i)
  {
    forall j: nat ensures OpenAt(w, j, i + 1) <==> j in open {
      if j < i { StillOpen(w, j, i); }
    }
  }

  lemma {:induction false} LastIsClosed(w: Text, open: seq<nat>, i: nat)
    requires i < |w| && AreOpen(w, open, i) && open != [] && IsCloser(w[i])
    ensures AreOpen(w, open[..|open| - 1], i + 1) && Partners(w, open[|open| - 1], i)
  {
    var below, last := open[..|open| - 1], open[|open| - 1];
    assert last in open && OpenAt(w, last, i);
    forall j: nat ensures OpenAt(w, j, i + 1) <==> j in below {
      if j < i { StillOpen(w, j, i); }
      if j in below {
        var k :| 0 <= k < |below| && below[k] == j;
        assert open[k] == j && j in open;
      }
      if OpenAt(w, j, i + 1) {
        assert j < i && j in open;
        var k :| 0 <= k < |open| && open[k] == j;
        assert k < |below| && below[k] == j;
      }
    }
  }

  /** The places of the openers in front of `n` that are never closed, the last first. */
  ghost function LastFirst(w: Text, n: nat): (r: seq<nat>)
    requires n <= |w|
    ensures forall k | 0 <= k < |r| :: r[k] < n && OpenAt(w, r[k], |w|)
  {
    if n == 0 then [] else (if OpenAt(w, n - 1, |w|) then [n - 1] else []) + LastFirst(w, n - 1)
  }

  ghost predicate Ascending(places: seq<nat>) {
    forall k, l | 0 <= k < l < |places| :: places[k] < places[l]
  }

  lemma {:induction false} LastIsGreatest(places: seq<nat>, n: nat)
    requires Ascending(places) && n in places && forall k | 0 <= k < |places| :: places[k] <= n
    ensures places[|places| - 1] == n && Ascending(places[..|places| - 1])
    ensures forall j: nat :: j in places[..|places| - 1] <==> j in places && j != n
  {
    var below, last := places[..|places| - 1], places[|places| - 1];
    var at :| 0 <= at < |places| && places[at] == n;
    assert last <= n;
    assert places == below + [n];
    forall k | 0 <= k < |below| ensures below[k] < n { assert below[k] == places[k] < last; }
  }

  lemma {:induction false} LastFirstStep(w: Text, n: nat)
    requires 0 < n <= |w|
    ensures LastFirst(w, n) == if OpenAt(w, n - 1, |w|) then [n - 1] + LastFirst(w, n - 1) else LastFirst(w, n - 1)
  {
    assert [] + LastFirst(w, n - 1) == LastFirst(w, n - 1);
  }

  ghost predicate Reverses(r: seq<nat>, places: seq<nat>) {
    |r| == |places| && forall l | 0 <= l < |r| :: r[l] == places[|places| - 1 - l]
  }

  lemma {:induction false} ReversesOneMore(r: seq<nat>, places: seq<nat>)
    requires places != [] && Reverses(r, places[..|places| - 1])
    ensures Reverses([places[|places| - 1]] + r, places)
  {}

  lemma {:induction false} AllInFront(places: seq<nat>, n: nat)
    requires forall j: nat :: j in places ==> j < n
    ensures forall k | 0 <= k < |places| :: places[k] < n
    ensures places != [] ==> n > 0
  {
    if places != [] { assert places[0] in places; }
    forall k | 0 <= k < |places| ensures places[k] < n { assert places[k] in places; }
  }

  lemma {:induction false} LastFirstOf(w: Text, places: seq<nat>, n: nat)
    requires n <= |w| && Ascending(places)
    requires forall j: nat :: j in places <==> j < n && OpenAt(w, j, |w|)
    ensures Reverses(LastFirst(w, n), places)
  {
    AllInFront(places, n);
    if n == 0 {
      assert LastFirst(w, n) == [];
    } else if n - 1 in places {
      LastFirstStep(w, n);
      LastIsGreatest(places, n - 1);
      LastFirstOf(w, places[..|places| - 1], n - 1);
      ReversesOneMore(LastFirst(w, n - 1), places);
    } else {
      LastFirstStep(w, n);
      LastFirstOf(w, places, n - 1);
    }
  }

  lemma {:induction false} LastFirstIs(w: Text, open: seq<nat>)
    requires AreOpen(w, open, |w|)
    ensures Reverses(LastFirst(w, |w|), open)
  {
    LastFirstOf(w, open, |w|);
  }
}
