/**
 * What the edits of the in-process bridge do to a text: positions count from one, an edit can be taken
 * back by another, and replacing cuts the text at the occurrences found from the left.
 */
module BridgeEdits {
  import opened Bridge
  import opened CodeUnits
  import opened Wrappers

  /** Positions count from one; within the buffer an edit replaces exactly what stands between two of them. */
  lemma {:induction false} EditMeans(t: Text, start: int, end: int, x: Text)
    requires 1 <= start <= end <= |t| + 1
    ensures Edited(t, ReplaceRange(Some(start), Some(end), x)) == t[..start - 1] + x + t[end - 1..]
    ensures Edited(t, DeleteRange(Some(start), Some(end))) == t[..start - 1] + t[end - 1..]
    ensures Edited(t, Insert(Some(start), x)) == t[..start - 1] + x + t[start - 1..]
    ensures Edited(t, Insert(None, x)) == x + t
  {
    assert t[..0] == [] && t[0..] == t && [] + x + t == x + t;
  }

  /** What was inserted can be deleted again. */
  lemma {:induction false} DeleteUndoesInsert(t: Text, at: int, x: Text)
    requires 1 <= at <= |t| + 1
    ensures Edited(Edited(t, Insert(Some(at), x)), DeleteRange(Some(at), Some(at + |x|))) == t
  {
    var u := t[..at - 1] + x + t[at - 1..];
    EditMeans(t, at, at, x);
    EditMeans(u, at, at + |x|, []);
    assert u[..at - 1] == t[..at - 1] && u[at - 1 + |x|..] == t[at - 1..];
    assert t[..at - 1] + t[at - 1..] == t;
  }

  /** A range that was replaced can be put back. */
  lemma {:induction false} ReplaceUndoesReplace(t: Text, start: int, end: int, x: Text)
    requires 1 <= start <= end <= |t| + 1
    ensures var changed := Edited(t, ReplaceRange(Some(start), Some(end), x));
            Edited(changed, ReplaceRange(Some(start), Some(start + |x|), t[start - 1..end - 1])) == t
  {
    var a, m, b := t[..start - 1], t[start - 1..end - 1], t[end - 1..];
    var u := Edited(t, ReplaceRange(Some(start), Some(end), x));
    EditMeans(t, start, end, x);
    Parts(a, x, b);
    EditMeans(u, start, start + |x|, m);
    assert a + m + b == t;
  }

  lemma {:induction false} Parts(a: Text, x: Text, b: Text)
    ensures (a + x + b)[..|a|] == a && (a + x + b)[|a| + |x|..] == b
  {}

  /** Position zero counts from the end: an insertion lands in front of the last unit. */
  lemma {:induction false} InsertAtZero(t: Text, x: Text)
    requires t != []
    ensures Edited(t, Insert(Some(0), x)) == t[..|t| - 1] + x + [t[|t| - 1]]
  {}

  function JoinWith(pieces: seq<Text>, separator: Text): Text {
    if pieces == [] then []
    else if |pieces| == 1 then pieces[0]
    else pieces[0] + separator + JoinWith(pieces[1..], separator)
  }

  predicate OccursAt(t: Text, from: Text, i: nat) {
    i + |from| <= |t| && t[i..i + |from|] == from
  }

  /** Cut at the first occurrence each time: `from` does not start within a piece, even where the separator follows. */
  ghost predicate CutAtFirst(pieces: seq<Text>, from: Text) {
    forall k | 0 <= k < |pieces| :: NoneWithin(pieces[k], if k + 1 < |pieces| then from else [], from)
  }

  ghost predicate NoneWithin(piece: Text, behind: Text, from: Text) {
    forall i: nat | i < |piece| :: !OccursAt(piece + behind, from, i)
  }

  lemma {:induction false} JoinFirst(piece: Text, rest: seq<Text>, separator: Text)
    requires rest != []
    ensures JoinWith([piece] + rest, separator) == piece + separator + JoinWith(rest, separator)
  {
    assert ([piece] + rest)[1..] == rest;
  }

  lemma {:induction false} CutsFirst(piece: Text, rest: seq<Text>, from: Text)
    requires rest != [] && CutAtFirst(rest, from) && NoneWithin(piece, from, from)
    ensures CutAtFirst([piece] + rest, from)
  {
    var all := [piece] + rest;
    forall k | 0 <= k < |all| ensures NoneWithin(all[k], if k + 1 < |all| then from else [], from) {
      if k > 0 { assert all[k] == rest[k - 1]; }
    }
  }

  lemma {:induction false} FrontHolds(front: Text, t: Text, from: Text)
    requires front <= t
    ensures OccursAt(front, from, 0) ==> from <= t
  {
    if OccursAt(front, from, 0) { assert t[..|from|] == front[..|from|] == from; }
  }

  /** The piece at the front grows by one unit at which no occurrence starts. */
  lemma {:induction false} GrowFirst(u: CodeUnit, pieces: seq<Text>, from: Text, t: Text)
    requires pieces != [] && from != [] && CutAtFirst(pieces, from) && JoinWith(pieces, from) == t && !(from <= [u] + t)
    ensures CutAtFirst([[u] + pieces[0]] + pieces[1..], from)
  {
    var first := [u] + pieces[0];
    var behind := if |pieces| > 1 then from else [];
    FrontOfJoin(pieces, from);
    assert first + behind == [u] + (pieces[0] + behind);
    assert first + behind <= [u] + t;
    FrontHolds(first + behind, [u] + t, from);
    forall i: nat | i < |first| ensures !OccursAt(first + behind, from, i) {
      if i > 0 && OccursAt(first + behind, from, i) {
        assert (first + behind)[i..i + |from|] == (pieces[0] + behind)[i - 1..i - 1 + |from|];
        assert OccursAt(pieces[0] + behind, from, i - 1);
      }
    }
    var all := [first] + pieces[1..];
    forall k | 0 <= k < |all| ensures NoneWithin(all[k], if k + 1 < |all| then from else [], from) {
      if k > 0 { assert all[k] == pieces[k]; }
    }
  }

  lemma {:induction false} FrontOfJoin(pieces: seq<Text>, from: Text)
    requires pieces != []
    ensures pieces[0] + (if |pieces| > 1 then from else []) <= JoinWith(pieces, from)
  {}

  lemma {:induction false} JoinGrown(u: CodeUnit, pieces: seq<Text>, separator: Text)
    requires pieces != []
    ensures JoinWith([[u] + pieces[0]] + pieces[1..], separator) == [u] + JoinWith(pieces, separator)
  {
    var all := [[u] + pieces[0]] + pieces[1..];
    assert all[1..] == pieces[1..];
  }

  lemma {:induction false} OneMoreUnit(u: CodeUnit, rest: seq<Text>, from: Text, to: Text, t: Text) returns (pieces: seq<Text>)
    requires rest != [] && from != [] && CutAtFirst(rest, from) && JoinWith(rest, from) == t && !(from <= [u] + t)
    ensures pieces != [] && CutAtFirst(pieces, from)
    ensures JoinWith(pieces, from) == [u] + t && JoinWith(pieces, to) == [u] + JoinWith(rest, to)
  {
    pieces := [[u] + rest[0]] + rest[1..];
    JoinGrown(u, rest, from);
    JoinGrown(u, rest, to);
    GrowFirst(u, rest, from, t);
  }

  lemma {:induction false} OneMoreCut(rest: seq<Text>, from: Text, to: Text) returns (pieces: seq<Text>)
    requires rest != [] && from != [] && CutAtFirst(rest, from)
    ensures pieces != [] && CutAtFirst(pieces, from)
    ensures JoinWith(pieces, from) == from + JoinWith(rest, from) && JoinWith(pieces, to) == to + JoinWith(rest, to)
  {
    pieces := [[]] + rest;
    JoinFirst([], rest, from);
    JoinFirst([], rest, to);
    CutsFirst([], rest, from);
    assert [] + from == from && [] + to == to;
  }

  /** Replacing cuts the text at the occurrences of the old text, found from the left, and joins the pieces with the new one. */
  lemma {:induction false} ReplaceAllMeans(t: Text, from: Text, to: Text) returns (pieces: seq<Text>)
    requires from != []
    ensures pieces != [] && CutAtFirst(pieces, from)
    ensures JoinWith(pieces, from) == t && JoinWith(pieces, to) == ReplaceAll(t, from, to)
    decreases |t|
  {
    if t == [] {
      pieces := [[]];
    } else if from <= t {
      var rest := ReplaceAllMeans(t[|from|..], from, to);
      assert from + t[|from|..] == t;
      pieces := OneMoreCut(rest, from, to);
    } else {
      var rest := ReplaceAllMeans(t[1..], from, to);
      assert [t[0]] + t[1..] == t;
      pieces := OneMoreUnit(t[0], rest, from, to, t[1..]);
    }
  }
}
