/** The kinds of item referenced last, for any notion of two items being of the
    same kind. */
module Recency {
  type Same<!T> = (T, T) -> bool

  ghost predicate Equivalence<T(!new)>(same: Same<T>) {
    && (forall t :: same(t, t))
    && (forall t, u :: same(t, u) ==> same(u, t))
    && (forall t, u, v :: same(t, u) && same(u, v) ==> same(t, v))
  }

  /** The last reference to an item of a kind. */
  ghost predicate LastAt<T(!new)>(same: Same<T>, refs: seq<T>, t: T, p: nat) {
    p < |refs| && same(t, refs[p]) && forall q :: p < q < |refs| ==> !same(t, refs[q])
  }

  ghost predicate Has<T(!new)>(same: Same<T>, dq: seq<T>, t: T) {
    exists i :: 0 <= i < |dq| && same(dq[i], t)
  }

  ghost predicate Newer(at: seq<nat>, q: nat) {
    forall i :: 0 <= i < |at| ==> at[i] > q
  }

  ghost predicate Decreasing(at: seq<nat>) {
    forall i, j :: 0 <= i < j < |at| ==> at[i] > at[j]
  }

  ghost predicate AllLast<T(!new)>(same: Same<T>, refs: seq<T>, dq: seq<T>, at: seq<nat>)
    requires |at| == |dq|
  {
    forall i :: 0 <= i < |dq| ==> LastAt(same, refs, dq[i], at[i])
  }

  /** Every reference is to a kind that is held, or is older than all that are. */
  ghost predicate Covered<T(!new)>(same: Same<T>, t: T, q: nat, dq: seq<T>, csize: nat, at: seq<nat>) {
    Has(same, dq, t) || (|dq| == csize && Newer(at, q))
  }

  ghost predicate Complete<T(!new)>(same: Same<T>, refs: seq<T>, dq: seq<T>, csize: nat, at: seq<nat>) {
    forall q :: 0 <= q < |refs| ==> Covered(same, refs[q], q, dq, csize, at)
  }

  /** The `csize` kinds referenced last, newest first; `at` says when each was. Any
      other kind was last referenced before all of them, and there is none when
      there are fewer than `csize`. */
  ghost predicate MostRecent<T(!new)>(same: Same<T>, refs: seq<T>, dq: seq<T>, csize: nat, at: seq<nat>) {
    && |at| == |dq| <= csize
    && AllLast(same, refs, dq, at) && Decreasing(at) && Complete(same, refs, dq, csize, at)
  }

  lemma Distinct<T(!new)>(same: Same<T>, refs: seq<T>, dq: seq<T>, at: seq<nat>, i: nat, j: nat)
    requires Equivalence(same) && |at| == |dq| && AllLast(same, refs, dq, at) && Decreasing(at)
    requires i < |dq| && j < |dq| && i != j
    ensures !same(dq[i], dq[j])
  {
    assert LastAt(same, refs, dq[i], at[i]) && LastAt(same, refs, dq[j], at[j]);
    assert at[i] != at[j];
  }

  function MovedToFront<T>(s: seq<T>, j: nat, x: T): (r: seq<T>)
    requires j < |s|
    ensures |r| == |s| && r[0] == x
    ensures forall i :: 0 < i < |r| ==> r[i] == s[if i <= j then i - 1 else i]
  {
    [x] + s[..j] + s[j + 1..]
  }

  function Kept<T>(s: seq<T>, csize: nat): (r: seq<T>)
    requires 0 < csize && |s| <= csize
    ensures r <= s && |r| == if |s| == csize then csize - 1 else |s|
  {
    if |s| == csize then s[..csize - 1] else s
  }

  function Pushed<T>(s: seq<T>, csize: nat, x: T): (r: seq<T>)
    requires 0 < csize && |s| <= csize
    ensures |r| == (if |s| == csize then csize else |s| + 1) && r[0] == x
    ensures forall i :: 0 < i < |r| ==> r[i] == s[i - 1]
  {
    [x] + Kept(s, csize)
  }

  // ---- One more reference ----------------------------------------------------------------

  lemma LastStill<T(!new)>(same: Same<T>, refs: seq<T>, x: T, t: T, p: nat)
    requires LastAt(same, refs, t, p) && !same(t, x)
    ensures LastAt(same, refs + [x], t, p)
  {
  }

  lemma LastNow<T(!new)>(same: Same<T>, refs: seq<T>, x: T, t: T)
    requires same(t, x)
    ensures LastAt(same, refs + [x], t, |refs|)
  {
  }

  lemma Before<T(!new)>(same: Same<T>, refs: seq<T>, dq: seq<T>, at: seq<nat>, i: nat)
    requires |at| == |dq| && AllLast(same, refs, dq, at) && i < |dq|
    ensures at[i] < |refs| && same(dq[i], refs[at[i]])
  {
    assert LastAt(same, refs, dq[i], at[i]);
  }

  /** Kinds that stay keep their last reference. */
  lemma AllLastStill<T(!new)>(same: Same<T>, refs: seq<T>, x: T, dq: seq<T>, at: seq<nat>, e: seq<T>, b: seq<nat>)
    requires |at| == |dq| && AllLast(same, refs, dq, at)
    requires |e| == |b| > 0 && b[0] == |refs| && same(e[0], x)
    requires forall i :: 0 < i < |e| ==> exists k :: 0 <= k < |dq| && e[i] == dq[k] && b[i] == at[k]
    requires forall i :: 0 < i < |e| ==> !same(e[i], x)
    ensures AllLast(same, refs + [x], e, b)
  {
    forall i | 0 <= i < |e| ensures LastAt(same, refs + [x], e[i], b[i]) {
      if i == 0 {
        LastNow(same, refs, x, e[0]);
      } else {
        var k :| 0 <= k < |dq| && e[i] == dq[k] && b[i] == at[k];
        LastStill(same, refs, x, e[i], b[i]);
      }
    }
  }

  lemma HitLast<T(!new)>(same: Same<T>, refs: seq<T>, dq: seq<T>, at: seq<nat>, x: T, j: nat)
    requires Equivalence(same) && |at| == |dq| && AllLast(same, refs, dq, at) && Decreasing(at)
    requires j < |dq| && same(dq[j], x)
    ensures AllLast(same, refs + [x], MovedToFront(dq, j, dq[j]), MovedToFront(at, j, |refs|))
  {
    var e, b := MovedToFront(dq, j, dq[j]), MovedToFront(at, j, |refs|);
    forall i | 0 < i < |e|
      ensures !same(e[i], x)
      ensures exists k :: 0 <= k < |dq| && e[i] == dq[k] && b[i] == at[k]
    {
      var k := if i <= j then i - 1 else i;
      Distinct(same, refs, dq, at, k, j);
      assert e[i] == dq[k] && b[i] == at[k];
    }
    AllLastStill(same, refs, x, dq, at, e, b);
  }

  lemma HitDecreasing(at: seq<nat>, j: nat, n: nat)
    requires j < |at| && Decreasing(at) && forall i :: 0 <= i < |at| ==> at[i] < n
    ensures Decreasing(MovedToFront(at, j, n))
  {
  }

  lemma HitCovered<T(!new)>(same: Same<T>, t: T, q: nat, dq: seq<T>, csize: nat, at: seq<nat>, j: nat, n: nat)
    requires |at| == |dq| && j < |dq| && Covered(same, t, q, dq, csize, at) && q < n
    ensures Covered(same, t, q, MovedToFront(dq, j, dq[j]), csize, MovedToFront(at, j, n))
  {
    var e := MovedToFront(dq, j, dq[j]);
    if Has(same, dq, t) {
      var k :| 0 <= k < |dq| && same(dq[k], t);
      var i := if k == j then 0 else if k < j then k + 1 else k;
      assert e[i] == dq[k];
    }
  }

  /** An item of a kind that is held moves to the front. */
  lemma Hit<T(!new)>(same: Same<T>, refs: seq<T>, dq: seq<T>, csize: nat, at: seq<nat>, x: T, j: nat)
    requires Equivalence(same) && MostRecent(same, refs, dq, csize, at) && j < |dq| && same(dq[j], x)
    ensures MostRecent(same, refs + [x], MovedToFront(dq, j, dq[j]), csize, MovedToFront(at, j, |refs|))
  {
    var e, b := MovedToFront(dq, j, dq[j]), MovedToFront(at, j, |refs|);
    HitLast(same, refs, dq, at, x, j);
    forall i | 0 <= i < |at| ensures at[i] < |refs| {
      Before(same, refs, dq, at, i);
    }
    HitDecreasing(at, j, |refs|);
    forall q | 0 <= q < |refs + [x]| ensures Covered(same, (refs + [x])[q], q, e, csize, b) {
      if q == |refs| {
        assert same(e[0], x);
      } else {
        HitCovered(same, refs[q], q, dq, csize, at, j, |refs|);
      }
    }
  }

  lemma MissLast<T(!new)>(same: Same<T>, refs: seq<T>, dq: seq<T>, csize: nat, at: seq<nat>, x: T, y: T)
    requires 0 < csize && |at| == |dq| <= csize && AllLast(same, refs, dq, at) && !Has(same, dq, x) && same(y, x)
    ensures AllLast(same, refs + [x], Pushed(dq, csize, y), Pushed(at, csize, |refs|))
  {
    var e, b := Pushed(dq, csize, y), Pushed(at, csize, |refs|);
    forall i | 0 < i < |e|
      ensures !same(e[i], x)
      ensures exists k :: 0 <= k < |dq| && e[i] == dq[k] && b[i] == at[k]
    {
      assert e[i] == dq[i - 1] && b[i] == at[i - 1];
    }
    AllLastStill(same, refs, x, dq, at, e, b);
  }

  lemma MissDecreasing(at: seq<nat>, csize: nat, n: nat)
    requires 0 < csize && |at| <= csize && Decreasing(at) && forall i :: 0 <= i < |at| ==> at[i] < n
    ensures Decreasing(Pushed(at, csize, n))
  {
  }

  /** A kind that is pushed out was last referenced before all that stay. */
  lemma PushedOut<T(!new)>(same: Same<T>, refs: seq<T>, dq: seq<T>, csize: nat, at: seq<nat>, q: nat)
    requires |at| == |dq| == csize > 0 && AllLast(same, refs, dq, at) && Decreasing(at)
    requires q < |refs| && same(dq[csize - 1], refs[q])
    ensures Newer(Pushed(at, csize, |refs|), q)
  {
    assert LastAt(same, refs, dq[csize - 1], at[csize - 1]);
    assert q <= at[csize - 1];
    var b := Pushed(at, csize, |refs|);
    forall i | 0 <= i < |b| ensures b[i] > q {
      if i > 0 {
        assert b[i] == at[i - 1] > at[csize - 1];
      }
    }
  }

  lemma MissCovered<T(!new)>(same: Same<T>, refs: seq<T>, dq: seq<T>, csize: nat, at: seq<nat>, y: T, q: nat)
    requires 0 < csize && |at| == |dq| <= csize && AllLast(same, refs, dq, at) && Decreasing(at)
    requires q < |refs| && Covered(same, refs[q], q, dq, csize, at)
    ensures Covered(same, refs[q], q, Pushed(dq, csize, y), csize, Pushed(at, csize, |refs|))
  {
    var e := Pushed(dq, csize, y);
    if Has(same, dq, refs[q]) {
      var k :| 0 <= k < |dq| && same(dq[k], refs[q]);
      if k + 1 < |e| {
        assert e[k + 1] == dq[k];
      } else {
        PushedOut(same, refs, dq, csize, at, q);
      }
    }
  }

  /** Another item comes to the front; the oldest makes room for it. */
  lemma Miss<T(!new)>(same: Same<T>, refs: seq<T>, dq: seq<T>, csize: nat, at: seq<nat>, x: T, y: T)
    requires 0 < csize && MostRecent(same, refs, dq, csize, at) && !Has(same, dq, x) && same(y, x)
    ensures MostRecent(same, refs + [x], Pushed(dq, csize, y), csize, Pushed(at, csize, |refs|))
  {
    var e, b := Pushed(dq, csize, y), Pushed(at, csize, |refs|);
    MissLast(same, refs, dq, csize, at, x, y);
    forall i | 0 <= i < |at| ensures at[i] < |refs| {
      Before(same, refs, dq, at, i);
    }
    MissDecreasing(at, csize, |refs|);
    forall q | 0 <= q < |refs + [x]| ensures Covered(same, (refs + [x])[q], q, e, csize, b) {
      if q == |refs| {
        assert same(e[0], x);
      } else {
        MissCovered(same, refs, dq, csize, at, y, q);
      }
    }
  }

  /** An item of a kind that is held moves to the front. */
  ghost predicate Moves<T(!new)>(dq: seq<T>, j: nat, r: T, after: seq<T>) {
    j < |dq| && r == dq[j] && after == MovedToFront(dq, j, r)
  }

  /** What a reference does to the list: an item of a kind that is held moves to the
      front, or one comes to the front and the oldest makes room for it. */
  ghost predicate Referred<T(!new)>(same: Same<T>, dq: seq<T>, x: T, r: T, after: seq<T>, csize: nat)
    requires 0 < csize && |dq| <= csize
  {
    if Has(same, dq, x) then exists j :: Moves(dq, j, r, after) else after == Pushed(dq, csize, r)
  }

  ghost predicate Recent<T(!new)>(same: Same<T>, refs: seq<T>, dq: seq<T>, csize: nat) {
    exists at :: MostRecent(same, refs, dq, csize, at)
  }

  lemma MoveKeepsRecent<T(!new)>(same: Same<T>, refs: seq<T>, dq: seq<T>, csize: nat, at: seq<nat>,
                                   x: T, j: nat, r: T, after: seq<T>)
    requires Equivalence(same) && MostRecent(same, refs, dq, csize, at) && same(r, x) && Moves(dq, j, r, after)
    ensures Recent(same, refs + [x], after, csize)
  {
    Hit(same, refs, dq, csize, at, x, j);
  }

  lemma PushKeepsRecent<T(!new)>(same: Same<T>, refs: seq<T>, dq: seq<T>, csize: nat, at: seq<nat>, x: T, r: T)
    requires 0 < csize && MostRecent(same, refs, dq, csize, at) && !Has(same, dq, x) && same(r, x)
    ensures Recent(same, refs + [x], Pushed(dq, csize, r), csize)
  {
    Miss(same, refs, dq, csize, at, x, r);
  }

  /** Every reference keeps the list the most recent kinds. */
  lemma ReferredKeepsRecent<T(!new)>(same: Same<T>, refs: seq<T>, dq: seq<T>, csize: nat, x: T, r: T, after: seq<T>)
    requires Equivalence(same) && 0 < csize && |dq| <= csize && Recent(same, refs, dq, csize) && same(r, x)
    requires Referred(same, dq, x, r, after, csize)
    ensures Recent(same, refs + [x], after, csize)
  {
    var at :| MostRecent(same, refs, dq, csize, at);
    if Has(same, dq, x) {
      var j :| Moves(dq, j, r, after);
      MoveKeepsRecent(same, refs, dq, csize, at, x, j, r, after);
    } else {
      PushKeepsRecent(same, refs, dq, csize, at, x, r);
    }
  }

  lemma NothingIsRecent<T(!new)>(same: Same<T>, csize: nat)
    ensures Recent(same, [], [], csize)
  {
    assert MostRecent(same, [], [], csize, []);
  }
}
