/** The cache of the call stacks captured last, and the traces kept behind it. */
module LruCache {
  import opened Classes
  import opened Traces
  import R = Recency

  /** A trace that was allocated; the program hands out references to it. */
  class Entry {
    const value: Trace

    constructor (value: Trace)
      ensures this.value == value
    {
      this.value := value;
    }
  }

  /** A node of the list; an iterator is a reference to one. */
  class Node {
    const trace: Entry

    constructor (trace: Entry)
      ensures this.trace == trace
    {
      this.trace := trace;
    }
  }

  function Compare(): R.Same<Trace> {
    (t, u) => TraceCompare(t, u)
  }

  lemma CompareEquivalence()
    ensures R.Equivalence(Compare())
  {
    forall t, u, v: Trace
      ensures Compare()(t, t) && (Compare()(t, u) ==> Compare()(u, t)) && (Compare()(t, u) && Compare()(u, v) ==> Compare()(t, v))
    {
      CompareIsEquivalence(t, u, v);
    }
  }

  function Values(dq: seq<Node>): (r: seq<Trace>)
    ensures |r| == |dq|
    ensures forall i :: 0 <= i < |dq| ==> r[i] == dq[i].trace.value
  {
    seq(|dq|, i requires 0 <= i < |dq| => dq[i].trace.value)
  }

  /** The map points every trace of the list at its node, and has no other. */
  ghost predicate Linked(dq: seq<Node>, ma: map<Entry, Node>) {
    && (forall n :: n in dq ==> n.trace in ma && ma[n.trace] == n)
    && (forall t :: t in ma ==> ma[t] in dq && ma[t].trace == t)
  }

  type Buckets = map<Word, seq<Entry>>

  /** Traces are in the bucket of their hash, and no two of a bucket compare equal. */
  ghost predicate Sorted(buckets: Buckets) {
    && (forall h, t: Entry :: h in buckets && t in buckets[h] ==> t.value.hashPart1 == h)
    && (forall h :: h in buckets ==> Unequal(buckets[h]))
  }

  ghost predicate Unequal(bucket: seq<Entry>) {
    forall i, j :: 0 <= i < j < |bucket| ==> !TraceCompare(bucket[i].value, bucket[j].value)
  }

  predicate Filed(buckets: Buckets, t: Entry) {
    t.value.hashPart1 in buckets && t in buckets[t.value.hashPart1]
  }

  lemma AddToBucket(buckets: Buckets, bucket: seq<Entry>, r: Entry)
    requires Sorted(buckets)
    requires var h := r.value.hashPart1;
             bucket == if h in buckets then buckets[h] else []
    requires forall k :: 0 <= k < |bucket| ==> !TraceCompare(bucket[k].value, r.value)
    ensures var b := buckets[r.value.hashPart1 := bucket + [r]];
            Sorted(b) && Filed(b, r) && forall t: Entry :: Filed(buckets, t) ==> Filed(b, t)
  {
    var h := r.value.hashPart1;
    var more := bucket + [r];
    var b := buckets[h := more];
    assert more[|bucket|] == r && r in b[h];
    assert Unequal(more);
    forall g, t: Entry | g in b && t in b[g] ensures t.value.hashPart1 == g {
      if g == h && t != r {
        assert t in bucket;
      }
    }
  }

  lemma RemoveNode(dq: seq<Node>, ma: map<Entry, Node>, k: nat)
    requires Linked(dq, ma) && k < |dq|
    requires forall i :: 0 <= i < |dq| && i != k ==> dq[i] != dq[k]
    ensures Linked(dq[..k] + dq[k + 1..], ma - {dq[k].trace})
  {
    var e := dq[..k] + dq[k + 1..];
    forall t | t in ma - {dq[k].trace} ensures ma[t] in e {
      var i :| 0 <= i < |dq| && dq[i] == ma[t];
      assert dq[i] == e[if i < k then i else i - 1];
    }
  }

  lemma PushNode(dq: seq<Node>, ma: map<Entry, Node>, n: Node)
    requires Linked(dq, ma) && n.trace !in ma
    ensures Linked([n] + dq, ma[n.trace := n])
  {
  }

  /** Nodes of the list are different. */
  ghost predicate Unique(dq: seq<Node>) {
    forall i, j :: 0 <= i < j < |dq| ==> dq[i] != dq[j]
  }

  /** What a reference does to the list: a trace that compares equal moves to the
      front, or one comes to the front and the oldest makes room for it. */
  ghost predicate Refers(dq: seq<Trace>, x: Trace, r: Trace, after: seq<Trace>, csize: nat)
    requires 0 < csize && |dq| <= csize
  {
    TraceCompare(r, x) && R.Referred(Compare(), dq, x, r, after, csize)
  }

  class LRUCache {
    const csize: nat
    var hashToTraceMap: Buckets
    var dq: seq<Node>
    var ma: map<Entry, Node>

    ghost predicate Valid()
      reads this
    {
      && 0 < csize && |dq| <= csize
      && Linked(dq, ma) && Unique(dq) && Sorted(hashToTraceMap)
      && forall n :: n in dq ==> Filed(hashToTraceMap, n.trace)
    }

    constructor (csize: nat)
      requires csize > 0
      ensures Valid() && this.csize == csize && dq == []
    {
      this.csize := csize;
      hashToTraceMap, dq, ma := map[], [], map[];
    }

    /** The place in the list of a trace that compares equal. */
    method Search(x: Trace) returns (j: nat)
      ensures j <= |dq| && (j < |dq| ==> TraceCompare(dq[j].trace.value, x))
      ensures j == |dq| ==> !R.Has(Compare(), Values(dq), x)
    {
      j := 0;
      while j < |dq| && !TraceCompare(dq[j].trace.value, x)
        invariant j <= |dq|
        invariant forall i :: 0 <= i < j ==> !Compare()(Values(dq)[i], x)
      {
        j := j + 1;
      }
    }

    /** The trace kept for the call stack, made if there is none in the bucket. */
    method Lookup(x: Trace) returns (r: Entry)
      requires Sorted(hashToTraceMap)
      modifies this`hashToTraceMap
      ensures Sorted(hashToTraceMap) && Filed(hashToTraceMap, r)
      ensures TraceCompare(r.value, x) && r.value.hashPart1 == x.hashPart1
      ensures fresh(r) || (Filed(old(hashToTraceMap), r) && hashToTraceMap == old(hashToTraceMap))
      ensures forall t: Entry :: Filed(old(hashToTraceMap), t) ==> Filed(hashToTraceMap, t)
    {
      var bucket: seq<Entry> := if x.hashPart1 in hashToTraceMap then hashToTraceMap[x.hashPart1] else [];
      for i := 0 to |bucket|
        invariant forall k :: 0 <= k < i ==> !TraceCompare(bucket[k].value, x)
      {
        if TraceCompare(bucket[i].value, x) {
          return bucket[i];
        }
      }
      r := new Entry(x);
      CompareIsEquivalence(x, x, x);
      AddToBucket(hashToTraceMap, bucket, r);
      hashToTraceMap := hashToTraceMap[x.hashPart1 := bucket + [r]];
    }

    /** The oldest trace leaves a list that is full. */
    method EvictIfFull()
      requires 0 < csize && |dq| <= csize && Linked(dq, ma) && Unique(dq)
      modifies this`dq, this`ma
      ensures dq == R.Kept(old(dq), csize) && Linked(dq, ma) && Unique(dq)
    {
      if |dq| == csize {
        RemoveNode(dq, ma, |dq| - 1);
        var last := dq[|dq| - 1];
        dq := dq[..|dq| - 1];
        ma := ma - {last.trace};
      }
    }

    method PushFront(t: Entry)
      requires Linked(dq, ma) && Unique(dq) && t !in ma
      modifies this`dq, this`ma
      ensures Linked(dq, ma) && Unique(dq) && |dq| == |old(dq)| + 1 && dq[0].trace == t && dq[1..] == old(dq)
    {
      var front := new Node(t);
      PushNode(dq, ma, front);
      dq := [front] + dq;
      ma := ma[t := front];
    }

    /** A node leaves the list; its place in the map is taken again at once. */
    method Erase(it: Node) returns (ghost k: nat)
      requires Linked(dq, ma) && Unique(dq) && it in dq
      modifies this`dq, this`ma
      ensures Linked(dq, ma) && Unique(dq) && it.trace !in ma
      ensures k < |old(dq)| && old(dq)[k] == it && dq == old(dq)[..k] + old(dq)[k + 1..]
    {
      var i: nat :| i < |dq| && dq[i] == it;
      RemoveNode(dq, ma, i);
      dq := dq[..i] + dq[i + 1..];
      ma := ma - {it.trace};
      k := i;
    }

    /** A trace that is not in the list comes to its front. */
    method ReferAbsent(x: Trace) returns (r: Entry)
      requires Valid() && !R.Has(Compare(), Values(dq), x)
      modifies this
      ensures Valid() && TraceCompare(r.value, x) && dq != [] && dq[0].trace == r
      ensures Values(dq) == R.Pushed(old(Values(dq)), csize, r.value)
      ensures forall t: Entry :: Filed(old(hashToTraceMap), t) ==> Filed(hashToTraceMap, t)
    {
      ghost var all := dq;
      EvictIfFull();
      r := Lookup(x);
      NotInList(dq, ma, r, x, all);
      PushFront(r);
      FiledStill(old(hashToTraceMap), hashToTraceMap, all, dq);
      FrontValues(dq, R.Kept(all, csize));
      assert Values(R.Kept(all, csize)) == R.Kept(Values(all), csize);
    }

    /** A node that is not at the front is replaced by one that is. */
    method MoveToFront(it: Node)
      requires Linked(dq, ma) && Unique(dq) && it in dq
      modifies this`dq, this`ma
      ensures Linked(dq, ma) && Unique(dq)
      ensures exists k :: 0 <= k < |old(dq)| && old(dq)[k] == it && Moved(old(dq), dq, k)
    {
      ghost var k := 0;
      if dq[0] != it {
        k := Erase(it);
        PushFront(it.trace);
      }
      assert Moved(old(dq), dq, k);
    }

    /** A trace of the list moves to its front, unless it is there. */
    method ReferPresent(x: Trace, j: nat) returns (r: Entry)
      requires Valid() && j < |dq| && TraceCompare(dq[j].trace.value, x)
      modifies this`dq, this`ma
      ensures Valid() && r == old(dq)[j].trace && dq != [] && dq[0].trace == r
      ensures Values(dq) == R.MovedToFront(old(Values(dq)), j, r.value)
    {
      r := dq[j].trace;
      MoveToFront(ma[r]);
      MovedValues(hashToTraceMap, old(dq), dq, j);
    }

    /** The trace for a call stack: one that compares equal, now the newest of the list. */
    method Refer(x: Trace) returns (r: Entry)
      requires Valid()
      modifies this
      ensures Valid() && Refers(old(Values(dq)), x, r.value, Values(dq), csize)
      ensures dq != [] && dq[0].trace == r && forall t: Entry :: Filed(old(hashToTraceMap), t) ==> Filed(hashToTraceMap, t)
    {
      var j := Search(x);
      ghost var before := Values(dq);
      if j == |dq| {
        r := ReferAbsent(x);
      } else {
        r := ReferPresent(x, j);
        PresentRefers(before, x, r.value, Values(dq), csize, j);
      }
    }
  }

  lemma PresentRefers(dq: seq<Trace>, x: Trace, r: Trace, after: seq<Trace>, csize: nat, j: nat)
    requires 0 < csize && j < |dq| <= csize && TraceCompare(r, x) && r == dq[j] && after == R.MovedToFront(dq, j, r)
    ensures Refers(dq, x, r, after, csize)
  {
    assert Compare()(dq[j], x);
    assert R.Moves(dq, j, r, after);
  }

  lemma FrontValues(dq: seq<Node>, rest: seq<Node>)
    requires dq != [] && dq[1..] == rest
    ensures Values(dq) == [dq[0].trace.value] + Values(rest)
  {
    assert forall i :: 0 < i < |dq| ==> dq[i] == dq[1..][i - 1];
  }

  lemma FiledStill(before: Buckets, after: Buckets, all: seq<Node>, dq: seq<Node>)
    requires forall n :: n in all ==> Filed(before, n.trace)
    requires forall t: Entry :: Filed(before, t) ==> Filed(after, t)
    requires dq != [] && Filed(after, dq[0].trace) && dq[1..] <= all
    ensures forall n :: n in dq ==> Filed(after, n.trace)
  {
    forall n | n in dq ensures Filed(after, n.trace) {
      if n != dq[0] {
        assert n in dq[1..];
        assert n in all;
      }
    }
  }

  ghost predicate Moved(all: seq<Node>, dq: seq<Node>, j: nat)
    requires j < |all|
  {
    (j == 0 && dq == all) || (dq != [] && dq[0].trace == all[j].trace && dq[1..] == all[..j] + all[j + 1..])
  }

  lemma MovedValues(buckets: Buckets, all: seq<Node>, dq: seq<Node>, j: nat)
    requires j < |all| && Moved(all, dq, j)
    requires forall n :: n in all ==> Filed(buckets, n.trace)
    ensures |dq| == |all| && dq[0].trace == all[j].trace
    ensures Values(dq) == R.MovedToFront(Values(all), j, all[j].trace.value)
    ensures forall n :: n in dq ==> Filed(buckets, n.trace)
  {
    assert forall i :: 0 < i < |dq| ==> dq[i] == dq[1..][i - 1];
    forall i | 0 <= i < |dq| ensures exists k :: 0 <= k < |all| && dq[i].trace == all[k].trace {
      assert dq[i].trace == all[if i == 0 then j else if i <= j then i - 1 else i].trace;
    }
  }

  lemma NotInList(dq: seq<Node>, ma: map<Entry, Node>, r: Entry, x: Trace, all: seq<Node>)
    requires Linked(dq, ma) && dq <= all && !R.Has(Compare(), Values(all), x) && TraceCompare(r.value, x)
    ensures r !in ma
  {
    forall n | n in dq ensures n.trace != r {
      var i :| 0 <= i < |dq| && dq[i] == n;
      assert !Compare()(Values(all)[i], x);
    }
  }

  // ---- Runs ------------------------------------------------------------------------------

  /** The lists of a run of references, one more than the references. */
  ghost predicate IsRun(csize: nat, refs: seq<Trace>, got: seq<Trace>, lists: seq<seq<Trace>>) {
    && 0 < csize && |lists| == |refs| + 1 && |got| == |refs| && lists[0] == []
    && forall i :: 0 <= i < |refs| ==> |lists[i]| <= csize && Refers(lists[i], refs[i], got[i], lists[i + 1], csize)
  }

  lemma ReferKeepsRecent(refs: seq<Trace>, dq: seq<Trace>, csize: nat, x: Trace, r: Trace, after: seq<Trace>)
    requires 0 < csize && |dq| <= csize && R.Recent(Compare(), refs, dq, csize)
    requires Refers(dq, x, r, after, csize)
    ensures R.Recent(Compare(), refs + [x], after, csize)
  {
    CompareEquivalence();
    R.ReferredKeepsRecent(Compare(), refs, dq, csize, x, r, after);
  }

  /** After any references the list holds the kinds of trace referenced last, newest
      first, each once. */
  lemma {:induction false} HoldsMostRecent(csize: nat, refs: seq<Trace>, got: seq<Trace>, lists: seq<seq<Trace>>, n: nat)
    requires IsRun(csize, refs, got, lists) && n <= |refs|
    ensures R.Recent(Compare(), refs[..n], lists[n], csize)
  {
    if n == 0 {
      R.NothingIsRecent(Compare(), csize);
    } else {
      HoldsMostRecent(csize, refs, got, lists, n - 1);
      ReferKeepsRecent(refs[..n - 1], lists[n - 1], csize, refs[n - 1], got[n - 1], lists[n]);
      OneMore(refs, n - 1);
    }
  }

  lemma OneMore(refs: seq<Trace>, n: nat)
    requires n < |refs|
    ensures refs[..n] + [refs[n]] == refs[..n + 1]
  {
  }
}
