/** The functions that are reached along one call path only, found depth first. */
module CallGraph {
  import opened Sequences

  /** The callees of every function; a pair of functions has one edge at most. */
  datatype Graph = Graph(callees: map<nat, seq<nat>>, entry: nat)

  predicate HasEdge(g: Graph, m: nat, n: nat) {
    m in g.callees && n in g.callees[m]
  }

  function Callers(g: Graph, n: nat): set<nat> {
    set m | m in g.callees && n in g.callees[m]
  }

  /** The entry and all callees are functions. */
  ghost predicate IsGraph(g: Graph) {
    && g.entry in g.callees
    && (forall m, n :: HasEdge(g, m, n) ==> n in g.callees)
    && (forall m :: m in g.callees ==> NoRepeat(g.callees[m]))
  }

  predicate IsPath(g: Graph, p: seq<nat>) {
    && p != [] && p[0] == g.entry
    && forall i :: 0 < i < |p| ==> HasEdge(g, p[i - 1], p[i])
  }

  predicate Single(g: Graph, n: nat) {
    |Callers(g, n)| <= 1
  }

  /** A path on which every function has one caller at most. */
  predicate IsSinglePath(g: Graph, p: seq<nat>) {
    IsPath(g, p) && forall i :: 0 <= i < |p| ==> Single(g, p[i])
  }

  function Last(p: seq<nat>): nat
    requires p != []
  {
    p[|p| - 1]
  }

  ghost predicate Leads(g: Graph, p: seq<nat>, q: seq<nat>, n: nat) {
    p <= q && IsSinglePath(g, q) && Last(q) == n
  }

  /** The functions at the end of a single-caller path that continues `p`. */
  ghost function Beyond(g: Graph, p: seq<nat>): set<nat> {
    set n | n in g.callees && exists q :: Leads(g, p, q, n)
  }

  lemma {:induction false} CardinalityOfSubset(s: set<nat>, t: set<nat>)
    requires s <= t
    ensures |s| <= |t|
  {
    if s == {} {
    } else {
      var x :| x in s;
      CardinalityOfSubset(s - {x}, t - {x});
    }
  }

  lemma OneCaller(g: Graph, a: nat, b: nat, n: nat)
    requires Single(g, n) && HasEdge(g, a, n) && HasEdge(g, b, n)
    ensures a == b
  {
    assert {a, b} <= Callers(g, n);
    CardinalityOfSubset({a, b}, Callers(g, n));
  }

  /** The path does not come back to the entry. */
  predicate Leaves(g: Graph, p: seq<nat>) {
    forall i :: 0 < i < |p| ==> p[i] != g.entry
  }

  /** A path on which every function has one caller is the only path to its end, up
      to coming back to the entry. */
  lemma {:induction false} SinglePathIsOnly(g: Graph, p: seq<nat>, q: seq<nat>)
    requires IsSinglePath(g, p) && IsPath(g, q) && Last(p) == Last(q)
    requires Leaves(g, p) && Leaves(g, q)
    ensures p == q
    decreases |p|
  {
    assert |q| > 1 ==> q[|q| - 1] != g.entry;
    if |p| > 1 {
      var p', q' := p[..|p| - 1], q[..|q| - 1];
      OneCaller(g, Last(p'), Last(q'), Last(p));
      SinglePathIsOnly(g, p', q');
      assert p == p' + [Last(p)] && q == q' + [Last(q)];
    }
  }

  /** No path of single callers comes back to the entry. */
  ghost predicate Ends(g: Graph) {
    forall p :: IsSinglePath(g, p) && |p| > 1 ==> Last(p) != g.entry
  }

  lemma SinglePathLeaves(g: Graph, p: seq<nat>)
    requires Ends(g) && IsSinglePath(g, p)
    ensures Leaves(g, p)
  {
    forall i | 0 < i < |p| ensures p[i] != g.entry {
      assert IsSinglePath(g, p[..i + 1]) && Last(p[..i + 1]) == p[i];
    }
  }

  /** Then such a path has no function twice, and cannot be longer than there are functions. */
  lemma SinglePathIsShort(g: Graph, p: seq<nat>)
    requires IsGraph(g) && Ends(g) && IsSinglePath(g, p)
    ensures NoRepeat(p) && |p| <= |g.callees|
  {
    forall i, j | 0 <= i < j < |p| ensures p[i] != p[j] {
      if p[i] == p[j] {
        SinglePathLeaves(g, p);
        SinglePathIsOnly(g, p[..i + 1], p[..j + 1]);
      }
    }
    forall i | 0 <= i < |p| ensures p[i] in g.callees {
      if i > 0 {
        assert HasEdge(g, p[i - 1], p[i]);
      }
    }
    DistinctSize(p);
    CardinalityOfSubset(SetOf(p), g.callees.Keys);
  }

  /** Otherwise there are such paths of every length. */
  lemma {:induction false} RoundAndRound(g: Graph, p: seq<nat>, n: nat) returns (q: seq<nat>)
    requires IsSinglePath(g, p) && |p| > 1 && Last(p) == g.entry
    ensures IsSinglePath(g, q) && Last(q) == g.entry && |q| > n
  {
    if n == 0 {
      q := p;
    } else {
      var r := RoundAndRound(g, p, n - 1);
      q := r + p[1..];
      forall i | 0 < i < |q| ensures HasEdge(g, q[i - 1], q[i]) && Single(g, q[i]) {
        if i >= |r| {
          assert q[i] == p[i - |r| + 1] && q[i - 1] == p[i - |r|];
        }
      }
    }
  }

  /** The search follows the paths of single callers, so it ends for exactly those
      programs in which none comes back to the entry. */
  lemma SearchEndsIff(g: Graph)
    requires IsGraph(g)
    ensures Ends(g) <==> forall p :: IsSinglePath(g, p) ==> |p| <= |g.callees|
  {
    if Ends(g) {
      forall p | IsSinglePath(g, p) ensures |p| <= |g.callees| {
        SinglePathIsShort(g, p);
      }
    } else {
      var p :| IsSinglePath(g, p) && |p| > 1 && Last(p) == g.entry;
      var q := RoundAndRound(g, p, |g.callees|);
    }
  }

  function SetOf(p: seq<nat>): set<nat> {
    set n | n in p
  }

  lemma {:induction false} DistinctSize(p: seq<nat>)
    requires NoRepeat(p)
    ensures |SetOf(p)| == |p|
  {
    if p == [] {
    } else {
      DistinctSize(p[1..]);
      assert SetOf(p) == SetOf(p[1..]) + {p[0]};
      assert p[0] !in SetOf(p[1..]);
    }
  }

  // ---- The search -------------------------------------------------------------------------

  ghost function BeyondCallees(g: Graph, p: seq<nat>, callees: seq<nat>): set<nat> {
    set n | n in g.callees && exists i :: 0 <= i < |callees| && n in Beyond(g, p + [callees[i]])
  }

  lemma BeyondSplits(g: Graph, p: seq<nat>)
    requires IsGraph(g) && IsSinglePath(g, p) && Last(p) in g.callees
    ensures Beyond(g, p) == {Last(p)} + BeyondCallees(g, p, g.callees[Last(p)])
  {
    var callees := g.callees[Last(p)];
    assert Leads(g, p, p, Last(p));
    forall n | n in Beyond(g, p) && n != Last(p) ensures n in BeyondCallees(g, p, callees) {
      var q :| Leads(g, p, q, n);
      assert HasEdge(g, q[|p| - 1], q[|p|]);
      var i :| 0 <= i < |callees| && callees[i] == q[|p|];
      assert Leads(g, p + [callees[i]], q, n);
    }
    forall n | n in BeyondCallees(g, p, callees) ensures n in Beyond(g, p) {
      var i :| 0 <= i < |callees| && n in Beyond(g, p + [callees[i]]);
      var q :| Leads(g, p + [callees[i]], q, n);
      assert Leads(g, p, q, n);
    }
  }

  lemma NextOf(g: Graph, p: seq<nat>, a: nat, q: seq<nat>, n: nat)
    requires Leads(g, p + [a], q, n)
    ensures |q| > |p| && q[|p|] == a
  {
    assert (p + [a])[|p|] == a;
  }

  /** What lies beyond different callees is different. */
  lemma BeyondApart(g: Graph, p: seq<nat>, a: nat, b: nat)
    requires Ends(g) && a != b
    ensures Beyond(g, p + [a]) !! Beyond(g, p + [b])
  {
    forall n | n in Beyond(g, p + [a]) && n in Beyond(g, p + [b]) ensures false {
      var q :| Leads(g, p + [a], q, n);
      var r :| Leads(g, p + [b], r, n);
      NextOf(g, p, a, q, n);
      NextOf(g, p, b, r, n);
      SinglePathLeaves(g, q);
      SinglePathLeaves(g, r);
      SinglePathIsOnly(g, q, r);
    }
  }

  lemma EndNotBeyond(g: Graph, p: seq<nat>, a: nat)
    requires Ends(g) && IsSinglePath(g, p)
    ensures Last(p) !in Beyond(g, p + [a])
  {
    if Last(p) in Beyond(g, p + [a]) {
      var q :| Leads(g, p + [a], q, Last(p));
      NextOf(g, p, a, q, Last(p));
      SinglePathLeaves(g, p);
      SinglePathLeaves(g, q);
      SinglePathIsOnly(g, p, q);
    }
  }

  ghost predicate Lists(s: seq<nat>, t: set<nat>) {
    NoRepeat(s) && forall n :: n in s <==> n in t
  }

  lemma ListsMore(s: seq<nat>, t: set<nat>, s': seq<nat>, t': set<nat>)
    requires Lists(s, t) && Lists(s', t') && t !! t'
    ensures Lists(s + s', t + t')
  {
    forall i, j | 0 <= i < j < |s + s'| ensures (s + s')[i] != (s + s')[j] {
      if i < |s| <= j {
        assert s[i] in t && s'[j - |s|] in t';
      }
    }
  }

  lemma OneMoreCallee(g: Graph, p: seq<nat>, i: nat)
    requires IsGraph(g) && Ends(g) && p != [] && Last(p) in g.callees && i < |g.callees[Last(p)]|
    ensures var callees := g.callees[Last(p)];
            && BeyondCallees(g, p, callees[..i + 1]) == BeyondCallees(g, p, callees[..i]) + Beyond(g, p + [callees[i]])
            && BeyondCallees(g, p, callees[..i]) !! Beyond(g, p + [callees[i]])
  {
    var callees := g.callees[Last(p)];
    var more := callees[..i + 1];
    forall n | n in BeyondCallees(g, p, callees[..i])
      ensures n in BeyondCallees(g, p, more) && n !in Beyond(g, p + [callees[i]])
    {
      var k :| 0 <= k < i && n in Beyond(g, p + [callees[..i][k]]);
      assert more[k] == callees[k];
      BeyondApart(g, p, callees[k], callees[i]);
    }
    forall n | n in Beyond(g, p + [callees[i]]) ensures n in BeyondCallees(g, p, more) {
      assert more[i] == callees[i];
    }
    forall n | n in BeyondCallees(g, p, more) ensures n in BeyondCallees(g, p, callees[..i]) + Beyond(g, p + [callees[i]]) {
      var k :| 0 <= k < i + 1 && n in Beyond(g, p + [more[k]]);
      if k < i {
        assert callees[..i][k] == more[k];
      }
    }
  }

  /** The search from the end of a path that has single callers up to there. The
      functions beyond it are collected, and `visits` lists those whose bodies were
      gone through, each once. */
  method VisitDepthFirst(g: Graph, node: nat, collected: set<nat>, ghost path: seq<nat>)
    returns (r: set<nat>, ghost visits: seq<nat>)
    requires IsGraph(g) && Ends(g) && IsPath(g, path) && Last(path) == node
    requires |path| > 1 ==> IsSinglePath(g, path[..|path| - 1])
    ensures r == collected + Beyond(g, path)
    ensures Lists(visits, Beyond(g, path))
    decreases |g.callees| + 1 - |path|
  {
    if |Callers(g, node)| > 1 {
      NothingBeyond(g, path);
      return collected, [];
    }
    InGraph(g, path);
    SinglePathIsShort(g, path);
    r, visits := collected + {node}, [node];
    var callees := g.callees[node];
    for i := 0 to |callees|
      invariant r == collected + ({node} + BeyondCallees(g, path, callees[..i]))
      invariant Lists(visits, {node} + BeyondCallees(g, path, callees[..i]))
    {
      var next := path + [callees[i]];
      assert HasEdge(g, node, callees[i]) && next[..|next| - 1] == path;
      ghost var more;
      r, more := VisitDepthFirst(g, callees[i], r, next);
      OneMoreCallee(g, path, i);
      EndNotBeyond(g, path, callees[i]);
      ListsMore(visits, {node} + BeyondCallees(g, path, callees[..i]), more, Beyond(g, next));
      visits := visits + more;
      assert {node} + BeyondCallees(g, path, callees[..i]) + Beyond(g, next) == {node} + BeyondCallees(g, path, callees[..i + 1]);
    }
    assert callees[..|callees|] == callees;
    BeyondSplits(g, path);
  }

  lemma LeadsThrough(g: Graph, p: seq<nat>, q: seq<nat>, n: nat)
    requires p != [] && Leads(g, p, q, n)
    ensures Single(g, Last(p))
  {
    assert Single(g, q[|p| - 1]);
  }

  lemma NothingBeyond(g: Graph, p: seq<nat>)
    requires p != [] && !Single(g, Last(p))
    ensures Beyond(g, p) == {}
  {
    forall n | n in Beyond(g, p) ensures false {
      var q :| Leads(g, p, q, n);
      LeadsThrough(g, p, q, n);
    }
  }

  lemma InGraph(g: Graph, p: seq<nat>)
    requires IsGraph(g) && IsPath(g, p)
    ensures Last(p) in g.callees
  {
    if |p| > 1 {
      assert HasEdge(g, p[|p| - 2], Last(p));
    }
  }

  /** A path of single callers leads to the function. */
  ghost predicate Collected(g: Graph, n: nat) {
    exists p :: IsSinglePath(g, p) && Last(p) == n
  }

  /** The functions with one call path: all those that a path of single callers
      leads to, and no other. */
  method GetUniqueCallstackFunctions(g: Graph) returns (r: set<nat>)
    requires IsGraph(g) && Ends(g)
    ensures forall n :: n in r <==> Collected(g, n)
  {
    ghost var visits;
    r, visits := VisitDepthFirst(g, g.entry, {}, [g.entry]);
    forall n ensures n in r <==> Collected(g, n) {
      if n in r {
        var q :| Leads(g, [g.entry], q, n);
      }
      if p :| IsSinglePath(g, p) && Last(p) == n {
        InGraph(g, p);
        assert Leads(g, [g.entry], p, n);
      }
    }
  }

  // ---- What is collected -----------------------------------------------------------------

  ghost predicate IsOnlyPath(g: Graph, p: seq<nat>) {
    IsPath(g, p) && forall q :: IsPath(g, q) && Last(q) == Last(p) ==> q == p
  }

  ghost predicate OnePath(g: Graph, n: nat) {
    exists p :: IsOnlyPath(g, p) && Last(p) == n
  }

  ghost predicate Reached(g: Graph, n: nat) {
    exists p :: IsPath(g, p) && Last(p) == n
  }

  lemma NothingReturns(g: Graph, p: seq<nat>)
    requires Callers(g, g.entry) == {} && IsPath(g, p)
    ensures Leaves(g, p)
  {
    forall i | 0 < i < |p| ensures p[i] != g.entry {
      assert HasEdge(g, p[i - 1], p[i]);
      assert p[i - 1] in Callers(g, p[i]);
    }
  }

  lemma CollectedHasOnePath(g: Graph, p: seq<nat>)
    requires Callers(g, g.entry) == {} && IsSinglePath(g, p)
    ensures IsOnlyPath(g, p)
  {
    forall q | IsPath(g, q) && Last(q) == Last(p) ensures q == p {
      NothingReturns(g, p);
      NothingReturns(g, q);
      SinglePathIsOnly(g, p, q);
    }
  }

  lemma TwoCallersTwoPaths(g: Graph, p: seq<nat>, i: nat, c: nat) returns (q: seq<nat>)
    requires IsPath(g, p) && 0 < i < |p| && HasEdge(g, c, p[i]) && c != p[i - 1] && Reached(g, c)
    ensures IsPath(g, q) && Last(q) == Last(p) && q != p
  {
    var r :| IsPath(g, r) && Last(r) == c;
    q := r + p[i..];
    assert |r| == i ==> q[i - 1] == c;
  }

  lemma {:induction false} AnotherCaller(g: Graph, n: nat, a: nat) returns (b: nat)
    requires HasEdge(g, a, n) && !Single(g, n)
    ensures HasEdge(g, b, n) && b != a
  {
    var c := Callers(g, n);
    if c - {a} == {} {
      assert c <= {a};
      CardinalityOfSubset(c, {a});
    }
    b :| b in c - {a};
  }

  lemma OnlyPathIsSingle(g: Graph, p: seq<nat>)
    requires IsOnlyPath(g, p) && Single(g, g.entry) && forall m :: m in g.callees ==> Reached(g, m)
    ensures IsSinglePath(g, p)
  {
    forall i | 0 <= i < |p| ensures Single(g, p[i]) {
      if i > 0 && !Single(g, p[i]) {
        assert HasEdge(g, p[i - 1], p[i]);
        var c := AnotherCaller(g, p[i], p[i - 1]);
        var q := TwoCallersTwoPaths(g, p, i, c);
      }
    }
  }

  /** When the program can come back to the entry, no function has only one path. */
  lemma OnceMoreRound(g: Graph, m: nat, p: seq<nat>) returns (q: seq<nat>)
    requires HasEdge(g, m, g.entry) && Reached(g, m) && IsPath(g, p)
    ensures IsPath(g, q) && Last(q) == Last(p) && |q| > |p|
  {
    var r :| IsPath(g, r) && Last(r) == m;
    q := r + p;
  }

  ghost predicate CollectsOnePaths(g: Graph) {
    forall n :: Collected(g, n) <==> OnePath(g, n)
  }

  lemma CollectsIfUncalled(g: Graph)
    requires Callers(g, g.entry) == {} && forall m :: m in g.callees ==> Reached(g, m)
    ensures CollectsOnePaths(g)
  {
    forall n ensures Collected(g, n) <==> OnePath(g, n) {
      if p :| IsSinglePath(g, p) && Last(p) == n {
        CollectedHasOnePath(g, p);
      }
      if OnePath(g, n) {
        var p :| IsOnlyPath(g, p) && Last(p) == n;
        OnlyPathIsSingle(g, p);
      }
    }
  }

  lemma CollectedAtEnd(g: Graph, p: seq<nat>)
    requires IsSinglePath(g, p)
    ensures Collected(g, Last(p))
  {
  }

  lemma CollectsIfCalled(g: Graph, m: nat)
    requires HasEdge(g, m, g.entry) && Reached(g, m)
    ensures CollectsOnePaths(g) <==> !Single(g, g.entry)
  {
    forall p | IsPath(g, p) ensures !IsOnlyPath(g, p) {
      var q := OnceMoreRound(g, m, p);
    }
    assert forall n :: !OnePath(g, n);
    assert forall p :: IsSinglePath(g, p) ==> Single(g, g.entry) by {
      assert forall p :: IsSinglePath(g, p) ==> Single(g, p[0]);
    }
    if Single(g, g.entry) {
      var one := [g.entry];
      CollectedAtEnd(g, one);
      assert Last(one) == g.entry;
    }
  }

  /** When every function can be reached, the functions collected are exactly those
      that one call path leads to, unless the entry has one caller: then the entry
      is collected, and every function has several paths. */
  lemma CollectedIffOnePath(g: Graph)
    requires IsGraph(g) && forall m :: m in g.callees ==> Reached(g, m)
    ensures CollectsOnePaths(g) <==> |Callers(g, g.entry)| != 1
  {
    if Callers(g, g.entry) == {} {
      CollectsIfUncalled(g);
    } else {
      var m :| m in Callers(g, g.entry);
      CollectsIfCalled(g, m);
    }
  }
}
