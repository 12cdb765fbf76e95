/** The order in which the allocations of a state are packed: along the heaviest
    connections. */
module Packing {
  import opened Classes
  import opened Sequences

  /** How often two allocations were used together; every allocation has an entry. */
  type Connections = map<nat, map<nat, nat>>

  /** A connection that counts, between two different allocations of a set. */
  predicate IsEdge(c: Connections, rest: set<nat>, m: nat, n: nat) {
    m in rest && n in rest && m != n && m in c && n in c[m] && c[m][n] > 0
  }

  predicate FromHeaviest(c: Connections, rest: set<nat>, m: nat, n: nat) {
    IsEdge(c, rest, m, n) && forall k :: k in rest && IsEdge(c, rest, m, k) ==> c[m][k] <= c[m][n]
  }

  predicate Heaviest(c: Connections, rest: set<nat>, m: nat, n: nat) {
    IsEdge(c, rest, m, n) && forall j, k :: j in rest && k in rest && IsEdge(c, rest, j, k) ==> c[j][k] <= c[m][n]
  }

  /** The allocations that are not among the first `i` of the order. */
  function Rest(all: set<nat>, packed: seq<nat>, i: nat): set<nat>
    requires i <= |packed|
  {
    all - set n | n in packed[..i]
  }

  /** The allocation before is connected to one that is left. */
  ghost predicate Continues(c: Connections, rest: set<nat>, m: nat) {
    exists n :: n in rest && IsEdge(c, rest + {m}, m, n)
  }

  ghost predicate AnyEdge(c: Connections, rest: set<nat>) {
    exists m, n :: m in rest && n in rest && IsEdge(c, rest, m, n)
  }

  ghost predicate StartsHeaviest(c: Connections, rest: set<nat>, m: nat) {
    exists n :: Heaviest(c, rest, m, n)
  }

  /** Why an allocation is where it is: it has the heaviest connection, among those
      left, with the one before; or that has none, and a heaviest connection of all
      those left starts with it; or none are left. */
  ghost predicate WellPlaced(c: Connections, all: set<nat>, packed: seq<nat>, i: nat)
    requires i < |packed|
  {
    var rest := Rest(all, packed, i);
    && packed[i] in rest
    && if i > 0 && Continues(c, rest, packed[i - 1]) then FromHeaviest(c, rest + {packed[i - 1]}, packed[i - 1], packed[i])
       else AnyEdge(c, rest) ==> StartsHeaviest(c, rest, packed[i])
  }

  // ---- The search for the heaviest connection ---------------------------------------

  /** The best connection so far: its weight, where it starts and where it ends. */
  datatype Best = Best(weight: nat, node: Option<nat>, next: Option<nat>)

  ghost predicate IsBest(c: Connections, rest: set<nat>, b: Best) {
    if b.next.None? then b.weight == 0
    else b.node.Some? && IsEdge(c, rest, b.node.value, b.next.value) && c[b.node.value][b.next.value] == b.weight
  }

  ghost predicate NoHeavierFrom(c: Connections, rest: set<nat>, m: nat, weight: nat) {
    forall k :: k in rest && IsEdge(c, rest, m, k) ==> c[m][k] <= weight
  }

  /** A candidate's connections are gone through; the first of a greater weight is kept. */
  method ScanNode(c: Connections, rest: set<nat>, m: nat, b: Best) returns (r: Best)
    requires m in c && m in rest && IsBest(c, rest, b)
    ensures IsBest(c, rest, r) && b.weight <= r.weight && NoHeavierFrom(c, rest, m, r.weight)
    ensures r == b || (r.node == Some(m) && r.next.Some?)
  {
    r := b;
    var left := c[m].Keys;
    while left != {}
      invariant left <= c[m].Keys
      invariant IsBest(c, rest, r) && b.weight <= r.weight
      invariant forall k :: k in c[m] && k !in left && IsEdge(c, rest, m, k) ==> c[m][k] <= r.weight
      invariant r == b || (r.node == Some(m) && r.next.Some?)
      decreases left
    {
      var n :| n in left;
      if n in rest && n != m {
        if r.weight < c[m][n] {
          r := Best(c[m][n], Some(m), Some(n));
        }
      }
      left := left - {n};
    }
  }

  /** A heaviest connection of all, if there is one. */
  method ScanAll(c: Connections, rest: set<nat>) returns (r: Best)
    requires rest <= c.Keys
    ensures if r.next.None? then r.node == None && !AnyEdge(c, rest)
            else r.node.Some? && Heaviest(c, rest, r.node.value, r.next.value)
    ensures IsBest(c, rest, r) && forall m :: m in rest ==> NoHeavierFrom(c, rest, m, r.weight)
  {
    r := Best(0, None, None);
    var left := rest;
    while left != {}
      invariant left <= rest
      invariant IsBest(c, rest, r) && (r.next.None? ==> r.node == None)
      invariant forall m :: m in rest - left ==> NoHeavierFrom(c, rest, m, r.weight)
      decreases left
    {
      var m :| m in left;
      ghost var b := r;
      r := ScanNode(c, rest, m, r);
      forall j | j in rest - (left - {m}) ensures NoHeavierFrom(c, rest, j, r.weight) {
        if j != m {
          assert NoHeavierFrom(c, rest, j, b.weight);
        }
      }
      left := left - {m};
    }
    assert forall m :: m in rest ==> NoHeavierFrom(c, rest, m, r.weight);
  }

  // ---- The order ---------------------------------------------------------------------------

  lemma PlacedStill(c: Connections, all: set<nat>, packed: seq<nat>, n: nat, i: nat)
    requires i < |packed| && WellPlaced(c, all, packed, i)
    ensures WellPlaced(c, all, packed + [n], i)
  {
    assert (packed + [n])[..i] == packed[..i];
  }

  /** The state of the packing: what is placed and what is left, and where it goes on. */
  ghost predicate Partial(c: Connections, all: set<nat>, packed: seq<nat>, unplaced: set<nat>) {
    && unplaced == Rest(all, packed, |packed|)
    && NoRepeat(packed) && (forall n :: n in packed ==> n in all)
    && forall i :: 0 <= i < |packed| ==> WellPlaced(c, all, packed, i)
  }

  ghost predicate GoesOn(c: Connections, packed: seq<nat>, unplaced: set<nat>, current: Option<nat>) {
    if current.Some? then
      packed != [] && FromHeaviest(c, unplaced + {packed[|packed| - 1]}, packed[|packed| - 1], current.value)
    else
      packed != [] ==> !Continues(c, unplaced, packed[|packed| - 1])
  }

  lemma PlaceOne(c: Connections, all: set<nat>, packed: seq<nat>, unplaced: set<nat>, n: nat)
    requires Partial(c, all, packed, unplaced) && n in unplaced
    requires if packed != [] && Continues(c, unplaced, packed[|packed| - 1])
             then FromHeaviest(c, unplaced + {packed[|packed| - 1]}, packed[|packed| - 1], n)
             else AnyEdge(c, unplaced) ==> StartsHeaviest(c, unplaced, n)
    ensures Partial(c, all, packed + [n], unplaced - {n})
  {
    var more := packed + [n];
    assert packed[..|packed|] == packed && more[..|more|] == more && more[..|packed|] == packed;
    assert Rest(all, more, |packed|) == unplaced;
    assert WellPlaced(c, all, more, |packed|);
    forall i | 0 <= i < |packed| ensures WellPlaced(c, all, more, i) {
      PlacedStill(c, all, packed, n, i);
    }
  }

  /** Allocations between which no connection is left go in any order. */
  method PlaceRest(c: Connections, ghost all: set<nat>, packed: seq<nat>, unplaced: set<nat>) returns (r: seq<nat>)
    requires Partial(c, all, packed, unplaced) && GoesOn(c, packed, unplaced, None) && !AnyEdge(c, unplaced)
    ensures Partial(c, all, r, {})
  {
    r := packed;
    var left := unplaced;
    while left != {}
      invariant Partial(c, all, r, left) && GoesOn(c, r, left, None) && !AnyEdge(c, left)
      decreases left
    {
      var n :| n in left;
      PlaceOne(c, all, r, left, n);
      forall k | k in left - {n} ensures !IsEdge(c, left - {n} + {n}, n, k) {
        assert left - {n} + {n} == left;
      }
      assert !AnyEdge(c, left - {n}) by {
        forall j, k | j in left - {n} && k in left - {n} ensures !IsEdge(c, left - {n}, j, k) {
          assert !IsEdge(c, left, j, k);
        }
      }
      r := r + [n];
      left := left - {n};
    }
  }

  /** All allocations are placed, each once, and each where its connections put it. */
  method TemporalHeaviestEdgeFirst(c: Connections, all: set<nat>) returns (packed: seq<nat>)
    requires all <= c.Keys
    ensures NoRepeat(packed) && forall n :: n in packed <==> n in all
    ensures forall i :: 0 <= i < |packed| ==> WellPlaced(c, all, packed, i)
  {
    packed := [];
    var unplaced := all;
    var currentNode: Option<nat> := None;
    while unplaced != {}
      invariant Partial(c, all, packed, unplaced) && GoesOn(c, packed, unplaced, currentNode)
      invariant currentNode.Some? ==> currentNode.value in unplaced
      decreases unplaced
    {
      var b;
      if currentNode.None? {
        b := ScanAll(c, unplaced);
        if b.node.None? {
          packed := PlaceRest(c, all, packed, unplaced);
          unplaced := {};
          break;
        }
      } else {
        b := ScanNode(c, unplaced, currentNode.value, Best(0, currentNode, None));
      }
      PlaceAndGoOn(c, all, packed, unplaced, currentNode, b);
      packed := packed + [b.node.value];
      unplaced := unplaced - {b.node.value};
      currentNode := b.next;
    }
    AllPlaced(all, packed);
  }

  lemma AllPlaced(all: set<nat>, packed: seq<nat>)
    requires Rest(all, packed, |packed|) == {}
    ensures forall n :: n in all ==> n in packed
  {
    forall n | n in all ensures n in packed {
      assert n !in Rest(all, packed, |packed|);
    }
  }

  lemma PlaceAndGoOn(c: Connections, all: set<nat>, packed: seq<nat>, unplaced: set<nat>, current: Option<nat>, b: Best)
    requires Partial(c, all, packed, unplaced) && GoesOn(c, packed, unplaced, current)
    requires b.node.Some? && b.node.value in unplaced
    requires current.Some? ==> b.node == current
    requires current.None? ==> b.next.Some? && Heaviest(c, unplaced, b.node.value, b.next.value)
    requires NoHeavierFrom(c, unplaced, b.node.value, b.weight) && IsBest(c, unplaced, b)
    ensures Partial(c, all, packed + [b.node.value], unplaced - {b.node.value})
    ensures GoesOn(c, packed + [b.node.value], unplaced - {b.node.value}, b.next)
    ensures b.next.Some? ==> b.next.value in unplaced - {b.node.value}
  {
    var n := b.node.value;
    PlaceOne(c, all, packed, unplaced, n);
    assert unplaced - {n} + {n} == unplaced;
  }
}
