/** The cleaning of a region's working sets at report time: an offset that is in
    several sets stays in the strongest one. */
module StateCleaning {
  import opened Classes
  import opened Runtime

  predicate InSet(m: Offsets, c: Class, a: Allocation, o: nat) {
    (c, a) in m && o in m[(c, a)]
  }

  /** What is left in the set of class `c` for an allocation, once the offsets in
      the set of class `d` are erased. */
  function Left(m: Offsets, c: Class, d: Class, k: (Class, Allocation)): set<nat>
    requires k in m
  {
    if k.0 == c && (d, k.1) in m then m[k] - m[(d, k.1)] else m[k]
  }

  /** An allocation that the cleaning leaves without offsets. */
  predicate Emptied(m: Offsets, c: Class, d: Class, k: (Class, Allocation))
    requires k in m
  {
    k.0 == c && (d, k.1) in m && Left(m, c, d, k) == {}
  }

  /** The set of one class without the offsets of another's; an allocation that
      loses all its offsets leaves the set. */
  function Cleaned(m: Offsets, c: Class, d: Class): Offsets {
    map k | k in m && !Emptied(m, c, d, k) :: Left(m, c, d, k)
  }

  /** The sets once the allocations in `done` have been gone through. */
  function Erased(m: Offsets, c: Class, d: Class, done: set<Allocation>): Offsets {
    map k | k in m :: if k.1 in done then Left(m, c, d, k) else m[k]
  }

  lemma ErasedOne(m: Offsets, c: Class, d: Class, done: set<Allocation>, a: Allocation)
    requires c != d && (d, a) in m && a !in done
    ensures var e := Erased(m, c, d, done);
            Erased(m, c, d, done + {a}) == if (c, a) in m then e[(c, a) := Left(m, c, d, (c, a))] else e
    ensures (c, a) in m ==> Left(m, c, d, (c, a)) == m[(c, a)] - m[(d, a)]
  {
    var e := Erased(m, c, d, done);
    forall k | k in m && k != (c, a) ensures Erased(m, c, d, done + {a})[k] == e[k] {
      assert k.1 == a ==> k.0 != c;
    }
  }

  function EmptiedBy(m: Offsets, c: Class, d: Class, done: set<Allocation>): set<(Class, Allocation)> {
    set k | k in m && k.1 in done && Emptied(m, c, d, k)
  }

  lemma EmptiedOne(m: Offsets, c: Class, d: Class, done: set<Allocation>, a: Allocation)
    requires c != d && (d, a) in m
    ensures EmptiedBy(m, c, d, done + {a}) == EmptiedBy(m, c, d, done)
              + if (c, a) in m && Left(m, c, d, (c, a)) == {} then {(c, a)} else {}
  {
  }

  /** One allocation of the stronger set: its offsets leave the weaker one. */
  method EraseOne(m: Offsets, c: Class, d: Class, a: Allocation, sets: Offsets, cleans: set<(Class, Allocation)>,
                  ghost done: set<Allocation>)
    returns (r: Offsets, completeCleans: set<(Class, Allocation)>)
    requires c != d && (d, a) in m && a !in done
    requires sets == Erased(m, c, d, done) && cleans == EmptiedBy(m, c, d, done)
    ensures r == Erased(m, c, d, done + {a}) && completeCleans == EmptiedBy(m, c, d, done + {a})
  {
    r, completeCleans := sets, cleans;
    ErasedOne(m, c, d, done, a);
    EmptiedOne(m, c, d, done, a);
    if (c, a) in r {
      r := r[(c, a) := r[(c, a)] - r[(d, a)]];
      if r[(c, a)] == {} {
        completeCleans := completeCleans + {(c, a)};
      }
    }
  }

  /** The first pass: offsets are erased, and the allocations left empty noted. */
  method EraseOffsets(m: Offsets, c: Class, d: Class, allocs: set<Allocation>)
    returns (r: Offsets, completeCleans: set<(Class, Allocation)>)
    requires c != d
    requires forall a :: a in allocs ==> (d, a) in m
    ensures r == Erased(m, c, d, allocs)
    ensures completeCleans == EmptiedBy(m, c, d, allocs)
  {
    r, completeCleans := m, {};
    var left := allocs;
    assert Erased(m, c, d, {}) == m;
    while left != {}
      invariant left <= allocs
      invariant r == Erased(m, c, d, allocs - left)
      invariant completeCleans == EmptiedBy(m, c, d, allocs - left)
      decreases left
    {
      var a :| a in left;
      r, completeCleans := EraseOne(m, c, d, a, r, completeCleans, allocs - left);
      assert allocs - left + {a} == allocs - (left - {a});
      left := left - {a};
    }
    assert allocs - left == allocs;
  }

  method CleanState(s: State, c: Class, d: Class)
    requires c != d
    modifies s`current
    ensures s.current == Cleaned(old(s.current), c, d)
  {
    ghost var m := s.current;
    var allocs := set k | k in s.current && k.0 == d :: k.1;
    var r, completeCleans := EraseOffsets(s.current, c, d, allocs);
    s.current := r - completeCleans;
    ErasedIsCleaned(m, c, d, allocs);
  }

  lemma ErasedIsCleaned(m: Offsets, c: Class, d: Class, allocs: set<Allocation>)
    requires forall a :: a in allocs <==> (d, a) in m
    ensures Erased(m, c, d, allocs) - EmptiedBy(m, c, d, allocs) == Cleaned(m, c, d)
  {
  }

  lemma CleanedIn(m: Offsets, c: Class, d: Class, x: Class, a: Allocation, o: nat)
    requires c != d
    ensures InSet(Cleaned(m, c, d), x, a, o) <==> InSet(m, x, a, o) && !(x == c && InSet(m, d, a, o))
  {
    var k := (x, a);
    if k in m {
      assert o in Left(m, c, d, k) <==> o in m[k] && !(x == c && InSet(m, d, a, o));
    }
  }

  lemma NothingLeft(s: set<nat>, t: set<nat>)
    ensures s - t == {} <==> forall o :: o in s ==> o in t
  {
    if s - t == {} {
      forall o | o in s ensures o in t {
        assert o in t || o in s - t;
      }
    }
  }

  /** An allocation leaves the weaker set exactly when the stronger one takes all its
      offsets; nothing else leaves a set. */
  lemma EmptiedLeave(m: Offsets, c: Class, d: Class, x: Class, a: Allocation)
    requires c != d
    ensures (x, a) in Cleaned(m, c, d) <==>
            (x, a) in m && !(x == c && (d, a) in m && forall o :: o in m[(x, a)] ==> o in m[(d, a)])
  {
    if (x, a) in m && (d, a) in m {
      NothingLeft(m[(x, a)], m[(d, a)]);
    }
  }

  /** The seven cleanings in the order they are made. */
  function CleanedAll(m: Offsets): Offsets {
    var m3 := Cleaned(Cleaned(Cleaned(m, CIO, TIO), IO, TIO), IO, CIO);
    Cleaned(Cleaned(Cleaned(Cleaned(m3, Input, IO), CO, TO), Output, TO), Output, CO)
  }

  method ReportState(s: State)
    modifies s`current
    ensures s.current == CleanedAll(old(s.current))
  {
    CleanState(s, CIO, TIO);
    CleanState(s, IO, TIO);
    CleanState(s, IO, CIO);
    CleanState(s, Input, IO);
    CleanState(s, CO, TO);
    CleanState(s, Output, TO);
    CleanState(s, Output, CO);
  }

  /** Which sets have an offset; each cleaning acts on it by itself. */
  type Held = set<Class>

  function HeldIn(m: Offsets, a: Allocation, o: nat): Held {
    set c: Class | InSet(m, c, a, o)
  }

  function Dropped(h: Held, c: Class, d: Class): Held {
    if d in h then h - {c} else h
  }

  lemma CleanedDrops(m: Offsets, c: Class, d: Class, a: Allocation, o: nat)
    requires c != d
    ensures HeldIn(Cleaned(m, c, d), a, o) == Dropped(HeldIn(m, a, o), c, d)
  {
    forall x: Class ensures x in HeldIn(Cleaned(m, c, d), a, o) <==> x in Dropped(HeldIn(m, a, o), c, d) {
      CleanedIn(m, c, d, x, a, o);
    }
  }

  /** What the cleanings leave of the classes that have an offset: of IO, CIO and
      TIO the strongest, of O, CO and TO the strongest, and Input unless IO stays. */
  function Strongest(h: Held): Held {
    (if TIO in h then {TIO} else if CIO in h then {CIO} else if IO in h then {IO} else {})
    + (if TO in h then {TO} else if CO in h then {CO} else if Output in h then {Output} else {})
    + (if Input in h && (TIO in h || CIO in h || IO !in h) then {Input} else {})
  }

  function DroppedAll(h: Held): Held {
    var h3 := Dropped(Dropped(Dropped(h, CIO, TIO), IO, TIO), IO, CIO);
    Dropped(Dropped(Dropped(Dropped(h3, Input, IO), CO, TO), Output, TO), Output, CO)
  }

  lemma DropsLeaveStrongest(h: Held)
    ensures DroppedAll(h) == Strongest(h)
  {
    var h3 := Dropped(Dropped(Dropped(h, CIO, TIO), IO, TIO), IO, CIO);
    assert forall x :: x in h3 <==> x in h && !(x == CIO && TIO in h) && !(x == IO && (TIO in h || CIO in h));
    forall x: Class ensures x in DroppedAll(h) <==> x in Strongest(h) {
    }
  }

  lemma CleaningLeavesStrongest(m: Offsets, a: Allocation, o: nat)
    ensures HeldIn(CleanedAll(m), a, o) == Strongest(HeldIn(m, a, o))
  {
    var m1 := Cleaned(m, CIO, TIO);
    var m2 := Cleaned(m1, IO, TIO);
    var m3 := Cleaned(m2, IO, CIO);
    var m4 := Cleaned(m3, Input, IO);
    var m5 := Cleaned(m4, CO, TO);
    var m6 := Cleaned(m5, Output, TO);
    CleanedDrops(m, CIO, TIO, a, o);
    CleanedDrops(m1, IO, TIO, a, o);
    CleanedDrops(m2, IO, CIO, a, o);
    CleanedDrops(m3, Input, IO, a, o);
    CleanedDrops(m4, CO, TO, a, o);
    CleanedDrops(m5, Output, TO, a, o);
    CleanedDrops(m6, Output, CO, a, o);
    DropsLeaveStrongest(HeldIn(m, a, o));
  }

  /** A class that is kept for one that has an offset. */
  function Above(h: Held, c: Class): (d: Class)
    requires c in h
    ensures d in Strongest(h) && Leq(Some(c), Some(d)) && (c != Input ==> d != Input && HasInput(Some(c)) == HasInput(Some(d)))
  {
    match c
    case Input => if TIO in h || CIO in h || IO !in h then Input else IO
    case TIO => TIO
    case CIO => if TIO in h then TIO else CIO
    case IO => if TIO in h then TIO else if CIO in h then CIO else IO
    case TO => TO
    case CO => if TO in h then TO else CO
    case Output => if TO in h then TO else if CO in h then CO else Output
  }

  predicate SameHalf(c: Class, d: Class) {
    c != Input && d != Input && HasInput(Some(c)) == HasInput(Some(d))
  }

  lemma StrongestIsOne(h: Held, c: Class, d: Class)
    requires c in Strongest(h) && d in Strongest(h) && SameHalf(c, d)
    ensures c == d
  {
  }

  /** What a cleaning from `h` to `k` must do for a class: if it gives up the offset
      it lies below one that keeps it, on its own side unless it is Input; and no
      other class of its side keeps the offset beside it. */
  ghost predicate KeepsStrongest(h: Held, k: Held, c: Class) {
    && (c in h ==> exists d :: d in k && Leq(Some(c), Some(d)) && (c != Input ==> SameHalf(c, d)))
    && (forall d :: c in k && d in k && SameHalf(c, d) ==> c == d)
  }

  lemma StrongestKeeps(h: Held, c: Class)
    ensures KeepsStrongest(h, Strongest(h), c)
  {
    if c in h {
      var d := Above(h, c);
    }
    forall d | c in Strongest(h) && d in Strongest(h) && SameHalf(c, d) ensures c == d {
      StrongestIsOne(h, c, d);
    }
  }

  /** The cleanings lose nothing and leave the strongest: at most one of IO, CIO and
      TIO is left with the offset, at most one of O, CO and TO, and not both Input
      and IO. */
  lemma CleaningKeepsStrongest(m: Offsets, a: Allocation, o: nat, c: Class)
    ensures var h, k := HeldIn(m, a, o), HeldIn(CleanedAll(m), a, o);
            k <= h && KeepsStrongest(h, k, c) && !(Input in k && IO in k)
  {
    CleaningLeavesStrongest(m, a, o);
    StrongestKeeps(HeldIn(m, a, o), c);
  }

  /** Input is compared with what IO has left, so an offset that a stronger class
      took from IO stays in Input as well. */
  lemma InputStaysBesideStronger(m: Offsets, a: Allocation, o: nat)
    ensures var h := HeldIn(m, a, o);
            Input in HeldIn(CleanedAll(m), a, o) <==> Input in h && (IO in h ==> TIO in h || CIO in h)
  {
    CleaningLeavesStrongest(m, a, o);
  }

  /** The report cleans the working sets, and by then a commit has emptied them: the
      final sets, which are what is saved, stay as they are. */
  method CommitThenReport(s: State)
    modifies s
    ensures s.current == map[]
    ensures s.FinalFacts() == old(s.FinalFacts()) + old(s.CurrentFacts())
  {
    s.CommitState();
    ReportState(s);
    assert CleanedAll(map[]) == map[];
  }
}
