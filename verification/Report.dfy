/** The report-time merge as the report tools run it: the seven lists of one
    region's report, reworked in place. */
module Report {
  import opened Classes
  import opened Merge

  lemma DedupedStep(s: seq<Saved>, it: nat, ids: set<nat>)
    requires it < |s|
    ensures var t := s[..it] + s[it + 1..];
            s[..it] + Deduped(s[it..], ids)
            == if s[it].uniqueID in ids then t[..it] + Deduped(t[it..], ids)
               else s[..it + 1] + Deduped(s[it + 1..], ids + {s[it].uniqueID})
  {
    var rest, t := s[it..], s[..it] + s[it + 1..];
    assert rest[0] == s[it] && rest[1..] == s[it + 1..];
    assert t[..it] == s[..it] && t[it..] == rest[1..];
    assert s[..it + 1] == s[..it] + [rest[0]];
  }

  /** Keeps the first element of each ID. */
  method RemoveDuplicatesFromSet(set': seq<Saved>) returns (s: seq<Saved>)
    ensures s == Deduped(set', {})
  {
    s := set';
    var uniqueIDs := {};
    var it := 0;
    while it < |s|
      invariant it <= |s|
      invariant s[..it] + Deduped(s[it..], uniqueIDs) == Deduped(set', {})
      decreases |s| - it
    {
      var uniqueID := s[it].uniqueID;
      DedupedStep(s, it, uniqueIDs);
      if uniqueID !in uniqueIDs {
        uniqueIDs := uniqueIDs + {uniqueID};
        it := it + 1;
      } else {
        s := s[..it] + s[it + 1..];
      }
    }
  }

  /** The inner loop: the first element with an ID is erased. */
  method EraseFirst(set': seq<Saved>, id: nat) returns (s: seq<Saved>, found: bool)
    ensures var i := Find(set', id);
            && found == (i < |set'|)
            && s == if found then Without(set', i) else set'
  {
    s := set';
    var it := 0;
    while it < |s|
      invariant it <= |s|
      invariant forall j :: 0 <= j < it ==> s[j].uniqueID != id
    {
      if s[it].uniqueID == id {
        return Without(s, it), true;
      }
      it := it + 1;
    }
    return s, false;
  }

  /** The outcome, with the first `it1` elements gone through. */
  function MatchedSoFar(s1: seq<Saved>, s2: seq<Saved>, it1: nat, toAdd: seq<Saved>): Matched
    requires it1 <= |s1|
  {
    var m := Match(s1[it1..], s2);
    Matched(s1[..it1] + m.rest1, m.rest2, toAdd + m.added)
  }

  lemma MatchStep(s1: seq<Saved>, s2: seq<Saved>, it1: nat, toAdd: seq<Saved>)
    requires it1 < |s1|
    ensures var i := Find(s2, s1[it1].uniqueID);
            MatchedSoFar(s1, s2, it1, toAdd)
            == if i < |s2| then MatchedSoFar(Without(s1, it1), Without(s2, i), it1, toAdd + [s1[it1]])
               else MatchedSoFar(s1, s2, it1 + 1, toAdd)
  {
    var rest := s1[it1..];
    var i := Find(s2, s1[it1].uniqueID);
    assert rest[0] == s1[it1] && rest[1..] == s1[it1 + 1..];
    WithoutAt(s1, it1);
    var m := Match(rest[1..], if i < |s2| then Without(s2, i) else s2);
    Regroup(s1[..it1], rest[0], m.rest1);
    Regroup(toAdd, rest[0], m.added);
  }

  lemma WithoutAt(s: seq<Saved>, i: nat)
    requires i < |s|
    ensures Without(s, i)[..i] == s[..i] && Without(s, i)[i..] == s[i + 1..]
    ensures s[..i + 1] == s[..i] + [s[i]]
  {
  }

  lemma Regroup<T>(s: seq<T>, x: T, t: seq<T>)
    ensures s + ([x] + t) == (s + [x]) + t
  {
  }

  /** The two loops over the sources: what they erase from each, and what they
      collect for the destination. */
  method Pair(set1: seq<Saved>, set2: seq<Saved>) returns (s1: seq<Saved>, s2: seq<Saved>, toAdd: seq<Saved>)
    ensures Matched(s1, s2, toAdd) == Match(set1, set2)
  {
    s1, s2, toAdd := set1, set2, [];
    var it1 := 0;
    while it1 < |s1|
      invariant it1 <= |s1|
      invariant Match(set1, set2) == MatchedSoFar(s1, s2, it1, toAdd)
      decreases |s1| - it1
    {
      var a := s1[it1];
      MatchStep(s1, s2, it1, toAdd);
      var foundDuplicate;
      s2, foundDuplicate := EraseFirst(s2, a.uniqueID);
      if foundDuplicate {
        toAdd := toAdd + [a];
        s1 := Without(s1, it1);
      } else {
        it1 := it1 + 1;
      }
    }
    assert s1[..it1] == s1 && s1[it1..] == [];
  }

  method UniqueIDs(s: seq<Saved>) returns (ids: set<nat>)
    ensures forall id :: id in ids <==> IDs(s)[id] > 0
  {
    ids := {};
    var i := 0;
    assert s[0..] == s;
    while i < |s|
      invariant i <= |s|
      invariant forall id :: IDs(s)[id] > 0 <==> id in ids || IDs(s[i..])[id] > 0
    {
      assert s[i..][1..] == s[i + 1..];
      ids := ids + {s[i].uniqueID};
      i := i + 1;
    }
  }

  method IsThereIntersection(set1: seq<Saved>, set2: seq<Saved>) returns (b: bool)
    ensures b <==> ShareIDs(set1, set2)
  {
    var ids1 := UniqueIDs(set1);
    var ids2 := UniqueIDs(set2);
    b := ids1 * ids2 != {};
    if b {
      ghost var id :| id in ids1 * ids2;
      assert id in ids1 && id in ids2;
    } else {
      forall id ensures IDs(set1)[id] == 0 || IDs(set2)[id] == 0 {
        assert id !in ids1 * ids2;
      }
    }
  }

  lemma FixListsUpdates(l: Lists, f: Fix, m: Matched)
    requires forall c: Class :: c in l
    requires f.src1 != f.src2 && f.src1 != f.dst
    requires m == Match(l[f.src1], l[f.src2])
    ensures var k := l[f.src1 := m.rest1][f.src2 := m.rest2];
            k[f.dst := k[f.dst] + m.added] == FixLists(l, f)
  {
    var k := l[f.src1 := m.rest1][f.src2 := m.rest2];
    var r := k[f.dst := k[f.dst] + m.added];
    forall c: Class ensures c in r && r[c] == FixList(l, f, c) {
      FixListUpdate(l, f, m, c);
    }
    SameLists(r, l, f);
  }

  lemma SameLists(k: Lists, l: Lists, f: Fix)
    requires forall c: Class :: c in k && k[c] == FixList(l, f, c)
    ensures k == FixLists(l, f)
  {
  }

  lemma FixListUpdate(l: Lists, f: Fix, m: Matched, c: Class)
    requires forall c: Class :: c in l
    requires f.src1 != f.src2 && f.src1 != f.dst
    requires m == Match(l[f.src1], l[f.src2])
    ensures var k := l[f.src1 := m.rest1][f.src2 := m.rest2];
            k[f.dst := k[f.dst] + m.added][c] == FixList(l, f, c)
  {
    Placed(m, l[c], c == f.src1, c == f.src2, c == f.dst);
    if c == f.src1 {
    } else if c == f.src2 {
    } else if c == f.dst {
    }
  }

  /** One region's report: a list of saved allocations for each class. */
  class StateToSave {
    var lists: Lists

    constructor (lists: Lists)
      requires forall c: Class :: c in lists
      ensures this.lists == lists
    {
      this.lists := lists;
    }

    ghost predicate Valid()
      reads this
    {
      forall c: Class :: c in lists
    }

    method RemoveDuplicates()
      requires Valid()
      modifies this
      ensures Valid() && lists == DedupLists(old(lists))
    {
      var i := RemoveDuplicatesFromSet(lists[Input]);
      var o := RemoveDuplicatesFromSet(lists[Output]);
      var io := RemoveDuplicatesFromSet(lists[IO]);
      var co := RemoveDuplicatesFromSet(lists[CO]);
      var to := RemoveDuplicatesFromSet(lists[TO]);
      var cio := RemoveDuplicatesFromSet(lists[CIO]);
      var tio := RemoveDuplicatesFromSet(lists[TIO]);
      lists := map[Input := i, Output := o, IO := io, CO := co, TO := to, CIO := cio, TIO := tio];
      forall c: Class ensures c in lists && lists[c] == Deduped(old(lists)[c], {}) {
        match c
        case Input => case Output => case IO => case CO => case TO => case CIO => case TIO =>
      }
    }

    /** Every ID that both sources have goes to the destination, which may be the
        second source. */
    method FixSet(src1: Class, src2: Class, dst: Class)
      requires Valid() && src1 != src2 && src1 != dst
      modifies this
      ensures Valid() && lists == FixLists(old(lists), Fix(src1, src2, dst))
    {
      var rest1, rest2, toAdd := Pair(lists[src1], lists[src2]);
      FixListsUpdates(lists, Fix(src1, src2, dst), Matched(rest1, rest2, toAdd));
      lists := lists[src1 := rest1][src2 := rest2];
      lists := lists[dst := lists[dst] + toAdd];
    }

    // The calls of the pass, one group after the other.

    method JoinInput()
      requires Valid()
      modifies this
      ensures Valid() && lists == RunFixLists(old(lists), JOIN_INPUT)
    {
      ghost var fixes := JOIN_INPUT;
      assert fixes[0..] == fixes;
      RunNextLists(lists, fixes, 0);
      FixSet(Input, Output, IO);
      RunNextLists(lists, fixes, 1);
      FixSet(Input, CO, CIO);
      RunNextLists(lists, fixes, 2);
      FixSet(Input, TO, TIO);
      assert fixes[3..] == [];
    }

    method FixInput()
      requires Valid()
      modifies this
      ensures Valid() && lists == RunFixLists(old(lists), FROM_INPUT)
    {
      ghost var fixes := FROM_INPUT;
      assert fixes[0..] == fixes;
      RunNextLists(lists, fixes, 0);
      FixSet(Input, IO, IO);
      RunNextLists(lists, fixes, 1);
      FixSet(Input, CIO, CIO);
      RunNextLists(lists, fixes, 2);
      FixSet(Input, TIO, TIO);
      assert fixes[3..] == [];
    }

    method FixOutput()
      requires Valid()
      modifies this
      ensures Valid() && lists == RunFixLists(old(lists), FROM_OUTPUT)
    {
      ghost var fixes := FROM_OUTPUT;
      assert fixes[0..] == fixes;
      RunNextLists(lists, fixes, 0);
      FixSet(Output, CO, CO);
      RunNextLists(lists, fixes, 1);
      FixSet(Output, TO, TO);
      RunNextLists(lists, fixes, 2);
      FixSet(Output, IO, IO);
      RunNextLists(lists, fixes, 3);
      FixSet(Output, CIO, CIO);
      RunNextLists(lists, fixes, 4);
      FixSet(Output, TIO, TIO);
      assert fixes[5..] == [];
    }

    method FixIO()
      requires Valid()
      modifies this
      ensures Valid() && lists == RunFixLists(old(lists), FROM_IO)
    {
      ghost var fixes := FROM_IO;
      assert fixes[0..] == fixes;
      RunNextLists(lists, fixes, 0);
      FixSet(IO, CO, CIO);
      RunNextLists(lists, fixes, 1);
      FixSet(IO, TO, TIO);
      RunNextLists(lists, fixes, 2);
      FixSet(IO, CIO, CIO);
      RunNextLists(lists, fixes, 3);
      FixSet(IO, TIO, TIO);
      assert fixes[4..] == [];
    }

    method FixCO()
      requires Valid()
      modifies this
      ensures Valid() && lists == RunFixLists(old(lists), FROM_CO)
    {
      ghost var fixes := FROM_CO;
      assert fixes[0..] == fixes;
      RunNextLists(lists, fixes, 0);
      FixSet(CO, TO, TO);
      RunNextLists(lists, fixes, 1);
      FixSet(CO, CIO, CIO);
      RunNextLists(lists, fixes, 2);
      FixSet(CO, TIO, TIO);
      assert fixes[3..] == [];
    }

    method FixTO()
      requires Valid()
      modifies this
      ensures Valid() && lists == RunFixLists(old(lists), FROM_TO)
    {
      ghost var fixes := FROM_TO;
      assert fixes[0..] == fixes;
      RunNextLists(lists, fixes, 0);
      FixSet(TO, CIO, TIO);
      RunNextLists(lists, fixes, 1);
      FixSet(TO, TIO, TIO);
      assert fixes[2..] == [];
    }

    method FixCIO()
      requires Valid()
      modifies this
      ensures Valid() && lists == RunFixLists(old(lists), FROM_CIO)
    {
      ghost var fixes := FROM_CIO;
      assert fixes[0..] == fixes;
      RunNextLists(lists, fixes, 0);
      FixSet(CIO, TIO, TIO);
      assert fixes[1..] == [];
    }

    method FixSets()
      requires Valid()
      modifies this
      ensures Valid() && lists == RunFixLists(old(lists), Fixes())
    {
      ghost var l := lists;
      JoinInput();
      FixInput();
      FixOutput();
      FixIO();
      FixCO();
      FixTO();
      FixCIO();
      RunFixListsGroups(l);
    }

    /** Whether some two lists share an ID, which would abort the report. */
    method SanityCheck() returns (intersection: bool)
      requires Valid()
      ensures intersection <==> !Disjoint(lists)
    {
      var i, o, io, co, to, cio, tio :=
        lists[Input], lists[Output], lists[IO], lists[CO], lists[TO], lists[CIO], lists[TIO];
      var b := IsThereIntersection(i, o);
      intersection := b;
      b := IsThereIntersection(i, io);
      intersection := intersection || b;
      b := IsThereIntersection(i, co);
      intersection := intersection || b;
      b := IsThereIntersection(i, to);
      intersection := intersection || b;
      b := IsThereIntersection(i, cio);
      intersection := intersection || b;
      b := IsThereIntersection(i, tio);
      intersection := intersection || b;
      b := IsThereIntersection(o, io);
      intersection := intersection || b;
      b := IsThereIntersection(o, co);
      intersection := intersection || b;
      b := IsThereIntersection(o, to);
      intersection := intersection || b;
      b := IsThereIntersection(o, cio);
      intersection := intersection || b;
      b := IsThereIntersection(o, tio);
      intersection := intersection || b;
      b := IsThereIntersection(io, co);
      intersection := intersection || b;
      b := IsThereIntersection(io, to);
      intersection := intersection || b;
      b := IsThereIntersection(io, cio);
      intersection := intersection || b;
      b := IsThereIntersection(io, tio);
      intersection := intersection || b;
      b := IsThereIntersection(co, to);
      intersection := intersection || b;
      b := IsThereIntersection(co, cio);
      intersection := intersection || b;
      b := IsThereIntersection(co, tio);
      intersection := intersection || b;
      b := IsThereIntersection(to, cio);
      intersection := intersection || b;
      b := IsThereIntersection(to, tio);
      intersection := intersection || b;
      b := IsThereIntersection(cio, tio);
      intersection := intersection || b;
      DisjointPairs(lists);
    }

    /** The report-time pass: the lists end pairwise disjoint, so the sanity check
        passes, exactly when no ID starts from a stuck combination of lists. */
    method Merge() returns (aborted: bool)
      requires Valid()
      modifies this
      ensures Valid() && lists == MergeLists(old(lists))
      ensures aborted <==> exists id :: Stuck(CountsIn(old(lists), id))
    {
      RemoveDuplicates();
      FixSets();
      RemoveDuplicates();
      MergeDisjoint(old(lists));
      aborted := SanityCheck();
    }
  }
}
