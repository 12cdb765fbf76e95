/** The cleaning pass over a batch of entries, in place. */
module Texas {
  import opened Classes
  import opened Cleaning
  import opened Runtime
  import I = Instrumentation
  import C = Classification

  /** Which classes the tool was asked to report. */
  datatype Flags = Flags(input: bool, output: bool, cloneable: bool, transfer: bool, cycles: bool)

  predicate Tracked(c: Class, f: Flags) {
    match c
    case Input => f.input
    case IO => f.input || f.output
    case CIO => f.cloneable || f.input || f.output
    case TIO => f.transfer || f.input || f.output
    case Output => f.output
    case CO => f.cloneable || f.output
    case TO => f.transfer || f.output
  }

  /** The operation left on an access whose region ends the batch with `cls`. */
  function Relabel(op: Operation, cls: Option<Class>, f: Flags): Operation {
    if cls.Some? && Tracked(cls.value, f) then AddTo(cls.value)
    else if f.cycles then op
    else Redundant
  }

  /** An entry after the pass, given the region the pass was in when it met the
      entry and the state the pass ended the batch in. */
  function CleanedEntry(e: Entry, current: Option<State>, after: Cleaner<State>, f: Flags): Entry {
    match OpOf(e)
    case Access(_, p) =>
      if current.None? then e.(operation := Redundant)
      else e.(payload := Region(current.value), operation := Relabel(e.operation, after.ClassOf(current.value, p), f))
    case BeginRegion(_) => e.(operation := Redundant)
    case EndRegion(_, _) => e.(operation := Redundant)
    case Other => e
  }

  /** What the first loop leaves on an entry. */
  function Attributed(e: Entry, current: Option<State>): Entry {
    match OpOf(e)
    case Access(_, p) =>
      if current.None? then e.(operation := Redundant) else e.(payload := Region(current.value))
    case BeginRegion(_) => e.(operation := Redundant)
    case EndRegion(_, _) => e.(operation := Redundant)
    case Other => e
  }

  function AttributedAll(es: seq<Entry>, current: Option<State>): (r: seq<Entry>)
    ensures |r| == |es|
    decreases |es|
  {
    if es == [] then []
    else [Attributed(es[0], current)] + AttributedAll(es[1..], NextCurrent(current, OpOf(es[0])))
  }

  /** A batch after the pass. */
  function CleanedAll(es: seq<Entry>, current: Option<State>, after: Cleaner<State>, f: Flags): (r: seq<Entry>)
    ensures |r| == |es|
    decreases |es|
  {
    if es == [] then []
    else [CleanedEntry(es[0], current, after, f)] + CleanedAll(es[1..], NextCurrent(current, OpOf(es[0])), after, f)
  }

  /** Region entries carry a region. */
  predicate WellFormed(es: seq<Entry>) {
    forall i :: 0 <= i < |es| && es[i].operation in {StateBegin, StateEnd} ==> es[i].payload.Region?
  }

  /** The regions are closed under what the entries can lead to. */
  ghost predicate Knows(states: set<State>, es: seq<Entry>) {
    && (forall s: State :: s in states && s.parent != null ==> s.parent in states)
    && (forall i :: 0 <= i < |es| && es[i].payload.Region? ==> es[i].payload.state in states)
  }

  ghost function Snapshot(states: set<State>): map<State, Maps>
    reads states
  {
    map s | s in states :: s.Maps()
  }

  function Lookup(m: map<Addr, Class>, a: Addr): Option<Class> {
    if a in m then Some(m[a]) else None
  }

  /** The region the pass is in at entry `i`, which is a known one. */
  lemma {:induction false} CurrentAt(es: seq<Entry>, current: Option<State>, after: Cleaner<State>, f: Flags,
                                     i: nat, states: set<State>) returns (k: Option<State>)
    requires i < |es| && Knows(states, es)
    requires current.Some? ==> current.value in states
    ensures k.Some? ==> k.value in states
    ensures AttributedAll(es, current)[i] == Attributed(es[i], k)
    ensures CleanedAll(es, current, after, f)[i] == CleanedEntry(es[i], k, after, f)
    decreases i
  {
    if i == 0 {
      k := current;
    } else {
      assert es[1..][i - 1] == es[i];
      assert es[0].payload.Region? ==> es[0].payload.state in states;
      k := CurrentAt(es[1..], NextCurrent(current, OpOf(es[0])), after, f, i - 1, states);
    }
  }

  // ---- What the pass leaves on an entry, kind by kind ------------------------------------

  /** A class is reported by its halves: what was read before, what was written, and
      how far the writes have gone. */
  lemma TrackedByHalves(c: Class, f: Flags)
    ensures Tracked(c, f) <==>
              || (f.input && HasInput(Some(c)))
              || (f.output && Level(Some(c)) > 0)
              || (f.cloneable && Level(Some(c)) == 2)
              || (f.transfer && Level(Some(c)) == 3)
  {
  }

  predicate IsAccess(e: Entry) {
    e.operation == AddRead || e.operation == AddWrite
  }

  predicate IsRegionEntry(e: Entry) {
    e.operation == StateBegin || e.operation == StateEnd
  }

  /** Of an entry that is neither an access nor a region's, the pass leaves
      everything; of a region's, all but the operation; of an access, where it was,
      its affiliated region and its information. */
  predicate PassedOn(e: Entry, r: Entry) {
    && (!IsAccess(e) && !IsRegionEntry(e) ==> r == e)
    && (IsRegionEntry(e) ==> r.operation == Redundant && r.payload == e.payload)
    && r.ptr == e.ptr && r.affiliated == e.affiliated && r.information == e.information
  }

  /** An access carries its region and its class, if the class is reported; otherwise
      it stays an access for the search for cycles, or is redundant. */
  predicate LabelledAs(e: Entry, r: Entry, region: Option<State>, cls: Option<Class>, f: Flags) {
    if region.None? then r.operation == Redundant
    else
      && r.payload == Region(region.value)
      && r.operation == if cls.Some? && Tracked(cls.value, f) then AddTo(cls.value) else if f.cycles then e.operation else Redundant
  }

  ghost predicate PassedOnAll(es: seq<Entry>, rs: seq<Entry>) {
    |rs| == |es| && forall i :: 0 <= i < |es| ==> PassedOn(es[i], rs[i])
  }

  lemma {:induction false} AllAttributed(es: seq<Entry>, current: Option<State>)
    requires WellFormed(es)
    ensures PassedOnAll(es, AttributedAll(es, current))
    decreases |es|
  {
    if es == [] {
    } else {
      AllAttributed(es[1..], NextCurrent(current, OpOf(es[0])));
    }
  }

  lemma AllCleaned(es: seq<Entry>, current: Option<State>, after: Cleaner<State>, f: Flags)
    requires WellFormed(es)
    ensures PassedOnAll(es, CleanedAll(es, current, after, f))
  {
    forall i | 0 <= i < |es| ensures PassedOn(es[i], CleanedAll(es, current, after, f)[i]) {
      EntryAfter(es, current, after, f, i);
    }
  }

  lemma {:induction false} EntryAfter(es: seq<Entry>, current: Option<State>, after: Cleaner<State>, f: Flags, i: nat)
    requires i < |es| && WellFormed(es)
    ensures var r, k := CleanedAll(es, current, after, f)[i], CurrentAfter(current, Ops(es)[..i]);
            && PassedOn(es[i], r)
            && (IsAccess(es[i]) ==> LabelledAs(es[i], r, k, if k.Some? then after.ClassOf(k.value, es[i].ptr) else None, f))
    decreases i
  {
    if i == 0 {
    } else {
      assert Ops(es)[..i][1..] == Ops(es[1..])[..i - 1] && Ops(es)[..i][0] == OpOf(es[0]);
      EntryAfter(es[1..], NextCurrent(current, OpOf(es[0])), after, f, i - 1);
    }
  }

  /** A sequence overwritten from the left by another, one element on. */
  lemma OverwriteStep<T>(goal: seq<T>, orig: seq<T>, i: nat, v: T)
    requires i < |goal| <= |orig| && goal[i] == v
    ensures (goal[..i] + orig[i..])[i] == orig[i]
    ensures (goal[..i] + orig[i..])[i := v] == goal[..i + 1] + orig[i + 1..]
  {
  }

  lemma TwoParts<T>(s: seq<T>, head: seq<T>, tail: seq<T>)
    requires |head| <= |s| && s[|head|..] == tail
    requires forall i :: 0 <= i < |head| ==> s[i] == head[i]
    ensures s == head + tail
  {
  }

  lemma AttributedStep(es: seq<Entry>, current: Option<State>, i: nat, k: Option<State>)
    requires i < |es| && AttributedAll(es, current)[i..] == AttributedAll(es[i..], k)
    ensures AttributedAll(es, current)[i] == Attributed(es[i], k)
    ensures AttributedAll(es, current)[i + 1..] == AttributedAll(es[i + 1..], NextCurrent(k, OpOf(es[i])))
  {
    assert es[i..][1..] == es[i + 1..];
    assert AttributedAll(es, current)[i + 1..] == AttributedAll(es, current)[i..][1..];
  }

  lemma OpsStep(c: Cleaner<State>, es: seq<Entry>, i: nat)
    requires i < |es|
    ensures Clean(c, Ops(es[i..])) == Clean(StepOp(c, OpOf(es[i])), Ops(es[i + 1..]))
    ensures I.NoOrphans(c.current, Ops(es[i..])) ==>
              (OpOf(es[i]).Access? ==> c.current.Some?)
              && I.NoOrphans(NextCurrent(c.current, OpOf(es[i])), Ops(es[i + 1..]))
  {
    assert Ops(es[i..])[1..] == Ops(es[i + 1..]);
  }

  /** The first loop is at entry `i`: what is left, from the state it has reached,
      comes to what the whole comes to from the start. */
  ghost predicate Reached(start: Cleaner<State>, es: seq<Entry>, i: nat, c: Cleaner<State>, orphanless: bool)
    requires i <= |es|
  {
    && Clean(c, Ops(es[i..])) == Clean(start, Ops(es))
    && AttributedAll(es, start.current)[i..] == AttributedAll(es[i..], c.current)
    && (orphanless ==> I.NoOrphans(c.current, Ops(es[i..])))
  }

  lemma ReachedStart(start: Cleaner<State>, es: seq<Entry>, orphanless: bool)
    requires orphanless ==> I.NoOrphans(start.current, Ops(es))
    ensures Reached(start, es, 0, start, orphanless)
  {
    assert es[0..] == es;
  }

  lemma ReachedEnd(start: Cleaner<State>, es: seq<Entry>, c: Cleaner<State>, orphanless: bool)
    requires Reached(start, es, |es|, c, orphanless)
    ensures c == Clean(start, Ops(es))
    ensures AttributedAll(es, start.current)[..|es|] == AttributedAll(es, start.current)
  {
  }

  lemma ReachedNext(start: Cleaner<State>, es: seq<Entry>, i: nat, c: Cleaner<State>, orphanless: bool)
    requires i < |es| && Reached(start, es, i, c, orphanless)
    ensures Reached(start, es, i + 1, StepOp(c, OpOf(es[i])), orphanless)
    ensures AttributedAll(es, start.current)[i] == Attributed(es[i], c.current)
    ensures orphanless && OpOf(es[i]).Access? ==> c.current.Some?
  {
    AttributedStep(es, start.current, i, c.current);
    OpsStep(c, es, i);
  }

  class Texas {
    const flags: Flags
    var oldState: State?

    constructor (flags: Flags)
      ensures this.flags == flags && oldState == null
    {
      this.flags, oldState := flags, null;
    }

    /** One access in region `s`, as the pass's nested switch treats it. */
    method CleanAccess(s: State, write: bool, ptr: Addr)
      modifies s`ptrMap, s`iterMap, s`upgrades
      ensures s.Maps() == AccessMaps(old(s.Maps()), if write then C.Write else C.Read, ptr)
    {
      if ptr in s.ptrMap {
        match s.ptrMap[ptr] {
          case Input =>
            if write {
              s.ptrMap := s.ptrMap[ptr := IO];
              s.upgrades := s.upgrades + {ptr};
            } else {
              assert s.ptrMap[ptr := Input] == s.ptrMap;
            }
          case IO =>
            if ptr in s.upgrades {
              assert s.ptrMap[ptr := IO] == s.ptrMap && s.upgrades + {ptr} == s.upgrades;
            } else {
              s.ptrMap := s.ptrMap[ptr := if write then CIO else TIO];
              s.upgrades := s.upgrades + {ptr};
            }
          case CIO =>
            if !write && ptr in s.upgrades {
              assert s.ptrMap[ptr := CIO] == s.ptrMap && s.upgrades + {ptr} == s.upgrades;
            } else {
              if write {
                assert s.ptrMap[ptr := CIO] == s.ptrMap;
              } else {
                s.ptrMap := s.ptrMap[ptr := TIO];
              }
              s.upgrades := s.upgrades + {ptr};
            }
          case TIO =>
            assert s.ptrMap[ptr := TIO] == s.ptrMap;
            s.upgrades := s.upgrades + {ptr};
          case Output =>
            if ptr in s.upgrades {
              assert s.ptrMap[ptr := Output] == s.ptrMap && s.upgrades + {ptr} == s.upgrades;
            } else {
              s.ptrMap := s.ptrMap[ptr := if write then CO else TO];
              s.upgrades := s.upgrades + {ptr};
            }
          case CO =>
            if !write && ptr in s.upgrades {
              assert s.ptrMap[ptr := CO] == s.ptrMap && s.upgrades + {ptr} == s.upgrades;
            } else {
              if write {
                assert s.ptrMap[ptr := CO] == s.ptrMap;
              } else {
                s.ptrMap := s.ptrMap[ptr := TO];
              }
              s.upgrades := s.upgrades + {ptr};
            }
          case TO =>
            assert s.ptrMap[ptr := TO] == s.ptrMap;
            s.upgrades := s.upgrades + {ptr};
        }
      } else if ptr in s.iterMap {
        assert s.iterMap[ptr := s.iterMap[ptr]] == s.iterMap;
        if s.iterMap[ptr] == Input && write {
          s.iterMap := s.iterMap[ptr := IO];
        }
      } else {
        s.iterMap := s.iterMap[ptr := if write then Output else Input];
      }
    }

    /** A region's end: what its iteration found joins what it knew. */
    method Promote(s: State)
      modifies s`ptrMap
      ensures s.Maps() == EndMaps(old(s.Maps()))
    {
      var left := s.iterMap.Keys;
      ghost var before := s.ptrMap;
      while left != {}
        invariant left <= s.iterMap.Keys
        invariant s.iterMap == old(s.iterMap) && s.upgrades == old(s.upgrades)
        invariant s.ptrMap == (map a | a in s.iterMap && a !in left :: s.iterMap[a]) + before
        decreases left
      {
        var a :| a in left;
        if a !in s.ptrMap {
          s.ptrMap := s.ptrMap[a := s.iterMap[a]];
        }
        left := left - {a};
      }
      assert (map a | a in s.iterMap && a !in left :: s.iterMap[a]) == s.iterMap;
    }

    /** The first loop's work on the regions, for one entry. */
    method CleanOne(e: Entry, batchState: State?, ghost states: set<State>) returns (next: State?)
      requires WellFormed([e]) && Knows(states, [e])
      requires batchState != null ==> batchState in states
      modifies this`oldState, states`ptrMap, states`iterMap, states`upgrades
      ensures Cleaner(Snapshot(states), AsOption(next))
           == StepOp(old(Cleaner(Snapshot(states), AsOption(batchState))), OpOf(e))
      ensures oldState == if e.operation in {StateBegin, StateEnd} then next else old(oldState)
      ensures next != null ==> next in states
    {
      assert [e][0] == e;
      next := batchState;
      ghost var before := Snapshot(states);
      match e.operation {
        case AddRead =>
          if batchState != null {
            CleanAccess(batchState, false, e.ptr);
            assert Snapshot(states) == before[batchState := batchState.Maps()];
          }
        case AddWrite =>
          if batchState != null {
            CleanAccess(batchState, true, e.ptr);
            assert Snapshot(states) == before[batchState := batchState.Maps()];
          }
        case StateEnd =>
          Promote(e.payload.state);
          assert Snapshot(states) == before[e.payload.state := e.payload.state.Maps()];
          next := e.payload.state.parent;
          oldState := next;
        case StateBegin =>
          next := e.payload.state;
          oldState := next;
          next.iterMap := map[];
          next.upgrades := {};
          assert Snapshot(states) == before[next := next.Maps()];
        case _ =>
      }
    }

    /** The first loop's work on the entry itself. */
    method AttributeEntry(entries: array<Entry>, i: nat, batchState: State?)
      requires i < entries.Length
      requires OpOf(entries[i]).Access? && batchState == null ==> flags.cycles
      requires WellFormed([entries[i]])
      modifies entries
      ensures entries[..] == old(entries[..])[i := Attributed(old(entries[i]), AsOption(batchState))]
    {
      var e := entries[i];
      assert [e][0] == e;
      if e.operation == AddRead || e.operation == AddWrite {
        if batchState == null {
          if flags.cycles {
            entries[i] := e.(operation := Redundant);
          }
        } else {
          entries[i] := e.(payload := Region(batchState));
        }
      } else if e.operation == StateBegin || e.operation == StateEnd {
        entries[i] := e.(operation := Redundant);
      }
    }

    /** The class an access's region has for it now. */
    function LabelledEntry(e: Entry): Entry
      requires e.operation in {AddRead, AddWrite} ==> e.payload.Region?
      reads if e.payload.Region? then {e.payload.state} else {}
    {
      if e.operation in {AddRead, AddWrite}
      then e.(operation := Relabel(e.operation, Lookup(e.payload.state.ptrMap, e.ptr), flags))
      else e
    }

    /** The second loop: every access gets its class. */
    method LabelAll(entries: array<Entry>, n: nat)
      requires n <= entries.Length
      requires forall i :: 0 <= i < n && entries[i].operation in {AddRead, AddWrite} ==> entries[i].payload.Region?
      modifies entries
      ensures forall i :: 0 <= i < n ==> entries[i] == LabelledEntry(old(entries[i]))
      ensures entries[n..] == old(entries[n..])
    {
      var i := 0;
      while i < n
        invariant i <= n
        invariant forall j :: 0 <= j < i ==> entries[j] == LabelledEntry(old(entries[j]))
        invariant forall j :: i <= j < entries.Length ==> entries[j] == old(entries[j])
      {
        var e := entries[i];
        if e.operation == AddRead || e.operation == AddWrite {
          var s := e.payload.state;
          if e.ptr in s.ptrMap {
            var c := s.ptrMap[e.ptr];
            if Tracked(c, flags) {
              entries[i] := e.(operation := AddTo(c));
            } else if !flags.cycles {
              entries[i] := e.(operation := Redundant);
            }
          } else if !flags.cycles {
            entries[i] := e.(operation := Redundant);
          }
        }
        i := i + 1;
      }
    }

    /** The first loop's work on entry `i`. */
    method AttributeNext(entries: array<Entry>, i: nat, batchState: State?, ghost states: set<State>) returns (next: State?)
      requires i < entries.Length && oldState == batchState
      requires WellFormed([entries[i]]) && Knows(states, [entries[i]])
      requires batchState != null ==> batchState in states
      requires OpOf(entries[i]).Access? && batchState == null ==> flags.cycles
      modifies this`oldState, entries, states`ptrMap, states`iterMap, states`upgrades
      ensures Cleaner(Snapshot(states), AsOption(next))
           == StepOp(old(Cleaner(Snapshot(states), AsOption(batchState))), OpOf(old(entries[i])))
      ensures oldState == next && (next != null ==> next in states)
      ensures entries[..] == old(entries[..])[i := Attributed(old(entries[i]), AsOption(batchState))]
    {
      var e := entries[i];
      AttributeEntry(entries, i, batchState);
      next := CleanOne(e, batchState, states);
    }

    /** ... as one step of the loop. */
    method AttributeAt(entries: array<Entry>, i: nat, batchState: State?, ghost states: set<State>,
                       ghost c0: Cleaner<State>, ghost es: seq<Entry>, ghost orig: seq<Entry>) returns (next: State?)
      requires i < |es| <= entries.Length == |orig| && es == orig[..|es|]
      requires WellFormed(es) && Knows(states, es)
      requires oldState == batchState && (batchState != null ==> batchState in states)
      requires Reached(c0, es, i, Cleaner(Snapshot(states), AsOption(batchState)), !flags.cycles)
      requires entries[..] == AttributedAll(es, c0.current)[..i] + orig[i..]
      modifies this`oldState, entries, states`ptrMap, states`iterMap, states`upgrades
      ensures oldState == next && (next != null ==> next in states)
      ensures Reached(c0, es, i + 1, Cleaner(Snapshot(states), AsOption(next)), !flags.cycles)
      ensures entries[..] == AttributedAll(es, c0.current)[..i + 1] + orig[i + 1..]
    {
      ghost var goal := AttributedAll(es, c0.current);
      OverwriteStep(goal, orig, i, goal[i]);
      assert entries[i] == entries[..][i] == es[i];
      ReachedNext(c0, es, i, Cleaner(Snapshot(states), AsOption(batchState)), !flags.cycles);
      next := AttributeNext(entries, i, batchState, states);
    }

    /** The first loop: every region's maps, and which region each access is in. */
    method Attribute(entries: array<Entry>, n: nat, ghost states: set<State>)
      requires n <= entries.Length
      requires WellFormed(entries[..n]) && Knows(states, entries[..n])
      requires oldState != null ==> oldState in states
      requires flags.cycles || I.NoOrphans(AsOption(oldState), Ops(entries[..n]))
      modifies this`oldState, entries, states`ptrMap, states`iterMap, states`upgrades
      ensures Cleaner(Snapshot(states), AsOption(oldState))
           == Clean(old(Cleaner(Snapshot(states), AsOption(oldState))), Ops(old(entries[..n])))
      ensures oldState != null ==> oldState in states
      ensures entries[..] == AttributedAll(old(entries[..n]), old(AsOption(oldState))) + old(entries[n..])
    {
      ghost var orig := entries[..];
      ghost var es := entries[..n];
      ghost var c0 := Cleaner(Snapshot(states), AsOption(oldState));
      var batchState := oldState;
      var i := 0;
      ReachedStart(c0, es, !flags.cycles);
      assert entries[..] == AttributedAll(es, c0.current)[..0] + orig[0..];
      while i < n
        invariant i <= n
        invariant batchState != null ==> batchState in states
        invariant oldState == batchState
        invariant Reached(c0, es, i, Cleaner(Snapshot(states), AsOption(batchState)), !flags.cycles)
        invariant entries[..] == AttributedAll(es, c0.current)[..i] + orig[i..]
      {
        batchState := AttributeAt(entries, i, batchState, states, c0, es, orig);
        i := i + 1;
      }
      ReachedEnd(c0, es, Cleaner(Snapshot(states), AsOption(batchState)), !flags.cycles);
    }

    /** What the second loop makes of what the first one left. */
    lemma LabelledAfter(es: seq<Entry>, current: Option<State>, states: set<State>, i: nat)
      requires i < |es| && Knows(states, es) && (current.Some? ==> current.value in states)
      ensures var mid := AttributedAll(es, current)[i];
              && (mid.operation in {AddRead, AddWrite} ==> mid.payload.Region?)
              && CleanedAll(es, current, Cleaner(Snapshot(states), AsOption(oldState)), flags)[i] == LabelledEntry(mid)
    {
      var k := CurrentAt(es, current, Cleaner(Snapshot(states), AsOption(oldState)), flags, i, states);
    }

    /** The pass over the first `n` entries of a batch: it takes every region's
        maps and the current region where the specification says, and leaves on
        each access the class its region ends the batch with. */
    method CleanBatch(entries: array<Entry>, n: nat, ghost states: set<State>)
      requires n <= entries.Length
      requires WellFormed(entries[..n]) && Knows(states, entries[..n])
      requires oldState != null ==> oldState in states
      requires flags.cycles || I.NoOrphans(AsOption(oldState), Ops(entries[..n]))
      modifies this`oldState, entries, states`ptrMap, states`iterMap, states`upgrades
      ensures Cleaner(Snapshot(states), AsOption(oldState))
           == Clean(old(Cleaner(Snapshot(states), AsOption(oldState))), Ops(old(entries[..n])))
      ensures oldState != null ==> oldState in states
      ensures entries[..] == CleanedAll(old(entries[..n]), old(AsOption(oldState)),
                                        Cleaner(Snapshot(states), AsOption(oldState)), flags) + old(entries[n..])
      ensures PassedOnAll(old(entries[..n]), entries[..n])
    {
      ghost var es := entries[..n];
      ghost var current := AsOption(oldState);
      Attribute(entries, n, states);
      ghost var after := Cleaner(Snapshot(states), AsOption(oldState));
      ghost var mid := entries[..];
      ghost var goal := CleanedAll(es, current, after, flags);
      forall i | 0 <= i < n
        ensures mid[i].operation in {AddRead, AddWrite} ==> mid[i].payload.Region?
        ensures goal[i] == LabelledEntry(mid[i])
      {
        LabelledAfter(es, current, states, i);
        assert mid[i] == AttributedAll(es, current)[i];
      }
      LabelAll(entries, n);
      TwoParts(entries[..], goal, mid[n..]);
      AllCleaned(es, current, after, flags);
      assert entries[..n] == goal;
    }
  }

  predicate AllTracked(f: Flags) {
    f.input && f.output && f.cloneable && f.transfer
  }

  /** With every class tracked, what the pass leaves on the entries is the
      specification's labels: the region, and the class if there is one. */
  lemma {:induction false} CleanedAreLabels(es: seq<Entry>, current: Option<State>, after: Cleaner<State>, f: Flags, i: nat)
    requires i < |es| && AllTracked(f)
    ensures var l := Labels(after, current, Ops(es))[i];
            var e := CleanedAll(es, current, after, f)[i];
            && (l.Label? <==> es[i].operation in {AddRead, AddWrite})
            && (l.Label? && l.region.Some? ==> e.payload == Region(l.region.value) && e.ptr == l.ptr)
            && (l.Label? ==> (e.operation.AddTo? <==> l.cls.Some?) && (l.cls.Some? ==> e.operation == AddTo(l.cls.value)))
    decreases i
  {
    assert Ops(es)[1..] == Ops(es[1..]);
    if i == 0 {
    } else {
      CleanedAreLabels(es[1..], NextCurrent(current, OpOf(es[0])), after, f, i - 1);
    }
  }
}
