/** The program's side: what the instrumented program's calls put on the entry
    stream, with and without dropping the accesses a region invocation repeats. */
module Instrumentation {
  import opened Classes
  import opened Cleaning
  import C = Classification

  /** The instrumented program's calls. A store covers `size` bytes in elements
      of `element` bytes. */
  datatype Call<+S> = Enter(region: S)
                    | Exit
                    | Load(ptr: Addr)
                    | Store(ptr: Addr, size: nat, element: nat)

  /** The active region, the parent each known region was created with, and the
      addresses read and written since a region was last left. */
  datatype Producer<S(==)> = Producer(active: Option<S>, parents: map<S, Option<S>>, loads: set<Addr>, stores: set<Addr>) {
    /** Active regions and parents are known regions. */
    ghost predicate Valid() {
      && (active.Some? ==> active.value in parents)
      && forall s :: s in parents && parents[s].Some? ==> parents[s].value in parents
    }
  }

  function Start<S(==)>(): Producer<S> {
    Producer(None, map[], {}, {})
  }

  /** The addresses of a store's elements. */
  function Elements(p: Addr, size: int, element: nat): seq<Addr>
    requires element > 0
    decreases if size > 0 then size else 0
  {
    if size <= 0 then [] else [p] + Elements(p + element, size - element, element)
  }

  /** They are the store's address and every `element` bytes on, up to its size. */
  lemma {:induction false} ElementsAt(p: Addr, size: int, element: nat, k: nat)
    requires element > 0
    ensures var es := Elements(p, size, element);
            && (k < |es| <==> k * element < size)
            && (k < |es| ==> es[k] == p + k * element)
    decreases k
  {
    if k == 0 {
    } else {
      if size > 0 {
        ElementsAt(p + element, size - element, element, k - 1);
      }
      assert k * element == (k - 1) * element + element;
    }
  }

  function Accesses<S>(kind: C.Kind, ps: seq<Addr>): (ops: seq<Op<S>>)
    ensures |ops| == |ps|
  {
    if ps == [] then [] else [Access(kind, ps[0])] + Accesses(kind, ps[1..])
  }

  predicate WellFormed<S>(calls: seq<Call<S>>) {
    forall i :: 0 <= i < |calls| && calls[i].Store? ==> calls[i].element > 0
  }

  /** What a call issues and what it leaves; `dedup` is whether repeated accesses
      are dropped. */
  function Issue<S(==)>(p: Producer<S>, call: Call<S>, dedup: bool): (Producer<S>, seq<Op<S>>)
    requires p.Valid()
    requires call.Store? ==> call.element > 0
  {
    match call
    case Enter(s) =>
      (p.(active := Some(s), parents := if s in p.parents then p.parents else p.parents[s := p.active]), [BeginRegion(s)])
    case Exit =>
      var q := p.(loads := {}, stores := {});
      if p.active.None? then (q, [])
      else (q.(active := p.parents[p.active.value]), [EndRegion(p.active.value, p.parents[p.active.value])])
    case Load(a) =>
      if p.active.None? || (dedup && a in p.loads) then (p, [])
      else (p.(loads := p.loads + {a}), [Access(C.Read, a)])
    case Store(a, size, element) =>
      if p.active.None? || (dedup && a in p.stores) then (p, [])
      else (p.(stores := p.stores + {a}), Accesses(C.Write, Elements(a, size, element)))
  }

  lemma IssueValid<S>(p: Producer<S>, call: Call<S>, dedup: bool)
    requires p.Valid()
    requires call.Store? ==> call.element > 0
    ensures Issue(p, call, dedup).0.Valid()
    ensures Issue(p, call, true).0.(loads := {}, stores := {}) == Issue(p, call, false).0.(loads := {}, stores := {})
  {
  }

  function After<S(==)>(p: Producer<S>, calls: seq<Call<S>>, dedup: bool): (q: Producer<S>)
    requires p.Valid() && WellFormed(calls)
    ensures q.Valid()
    decreases |calls|
  {
    if calls == [] then p else After(Issue(p, calls[0], dedup).0, calls[1..], dedup)
  }

  /** The entry stream of a program. */
  function Stream<S(==)>(p: Producer<S>, calls: seq<Call<S>>, dedup: bool): seq<Op<S>>
    requires p.Valid() && WellFormed(calls)
    decreases |calls|
  {
    if calls == [] then []
    else
      var (p', ops) := Issue(p, calls[0], dedup);
      ops + Stream(p', calls[1..], dedup)
  }

  // ---- The consumer follows the producer ----------------------------------------

  lemma {:induction false} AccessesKeepCurrent<S>(current: Option<S>, kind: C.Kind, ps: seq<Addr>)
    ensures CurrentAfter(current, Accesses(kind, ps)) == current
    decreases |ps|
  {
    if ps == [] {
    } else {
      AccessesKeepCurrent(current, kind, ps[1..]);
    }
  }

  lemma IssueCurrent<S>(p: Producer<S>, call: Call<S>, dedup: bool)
    requires p.Valid()
    requires call.Store? ==> call.element > 0
    ensures CurrentAfter(p.active, Issue(p, call, dedup).1) == Issue(p, call, dedup).0.active
  {
    match call {
      case Enter(s) =>
      case Exit =>
      case Load(a) =>
      case Store(a, size, element) =>
        AccessesKeepCurrent(p.active, C.Write, Elements(a, size, element));
    }
  }

  /** Reading the stream alone, the cleaning pass is always in the region that was
      active when the program issued the entry. In particular no access reaches
      it outside a region, because none is issued there. */
  lemma {:induction false} ConsumerFollows<S>(p: Producer<S>, calls: seq<Call<S>>, dedup: bool)
    requires p.Valid() && WellFormed(calls)
    ensures CurrentAfter(p.active, Stream(p, calls, dedup)) == After(p, calls, dedup).active
    ensures NoOrphans(p.active, Stream(p, calls, dedup))
    decreases |calls|
  {
    if calls == [] {
    } else {
      var (p', ops) := Issue(p, calls[0], dedup);
      IssueCurrent(p, calls[0], dedup);
      IssueNoOrphans(p, calls[0], dedup);
      ConsumerFollows(p', calls[1..], dedup);
      CurrentConcat(p.active, ops, Stream(p', calls[1..], dedup));
      NoOrphansConcat(p.active, ops, Stream(p', calls[1..], dedup));
    }
  }

  /** Every access belongs to a region. */
  predicate NoOrphans<S(==)>(current: Option<S>, ops: seq<Op<S>>)
    decreases |ops|
  {
    ops == [] || ((ops[0].Access? ==> current.Some?) && NoOrphans(NextCurrent(current, ops[0]), ops[1..]))
  }

  lemma {:induction false} NoOrphansConcat<S>(current: Option<S>, ops: seq<Op<S>>, more: seq<Op<S>>)
    requires NoOrphans(current, ops) && NoOrphans(CurrentAfter(current, ops), more)
    ensures NoOrphans(current, ops + more)
    decreases |ops|
  {
    if ops == [] {
      assert ops + more == more;
    } else {
      assert (ops + more)[1..] == ops[1..] + more;
      NoOrphansConcat(NextCurrent(current, ops[0]), ops[1..], more);
    }
  }

  lemma {:induction false} AccessesNoOrphans<S>(s: S, kind: C.Kind, ps: seq<Addr>)
    ensures NoOrphans(Some(s), Accesses(kind, ps))
    decreases |ps|
  {
    if ps == [] {
    } else {
      AccessesNoOrphans(s, kind, ps[1..]);
    }
  }

  lemma IssueNoOrphans<S>(p: Producer<S>, call: Call<S>, dedup: bool)
    requires p.Valid()
    requires call.Store? ==> call.element > 0
    ensures NoOrphans(p.active, Issue(p, call, dedup).1)
  {
    if call.Store? && p.active.Some? {
      AccessesNoOrphans(p.active.value, C.Write, Elements(call.ptr, call.size, call.element));
    }
  }

  // ---- Dropping repeated accesses -------------------------------------------------

  /** An access that would leave the region's maps as they are. */
  predicate Idle(m: Maps, kind: C.Kind, a: Addr) {
    AccessMaps(m, kind, a) == m
  }

  /** Repeating an access is idle, and what is idle stays idle while the
      iteration goes on. */
  lemma IdleOnceDone(m: Maps, kind: C.Kind, a: Addr)
    ensures Idle(AccessMaps(m, kind, a), kind, a)
  {
    var m' := AccessMaps(m, kind, a);
    assert a in m'.ptrMap ==> m'.ptrMap[a := m'.ptrMap[a]] == m'.ptrMap;
    assert a in m'.iterMap ==> m'.iterMap[a := m'.iterMap[a]] == m'.iterMap;
    assert a in m'.upgrades ==> m'.upgrades + {a} == m'.upgrades;
  }

  lemma IdleStays(m: Maps, kind: C.Kind, a: Addr, kind': C.Kind, a': Addr)
    requires Idle(m, kind, a)
    ensures Idle(AccessMaps(m, kind', a'), kind, a)
  {
    var m' := AccessMaps(m, kind', a');
    var n' := AccessMaps(m', kind, a);
    if a in m.ptrMap {
      var (c, u) := C.TouchKnown(m.ptrMap[a], a in m.upgrades, kind);
      assert AccessMaps(m, kind, a).ptrMap[a] == c;
      assert u ==> a in AccessMaps(m, kind, a).upgrades;
    } else {
      assert AccessMaps(m, kind, a).iterMap[a] == m.iterMap[a];
    }
    assert a in m'.ptrMap ==> m'.ptrMap[a := m'.ptrMap[a]] == m'.ptrMap;
    assert a in m'.iterMap ==> m'.iterMap[a := m'.iterMap[a]] == m'.iterMap;
    assert a in m'.upgrades ==> m'.upgrades + {a} == m'.upgrades;
  }

  function ToSet(ps: seq<Addr>): set<Addr> {
    set a | a in ps
  }

  /** The program never has an access dropped that its region has not seen:
      no access of this invocation is recorded when a region is entered, and a
      store that is dropped covers only what this invocation has written.
      `written` is what the invocation has written so far. */
  predicate DropsOnlyRepeats<S(==)>(p: Producer<S>, written: set<Addr>, calls: seq<Call<S>>)
    requires p.Valid() && WellFormed(calls)
    decreases |calls|
  {
    if calls == [] then true
    else
      var p' := Issue(p, calls[0], true).0;
      match calls[0]
      case Enter(_) => p.loads == {} && written == {} && DropsOnlyRepeats(p', written, calls[1..])
      case Exit => DropsOnlyRepeats(p', {}, calls[1..])
      case Load(_) => DropsOnlyRepeats(p', written, calls[1..])
      case Store(a, size, element) =>
        var es := ToSet(Elements(a, size, element));
        && (p.active.Some? && a in p.stores ==> es <= written)
        && DropsOnlyRepeats(p', if p.active.Some? then written + es else written, calls[1..])
  }

  /** The region the pass is in has already seen every recorded access. */
  ghost predicate Seen<S>(c: Cleaner<S>, p: Producer<S>, written: set<Addr>) {
    && p.Valid()
    && c.current == p.active
    && p.parents.Keys <= c.regions.Keys
    && (p.active.Some? ==>
          && (forall a :: a in p.loads ==> Idle(c.Of(p.active.value), C.Read, a))
          && (forall a :: a in written ==> Idle(c.Of(p.active.value), C.Write, a)))
    && (p.active.None? ==> p.loads == {} && written == {})
  }

  lemma IdleAccess<S>(c: Cleaner<S>, kind: C.Kind, a: Addr)
    requires c.current.Some? && c.current.value in c.regions
    requires Idle(c.Of(c.current.value), kind, a)
    ensures StepOp(c, Access(kind, a)) == c
  {
    var s := c.current.value;
    assert c.regions[s := c.regions[s]] == c.regions;
  }

  lemma {:induction false} IdleAccesses<S>(c: Cleaner<S>, kind: C.Kind, ps: seq<Addr>)
    requires c.current.Some? && c.current.value in c.regions
    requires forall a :: a in ps ==> Idle(c.Of(c.current.value), kind, a)
    ensures Clean(c, Accesses(kind, ps)) == c
    decreases |ps|
  {
    if ps == [] {
    } else {
      IdleAccess(c, kind, ps[0]);
      IdleAccesses(c, kind, ps[1..]);
    }
  }

  lemma AccessSeen<S>(c: Cleaner<S>, p: Producer<S>, written: set<Addr>, kind: C.Kind, a: Addr)
    requires Seen(c, p, written) && p.active.Some?
    ensures var c' := StepOp(c, Access(kind, a));
            && Seen(c', p, written)
            && Idle(c'.Of(p.active.value), kind, a)
  {
    var m := c.Of(p.active.value);
    IdleOnceDone(m, kind, a);
    forall b | b in p.loads ensures Idle(AccessMaps(m, kind, a), C.Read, b) {
      IdleStays(m, C.Read, b, kind, a);
    }
    forall b | b in written ensures Idle(AccessMaps(m, kind, a), C.Write, b) {
      IdleStays(m, C.Write, b, kind, a);
    }
  }

  lemma {:induction false} StoresSeen<S>(c: Cleaner<S>, p: Producer<S>, written: set<Addr>, ps: seq<Addr>)
    requires Seen(c, p, written) && p.active.Some?
    ensures Seen(Clean(c, Accesses(C.Write, ps)), p, written + ToSet(ps))
    decreases |ps|
  {
    if ps == [] {
      assert written + ToSet(ps) == written;
    } else {
      var c' := StepOp(c, Access(C.Write, ps[0]));
      AccessSeen(c, p, written, C.Write, ps[0]);
      StoresSeen(c', p, written + {ps[0]}, ps[1..]);
      assert written + {ps[0]} + ToSet(ps[1..]) == written + ToSet(ps);
    }
  }

  /** One call: the streams with and without dropping clean to the same state. */
  lemma CallInStep<S>(c: Cleaner<S>, p: Producer<S>, q: Producer<S>, written: set<Addr>, call: Call<S>)
    requires Seen(c, p, written) && q.Valid()
    requires q.(loads := {}, stores := {}) == p.(loads := {}, stores := {})
    requires WellFormed([call]) && DropsOnlyRepeats(p, written, [call])
    requires call.Store? ==> call.element > 0
    ensures var (p', kept) := Issue(p, call, true);
            var (q', all) := Issue(q, call, false);
            && Clean(c, kept) == Clean(c, all)
            && q'.(loads := {}, stores := {}) == p'.(loads := {}, stores := {})
            && Seen(Clean(c, kept), p', NextWritten(p, written, call))
  {
    var (p', kept) := Issue(p, call, true);
    var (q', all) := Issue(q, call, false);
    match call {
      case Enter(s) =>
        assert Clean(c, kept) == Clean(StepOp(c, kept[0]), []);
      case Exit =>
        if p.active.Some? {
          assert Clean(c, kept) == Clean(StepOp(c, kept[0]), []);
        }
      case Load(a) =>
        if p.active.Some? {
          assert all == [Access(C.Read, a)] && Clean(c, all) == Clean(StepOp(c, all[0]), []);
          if a in p.loads {
            IdleAccess(c, C.Read, a);
          } else {
            AccessSeen(c, p, written, C.Read, a);
          }
        }
      case Store(a, size, element) =>
        if p.active.Some? {
          var es := Elements(a, size, element);
          if a in p.stores {
            assert forall e :: e in es ==> e in ToSet(es);
            IdleAccesses(c, C.Write, es);
          }
          StoresSeen(c, p, written, es);
        }
    }
  }

  function NextWritten<S(==)>(p: Producer<S>, written: set<Addr>, call: Call<S>): set<Addr>
    requires call.Store? ==> call.element > 0
  {
    match call
    case Exit => {}
    case Store(a, size, element) =>
      if p.active.Some? then written + ToSet(Elements(a, size, element)) else written
    case _ => written
  }

  lemma {:induction false} DedupInStep<S>(c: Cleaner<S>, p: Producer<S>, q: Producer<S>, written: set<Addr>, calls: seq<Call<S>>)
    requires Seen(c, p, written) && q.Valid()
    requires q.(loads := {}, stores := {}) == p.(loads := {}, stores := {})
    requires WellFormed(calls) && DropsOnlyRepeats(p, written, calls)
    ensures Clean(c, Stream(p, calls, true)) == Clean(c, Stream(q, calls, false))
    decreases |calls|
  {
    if calls == [] {
    } else {
      var call := calls[0];
      var (p', kept) := Issue(p, call, true);
      var (q', all) := Issue(q, call, false);
      assert [call][1..] == [];
      CallInStep(c, p, q, written, call);
      DedupInStep(Clean(c, kept), p', q', NextWritten(p, written, call), calls[1..]);
      CleanConcat(c, kept, Stream(p', calls[1..], true));
      CleanConcat(c, all, Stream(q', calls[1..], false));
    }
  }

  /** Dropping the accesses an invocation repeats leaves every map of every
      region, so every class, as it would have been. */
  lemma DedupPreserves<S>(calls: seq<Call<S>>)
    requires WellFormed(calls) && DropsOnlyRepeats(Start(), {}, calls)
    ensures Clean(Initial(), Stream(Start(), calls, true)) == Clean(Initial(), Stream(Start(), calls, false))
  {
    DedupInStep(Initial(), Start(), Start(), {}, calls);
  }

  /** Regions are not nested: one is entered only when none is active. */
  predicate NonNested<S(==)>(p: Producer<S>, calls: seq<Call<S>>)
    requires p.Valid() && WellFormed(calls)
    decreases |calls|
  {
    calls == [] ||
    ((calls[0].Enter? ==> p.active.None?) && NonNested(Issue(p, calls[0], true).0, calls[1..]))
  }

  predicate ScalarStores<S>(calls: seq<Call<S>>) {
    forall i :: 0 <= i < |calls| && calls[i].Store? ==> 0 < calls[i].size <= calls[i].element
  }

  lemma {:induction false} NonNestedScalar<S>(p: Producer<S>, calls: seq<Call<S>>)
    requires p.Valid() && WellFormed(calls) && ScalarStores(calls)
    requires p.active.None? ==> p.loads == {} && p.stores == {}
    requires NonNested(p, calls)
    ensures DropsOnlyRepeats(p, p.stores, calls)
    decreases |calls|
  {
    if calls == [] {
    } else {
      var p' := Issue(p, calls[0], true).0;
      assert ScalarStores(calls[1..]);
      NonNestedScalar(p', calls[1..]);
      match calls[0] {
        case Enter(_) =>
        case Exit =>
        case Load(_) =>
        case Store(a, size, element) =>
          assert Elements(a, size, element) == [a] + Elements(a + element, size - element, element) == [a];
          assert ToSet([a]) == {a};
          assert a in p.stores ==> p.stores + {a} == p.stores;
      }
    }
  }

  /** The case the tool is used for: regions that are not nested, scalar stores. */
  lemma DedupPreservesScalar<S>(calls: seq<Call<S>>)
    requires WellFormed(calls) && ScalarStores(calls) && NonNested(Start(), calls)
    ensures Clean(Initial(), Stream(Start(), calls, true)) == Clean(Initial(), Stream(Start(), calls, false))
  {
    NonNestedScalar(Start(), calls);
    DedupPreserves(calls);
  }

  /** Entering a region while an address read since the last exit is recorded
      goes wrong for every such address the region does not know: reading it there
      is dropped, and the region misses an input. */
  lemma NestedEntryMissesInput<S>(c: Cleaner<S>, p: Producer<S>, s: S, a: Addr)
    requires p.Valid() && a in p.loads
    requires c.ClassOf(s, a).None?
    ensures var calls := [Enter(s), Load(a), Exit];
            && Clean(c, Stream(p, calls, true)).ClassOf(s, a) == None
            && Clean(c, Stream(p, calls, false)).ClassOf(s, a) == Some(Input)
  {
    var calls := [Enter(s), Load(a), Exit];
    assert calls[1..][1..] == calls[2..] && calls[2..][1..] == [];
    var p1 := Issue(p, calls[0], true).0;
    var parent := p1.parents[s];
    assert Stream(p, calls, true) == [BeginRegion(s), EndRegion(s, parent)] by {
      assert Stream(p1, calls[1..], true) == Stream(p1, calls[2..], true) == [EndRegion(s, parent)];
    }
    assert Stream(p, calls, false) == [BeginRegion(s), Access(C.Read, a), EndRegion(s, parent)] by {
      var p2 := Issue(p1, calls[1], false).0;
      assert Stream(p2, calls[2..], false) == [EndRegion(s, parent)];
      assert Stream(p1, calls[1..], false) == [Access(C.Read, a), EndRegion(s, parent)];
    }
    var c1 := StepOp(c, BeginRegion(s));
    var kept := [BeginRegion(s), EndRegion(s, parent)];
    assert Clean(c, kept) == Clean(c1, kept[1..]) == Clean(StepOp(c1, kept[1]), []);
    var all := [BeginRegion(s), Access(C.Read, a), EndRegion(s, parent)];
    var c2 := StepOp(c1, all[1]);
    assert all[1..][1..] == all[2..];
    assert Clean(c, all) == Clean(c1, all[1..]) == Clean(c2, all[2..]) == Clean(StepOp(c2, all[2]), []);
  }

  // ---- Programs whose regions nest properly ----------------------------------------

  /** Regions are entered and left like brackets; a region is not entered while it
      is open and always has the parent it was first entered under. `stack` holds
      the open regions, innermost last. */
  predicate Disciplined<S(==)>(p: Producer<S>, stack: seq<S>, calls: seq<Call<S>>)
    requires p.Valid() && WellFormed(calls)
    decreases |calls|
  {
    if calls == [] then stack == []
    else
      var p' := Issue(p, calls[0], false).0;
      match calls[0]
      case Enter(s) =>
        && s !in stack
        && (s in p.parents ==> p.parents[s] == p.active)
        && Disciplined(p', stack + [s], calls[1..])
      case Exit => stack != [] && Disciplined(p', stack[..|stack| - 1], calls[1..])
      case _ => Disciplined(p', stack, calls[1..])
  }

  function Top<S>(stack: seq<S>): Option<S> {
    if stack == [] then None else Some(stack[|stack| - 1])
  }

  ghost predicate StackFits<S>(p: Producer<S>, stack: seq<S>) {
    && p.Valid()
    && p.active == Top(stack)
    && (forall i :: 0 <= i < |stack| ==> stack[i] in p.parents && p.parents[stack[i]] == Top(stack[..i]))
    && (forall i, j :: 0 <= i < j < |stack| ==> stack[i] != stack[j])
  }

  lemma ConsBracketed<S>(op: Op<S>, rest: seq<Op<S>>, current: Option<S>, s: S, open: bool)
    ensures Bracketed([op] + rest, current, s, open) <==>
              && (op.BeginRegion? && op.region == s ==> !open)
              && (op.EndRegion? && op.region == s ==> open)
              && (op.Access? && current == Some(s) ==> open)
              && Bracketed(rest, NextCurrent(current, op), s,
                           if op.BeginRegion? && op.region == s then true
                           else if op.EndRegion? && op.region == s then false
                           else open)
  {
    assert ([op] + rest)[1..] == rest;
  }

  lemma {:induction false} AccessesBracketed<S>(
      kind: C.Kind, ps: seq<Addr>, more: seq<Op<S>>, current: Option<S>, s: S, open: bool)
    requires current == Some(s) ==> open
    requires Bracketed(more, current, s, open)
    ensures Bracketed(Accesses(kind, ps) + more, current, s, open)
    decreases |ps|
  {
    if ps == [] {
      assert Accesses(kind, ps) + more == more;
    } else {
      AccessesBracketed(kind, ps[1..], more, current, s, open);
      var rest := Accesses(kind, ps[1..]) + more;
      assert Accesses(kind, ps) + more == [Access(kind, ps[0])] + rest;
      ConsBracketed(Access(kind, ps[0]), rest, current, s, open);
    }
  }

  lemma EnterFits<S>(p: Producer<S>, stack: seq<S>, r: S)
    requires StackFits(p, stack) && r !in stack && (r in p.parents ==> p.parents[r] == p.active)
    ensures StackFits(Issue(p, Enter(r), false).0, stack + [r])
  {
    var more := stack + [r];
    forall i | 0 <= i < |stack| ensures more[..i] == stack[..i] {
    }
    assert more[..|stack|] == stack;
  }

  lemma ExitFits<S>(p: Producer<S>, stack: seq<S>)
    requires StackFits(p, stack) && stack != []
    ensures StackFits(Issue(p, Exit, false).0, stack[..|stack| - 1])
  {
    var less := stack[..|stack| - 1];
    forall i | 0 <= i <= |less| ensures less[..i] == stack[..i] {
    }
  }

  lemma {:induction false} DisciplinedIsBracketed<S>(p: Producer<S>, stack: seq<S>, calls: seq<Call<S>>, s: S)
    requires WellFormed(calls) && StackFits(p, stack) && Disciplined(p, stack, calls)
    ensures Bracketed(Stream(p, calls, false), p.active, s, s in stack)
    decreases |calls|
  {
    if calls == [] {
    } else {
      var (p', ops) := Issue(p, calls[0], false);
      var rest := Stream(p', calls[1..], false);
      assert Stream(p, calls, false) == ops + rest;
      match calls[0] {
        case Enter(r) =>
          EnterFits(p, stack, r);
          DisciplinedIsBracketed(p', stack + [r], calls[1..], s);
          ConsBracketed(ops[0], rest, p.active, s, s in stack);
        case Exit =>
          var n := |stack| - 1;
          ExitFits(p, stack);
          DisciplinedIsBracketed(p', stack[..n], calls[1..], s);
          ConsBracketed(ops[0], rest, p.active, s, s in stack);
          assert s in stack <==> s in stack[..n] || s == stack[n];
        case Load(a) =>
          DisciplinedIsBracketed(p', stack, calls[1..], s);
          if p.active.Some? {
            ConsBracketed(ops[0], rest, p.active, s, s in stack);
          } else {
            assert ops + rest == rest;
          }
        case Store(a, size, element) =>
          DisciplinedIsBracketed(p', stack, calls[1..], s);
          if p.active.Some? {
            AccessesBracketed(C.Write, Elements(a, size, element), rest, p.active, s, s in stack);
          } else {
            assert ops + rest == rest;
          }
      }
    }
  }

  /** For a program whose regions nest properly, cleaning the stream with the
      repeats dropped gives each address the closed form of its history in the
      program as written. */
  lemma ProgramClasses<S>(calls: seq<Call<S>>, s: S, a: Addr)
    requires WellFormed(calls) && Disciplined(Start(), [], calls) && DropsOnlyRepeats(Start(), {}, calls)
    ensures Clean(Initial(), Stream(Start(), calls, true)).ClassOf(s, a)
         == C.ClosedForm(History(Stream(Start(), calls, false), s, a))
  {
    DedupPreserves(calls);
    DisciplinedIsBracketed(Start(), [], calls, s);
    ClassOfHistory(Stream(Start(), calls, false), s, a);
  }
}
