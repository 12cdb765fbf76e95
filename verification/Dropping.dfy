/** Exactly when dropping the accesses that are remembered leaves the maps alone. */
module Dropping {
  import opened Classes
  import opened Cleaning
  import opened Instrumentation
  import C = Classification

  // ---- One access ----------------------------------------------------------------------------

  lemma IdleIffTrack(m: Maps, kind: C.Kind, a: Addr)
    ensures Idle(m, kind, a) <==> TrackIn(AccessMaps(m, kind, a), a) == TrackIn(m, a)
  {
    var n := AccessMaps(m, kind, a);
    if TrackIn(n, a) == TrackIn(m, a) {
      assert n.ptrMap == m.ptrMap && n.iterMap == m.iterMap && n.upgrades == m.upgrades;
    }
  }

  lemma AccessElsewhere(m: Maps, kind: C.Kind, a: Addr, b: Addr)
    requires a != b
    ensures TrackIn(AccessMaps(m, kind, b), a) == TrackIn(m, a)
  {
  }

  function AccessAll(m: Maps, kind: C.Kind, ps: seq<Addr>): Maps
    decreases |ps|
  {
    if ps == [] then m else AccessAll(AccessMaps(m, kind, ps[0]), kind, ps[1..])
  }

  /** Accesses of one kind leave on each of their addresses what one would. */
  lemma {:induction false} AccessAllTrack(m: Maps, kind: C.Kind, ps: seq<Addr>, a: Addr)
    ensures TrackIn(AccessAll(m, kind, ps), a) == TrackIn(if a in ps then AccessMaps(m, kind, a) else m, a)
    decreases |ps|
  {
    if ps == [] {
    } else {
      var n := AccessMaps(m, kind, ps[0]);
      AccessAllTrack(n, kind, ps[1..], a);
      if ps[0] == a {
        IdleOnceDone(m, kind, a);
      } else {
        AccessElsewhere(m, kind, a, ps[0]);
        AccessFromTrack(m, n, kind, a);
      }
    }
  }

  /** What an access leaves on its address depends on what is known about it. */
  lemma AccessFromTrack(m: Maps, n: Maps, kind: C.Kind, a: Addr)
    requires TrackIn(m, a) == TrackIn(n, a)
    ensures TrackIn(AccessMaps(m, kind, a), a) == TrackIn(AccessMaps(n, kind, a), a)
  {
  }

  /** Accesses of one kind change nothing exactly when each of them would not. */
  lemma AccessAllIdleIff(m: Maps, kind: C.Kind, ps: seq<Addr>)
    ensures AccessAll(m, kind, ps) == m <==> forall a :: a in ps ==> Idle(m, kind, a)
  {
    if AccessAll(m, kind, ps) == m {
      forall a | a in ps ensures Idle(m, kind, a) {
        AccessAllTrack(m, kind, ps, a);
        IdleIffTrack(m, kind, a);
      }
    }
    if forall a :: a in ps ==> Idle(m, kind, a) {
      AllIdle(m, kind, ps);
    }
  }

  lemma {:induction false} AllIdle(m: Maps, kind: C.Kind, ps: seq<Addr>)
    requires forall a :: a in ps ==> Idle(m, kind, a)
    ensures AccessAll(m, kind, ps) == m
    decreases |ps|
  {
    if ps == [] {
    } else {
      assert Idle(m, kind, ps[0]);
      AllIdle(m, kind, ps[1..]);
    }
  }

  lemma {:induction false} CleanAccesses<S>(c: Cleaner<S>, kind: C.Kind, ps: seq<Addr>)
    requires c.current.Some? && c.current.value in c.regions
    ensures Clean(c, Accesses(kind, ps))
         == c.(regions := c.regions[c.current.value := AccessAll(c.Of(c.current.value), kind, ps)])
    decreases |ps|
  {
    var s := c.current.value;
    if ps == [] {
      assert c.regions[s := c.regions[s]] == c.regions;
    } else {
      var d := StepOp(c, Access(kind, ps[0]));
      CleanAccesses(d, kind, ps[1..]);
      assert d.regions[s := AccessAll(d.Of(s), kind, ps[1..])] == c.regions[s := AccessAll(c.Of(s), kind, ps)];
    }
  }

  lemma CleanUnchangedIff<S>(c: Cleaner<S>, kind: C.Kind, ps: seq<Addr>)
    requires c.current.Some? && c.current.value in c.regions
    ensures Clean(c, Accesses(kind, ps)) == c <==> forall a :: a in ps ==> Idle(c.Of(c.current.value), kind, a)
  {
    var s := c.current.value;
    CleanAccesses(c, kind, ps);
    AccessAllIdleIff(c.Of(s), kind, ps);
    assert c.regions[s := c.Of(s)] == c.regions;
    var d := Clean(c, Accesses(kind, ps));
    assert d.regions[s] == AccessAll(c.Of(s), kind, ps);
  }

  // ---- A program -----------------------------------------------------------------------------

  /** The addresses of the accesses of a call that are dropped. */
  function DroppedBy<S(==)>(p: Producer<S>, call: Call<S>): seq<Addr>
    requires call.Store? ==> call.element > 0
  {
    match call
    case Load(a) => if p.active.Some? && a in p.loads then [a] else []
    case Store(a, size, element) => if p.active.Some? && a in p.stores then Elements(a, size, element) else []
    case _ => []
  }

  function KindOf<S>(call: Call<S>): C.Kind {
    if call.Store? then C.Write else C.Read
  }

  /** Every access that is dropped would have changed nothing where it is dropped. */
  ghost predicate DropsOnlyIdle<S>(c: Cleaner<S>, p: Producer<S>, calls: seq<Call<S>>)
    requires p.Valid() && WellFormed(calls)
    decreases |calls|
  {
    calls == [] ||
    (&& (forall a :: a in DroppedBy(p, calls[0]) ==> p.active.Some? && Idle(c.Of(p.active.value), KindOf(calls[0]), a))
     && var (p', kept) := Issue(p, calls[0], true);
        DropsOnlyIdle(Clean(c, kept), p', calls[1..]))
  }

  /** After every call the maps are those of the program that drops nothing. */
  ghost predicate AgreeThroughout<S>(c: Cleaner<S>, d: Cleaner<S>, p: Producer<S>, q: Producer<S>, calls: seq<Call<S>>)
    requires p.Valid() && q.Valid() && WellFormed(calls)
    decreases |calls|
  {
    && c == d
    && (calls == [] ||
        var (p', kept) := Issue(p, calls[0], true);
        var (q', all) := Issue(q, calls[0], false);
        AgreeThroughout(Clean(c, kept), Clean(d, all), p', q', calls[1..]))
  }

  /** The two programs are in the same region, which the pass knows. */
  ghost predicate Together<S>(c: Cleaner<S>, p: Producer<S>, q: Producer<S>) {
    && p.Valid() && q.Valid() && p.active == q.active && p.parents == q.parents
    && c.current == p.active && p.parents.Keys <= c.regions.Keys
  }

  lemma CallTogether<S>(c: Cleaner<S>, p: Producer<S>, q: Producer<S>, call: Call<S>)
    requires Together(c, p, q) && (call.Store? ==> call.element > 0)
    ensures Together(Clean(c, Issue(p, call, true).1), Issue(p, call, true).0, Issue(q, call, false).0)
  {
    var ops := Issue(p, call, true).1;
    match call {
      case Enter(s) => CleanSingle(c, ops[0]);
      case Exit => if p.active.Some? { CleanSingle(c, ops[0]); }
      case Load(a) => if ops != [] { CleanSingle(c, ops[0]); }
      case Store(a, size, element) =>
        if p.active.Some? && ops != [] {
          CleanAccesses(c, C.Write, Elements(a, size, element));
        }
    }
  }

  lemma CleanSingle<S>(c: Cleaner<S>, op: Op<S>)
    ensures Clean(c, [op]) == StepOp(c, op)
  {
    assert Clean(c, [op]) == Clean(StepOp(c, op), [op][1..]);
  }

  /** One call: dropping does not show exactly when what is dropped is idle. */
  lemma CallAgreesIff<S>(c: Cleaner<S>, p: Producer<S>, q: Producer<S>, call: Call<S>)
    requires Together(c, p, q) && (call.Store? ==> call.element > 0)
    ensures Clean(c, Issue(p, call, true).1) == Clean(c, Issue(q, call, false).1) <==>
            forall a :: a in DroppedBy(p, call) ==> p.active.Some? && Idle(c.Of(p.active.value), KindOf(call), a)
  {
    match call {
      case Enter(s) =>
      case Exit =>
      case Load(a) =>
        if p.active.Some? && a in p.loads {
          assert Issue(q, call, false).1 == Accesses(C.Read, [a]) && Issue(p, call, true).1 == [];
          assert Clean(c, []) == c && [a][0] == a;
          assert forall b :: b in DroppedBy(p, call) <==> b in [a];
          CleanUnchangedIff(c, C.Read, [a]);
        }
      case Store(a, size, element) =>
        if p.active.Some? && a in p.stores {
          var es := Elements(a, size, element);
          assert Issue(q, call, false).1 == Accesses(C.Write, es) && Issue(p, call, true).1 == [];
          assert Clean(c, []) == c && DroppedBy(p, call) == es;
          CleanUnchangedIff(c, C.Write, es);
        }
    }
  }

  lemma {:induction false} AgreeIffIdleFrom<S>(c: Cleaner<S>, p: Producer<S>, q: Producer<S>, calls: seq<Call<S>>)
    requires Together(c, p, q) && WellFormed(calls)
    ensures AgreeThroughout(c, c, p, q, calls) <==> DropsOnlyIdle(c, p, calls)
    decreases |calls|
  {
    if calls == [] {
    } else {
      var (p', kept) := Issue(p, calls[0], true);
      var (q', all) := Issue(q, calls[0], false);
      CallAgreesIff(c, p, q, calls[0]);
      CallTogether(c, p, q, calls[0]);
      if Clean(c, kept) == Clean(c, all) {
        AgreeIffIdleFrom(Clean(c, kept), p', q', calls[1..]);
      } else {
        DifferOnce(Clean(c, kept), Clean(c, all), p', q', calls[1..]);
      }
    }
  }

  lemma DifferOnce<S>(c: Cleaner<S>, d: Cleaner<S>, p: Producer<S>, q: Producer<S>, calls: seq<Call<S>>)
    requires p.Valid() && q.Valid() && WellFormed(calls) && c != d
    ensures !AgreeThroughout(c, d, p, q, calls)
  {
  }

  /** A program's maps are after every call those of the program that drops nothing,
      exactly when every access it drops is idle where it is dropped. */
  lemma AgreeIffDropsIdle<S>(calls: seq<Call<S>>)
    requires WellFormed(calls)
    ensures AgreeThroughout<S>(Initial(), Initial(), Start(), Start(), calls) <==> DropsOnlyIdle(Initial(), Start(), calls)
  {
    AgreeIffIdleFrom<S>(Initial(), Start(), Start(), calls);
  }

  lemma {:induction false} ThroughoutIsPrefixes<S>(c: Cleaner<S>, d: Cleaner<S>, p: Producer<S>, q: Producer<S>, calls: seq<Call<S>>)
    requires p.Valid() && q.Valid() && WellFormed(calls)
    ensures AgreeThroughout(c, d, p, q, calls) <==>
            forall n :: 0 <= n <= |calls| ==> AgreeAfter(c, d, p, q, calls[..n])
    decreases |calls|
  {
    assert calls[..0] == [];
    assert AgreeAfter(c, d, p, q, calls[..0]) <==> c == d;
    if calls == [] {
    } else {
      var (p', kept) := Issue(p, calls[0], true);
      var (q', all) := Issue(q, calls[0], false);
      ThroughoutIsPrefixes(Clean(c, kept), Clean(d, all), p', q', calls[1..]);
      forall n | 0 < n <= |calls|
        ensures AgreeAfter(c, d, p, q, calls[..n]) <==> AgreeAfter(Clean(c, kept), Clean(d, all), p', q', calls[1..][..n - 1])
      {
        assert calls[..n][1..] == calls[1..][..n - 1] && calls[..n][0] == calls[0];
        CleanConcat(c, kept, Stream(p', calls[1..][..n - 1], true));
        CleanConcat(d, all, Stream(q', calls[1..][..n - 1], false));
      }
      if forall n :: 0 <= n <= |calls| ==> AgreeAfter(c, d, p, q, calls[..n]) {
        forall n | 0 <= n <= |calls[1..]| ensures AgreeAfter(Clean(c, kept), Clean(d, all), p', q', calls[1..][..n]) {
          assert AgreeAfter(c, d, p, q, calls[..n + 1]);
        }
      }
    }
  }

  /** The maps after a whole program. */
  ghost predicate AgreeAfter<S>(c: Cleaner<S>, d: Cleaner<S>, p: Producer<S>, q: Producer<S>, calls: seq<Call<S>>)
    requires p.Valid() && q.Valid()
  {
    WellFormed(calls) && Clean(c, Stream(p, calls, true)) == Clean(d, Stream(q, calls, false))
  }

  // ---- A region entered while accesses are remembered -------------------------------------

  lemma StreamOfVisit<S>(p: Producer<S>, s: S, call: Call<S>, dedup: bool) returns (parent: Option<S>)
    requires p.Valid() && (call.Load? || (call.Store? && call.element > 0))
    ensures WellFormed([Enter(s), call, Exit])
    ensures Stream(p, [Enter(s), call, Exit], dedup)
         == [BeginRegion(s)] + Issue(Issue(p, Enter(s), dedup).0, call, dedup).1 + [EndRegion(s, parent)]
  {
    var calls := [Enter(s), call, Exit];
    var p1 := Issue(p, Enter(s), dedup).0;
    var p2 := Issue(p1, call, dedup).0;
    parent := p1.parents[s];
    assert calls[1..] == [call, Exit] && calls[1..][1..] == [Call<S>.Exit] && [Call<S>.Exit][1..] == [];
    assert Stream(p2, [Call<S>.Exit], dedup) == [EndRegion(s, parent)];
    assert Stream(p1, [call, Exit], dedup) == Issue(p1, call, dedup).1 + [EndRegion(s, parent)];
  }

  /** The class after a region is entered, one of its addresses is accessed or not,
      and it is left. */
  lemma ClassAfterVisit<S>(c: Cleaner<S>, s: S, parent: Option<S>, a: Addr, touches: seq<C.Kind>)
    requires |touches| <= 1
    ensures var ops := [BeginRegion(s)] + (if touches == [] then [] else [Access(touches[0], a)]) + [EndRegion(s, parent)];
            Clean(c, ops).ClassOf(s, a) == C.Run(C.Track(c.ClassOf(s, a), None, false), C.Touches(touches) + [C.End]).cls
  {
    var mid := if touches == [] then [] else [Access(touches[0], a)];
    var ops := [BeginRegion(s)] + mid + [EndRegion(s, parent)];
    var c1 := StepOp(c, BeginRegion(s));
    CleanConcat(c, [BeginRegion(s)] + mid, [EndRegion(s, parent)]);
    CleanConcat(c, [BeginRegion(s)], mid);
    CleanSingle(c, BeginRegion(s));
    var c2 := Clean(c1, mid);
    CleanSingle(c2, EndRegion(s, parent));
    C.RunConcat(C.Track(c.ClassOf(s, a), None, false), C.Touches(touches), [C.End]);
    if touches == [] {
      C.RunStep(C.Track(c.ClassOf(s, a), None, false), C.End);
    } else {
      CleanSingle(c1, mid[0]);
      assert C.Touches(touches) == [C.Touch(touches[0])];
      C.RunStep(C.Track(c.ClassOf(s, a), None, false), C.Touch(touches[0]));
      C.RunStep(C.Step(C.Track(c.ClassOf(s, a), None, false), C.Touch(touches[0])), C.End);
    }
  }

  /** Reading an address in a region that is entered while the address is remembered
      goes right exactly when the region has it in a class that reads leave alone. */
  lemma VisitByLoadAgreesIff<S>(c: Cleaner<S>, p: Producer<S>, s: S, a: Addr)
    requires p.Valid()
    ensures var calls := [Enter(s), Load(a), Exit];
            Clean(c, Stream(p, calls, true)).ClassOf(s, a) == Clean(c, Stream(p, calls, false)).ClassOf(s, a)
            <==> a !in p.loads || c.ClassOf(s, a) in {Some(Input), Some(TIO), Some(TO)}
  {
    var t := C.Track(c.ClassOf(s, a), None, false);
    var with := StreamOfVisit(p, s, Call<S>.Load(a), true);
    var without := StreamOfVisit(p, s, Call<S>.Load(a), false);
    ClassAfterVisit(c, s, with, a, if a in p.loads then [] else [C.Read]);
    ClassAfterVisit(c, s, without, a, [C.Read]);
    TwoSteps(t, C.Read);
  }

  /** ... and writing it, in a class that writes leave alone. */
  lemma VisitByStoreAgreesIff<S>(c: Cleaner<S>, p: Producer<S>, s: S, a: Addr)
    requires p.Valid()
    ensures var calls := [Enter(s), Store(a, 1, 1), Exit];
            Clean(c, Stream(p, calls, true)).ClassOf(s, a) == Clean(c, Stream(p, calls, false)).ClassOf(s, a)
            <==> a !in p.stores || c.ClassOf(s, a) in {Some(CIO), Some(TIO), Some(CO), Some(TO)}
  {
    var t := C.Track(c.ClassOf(s, a), None, false);
    assert Elements(a, 1, 1) == [a] && Accesses<S>(C.Write, [a]) == [Access(C.Write, a)];
    var with := StreamOfVisit(p, s, Call<S>.Store(a, 1, 1), true);
    var without := StreamOfVisit(p, s, Call<S>.Store(a, 1, 1), false);
    ClassAfterVisit(c, s, with, a, if a in p.stores then [] else [C.Write]);
    ClassAfterVisit(c, s, without, a, [C.Write]);
    TwoSteps(t, C.Write);
  }

  lemma TwoSteps(t: C.Track, k: C.Kind)
    ensures C.Run(t, C.Touches([k]) + [C.End]) == C.Step(C.Step(t, C.Touch(k)), C.End)
    ensures C.Run(t, C.Touches([]) + [C.End]) == C.Step(t, C.End)
  {
    assert C.Touches([k]) + [C.End] == [C.Touch(k), C.End] && [C.Touch(k), C.End][1..] == [C.End];
    assert C.Touches([]) + [C.End] == [C.End];
    C.RunStep(t, C.End);
    C.RunStep(C.Step(t, C.Touch(k)), C.End);
  }

  /** A program that goes wrong: a region nested in one that has read the address. */
  lemma NestedReadIsLost<S>(r: S, s: S, a: Addr)
    requires r != s
    ensures !AgreeThroughout<S>(Initial(), Initial(), Start(), Start(), [Enter(r), Load(a), Enter(s), Load(a)])
  {
    var calls := [Enter(r), Load(a), Enter(s), Load(a)];
    var p0: Producer<S>, c0: Cleaner<S> := Start(), Initial();
    var (p1, k1) := Issue(p0, calls[0], true);
    var (p2, k2) := Issue(p1, calls[1], true);
    var (p3, k3) := Issue(p2, calls[2], true);
    CleanSingle(c0, k1[0]);
    var c1 := Clean(c0, k1);
    CleanSingle(c1, k2[0]);
    var c2 := Clean(c1, k2);
    CleanSingle(c2, k3[0]);
    var c3 := Clean(c2, k3);
    assert calls[1..][1..] == calls[2..] && calls[2..][1..] == calls[3..] && calls[3..][0] == Load(a);
    assert c3.Of(s) == NO_MAPS && !Idle(c3.Of(s), C.Read, a);
    assert a in DroppedBy(p3, calls[3]) && p3.active == Some(s);
    assert !DropsOnlyIdle(c3, p3, calls[3..]);
    assert !DropsOnlyIdle(c2, p2, calls[2..]);
    assert !DropsOnlyIdle(c1, p1, calls[1..]);
    AgreeIffDropsIdle(calls);
  }

  /** A store that is dropped can be longer than the one that is remembered. */
  lemma LongerStoreIsLost<S>(s: S, a: Addr)
    ensures !AgreeThroughout<S>(Initial(), Initial(), Start(), Start(), [Enter(s), Store(a, 1, 1), Store(a, 2, 1)])
  {
    var calls := [Enter(s), Store(a, 1, 1), Store(a, 2, 1)];
    var p0: Producer<S>, c0: Cleaner<S> := Start(), Initial();
    var (p1, k1) := Issue(p0, calls[0], true);
    assert Elements(a, 1, 1) == [a] && Accesses<S>(C.Write, [a]) == [Access(C.Write, a)];
    var (p2, k2) := Issue(p1, calls[1], true);
    CleanSingle(c0, k1[0]);
    var c1 := Clean(c0, k1);
    CleanSingle(c1, k2[0]);
    var c2 := Clean(c1, k2);
    assert calls[1..][1..] == calls[2..] && calls[2..][0] == Store(a, 2, 1);
    assert Elements(a, 2, 1)[1] == a + 1;
    assert a + 1 in DroppedBy(p2, calls[2]) && p2.active == Some(s);
    assert !Idle(c2.Of(s), C.Write, a + 1);
    assert !DropsOnlyIdle(c2, p2, calls[2..]);
    AgreeIffDropsIdle(calls);
  }
}
