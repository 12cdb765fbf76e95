/** What the cleaning pass over a stream of shadow entries computes: which region
    each access belongs to, and the maps each region keeps about its addresses. */
module Cleaning {
  import opened Classes
  import C = Classification

  type Addr = nat

  /** The entries the cleaning pass looks at; every other entry is `Other`. A
      region's end carries the region's parent, where the pass goes on. */
  datatype Op<+S> = Access(kind: C.Kind, ptr: Addr)
                  | BeginRegion(region: S)
                  | EndRegion(region: S, parent: Option<S>)
                  | Other

  datatype Maps = Maps(ptrMap: map<Addr, Class>, iterMap: map<Addr, Class>, upgrades: set<Addr>)

  const NO_MAPS := Maps(map[], map[], {})

  datatype Cleaner<S(==)> = Cleaner(regions: map<S, Maps>, current: Option<S>) {
    function Of(s: S): Maps {
      if s in regions then regions[s] else NO_MAPS
    }

    /** The class the region keeps for an address. */
    function ClassOf(s: S, a: Addr): Option<Class> {
      if a in Of(s).ptrMap then Some(Of(s).ptrMap[a]) else None
    }
  }

  function AccessMaps(m: Maps, kind: C.Kind, p: Addr): Maps {
    if p in m.ptrMap then
      var (c, u) := C.TouchKnown(m.ptrMap[p], p in m.upgrades, kind);
      Maps(m.ptrMap[p := c], m.iterMap, if u then m.upgrades + {p} else m.upgrades)
    else
      var i := C.TouchFirst(if p in m.iterMap then Some(m.iterMap[p]) else None, kind);
      if i.Some? then m.(iterMap := m.iterMap[p := i.value]) else m
  }

  function BeginMaps(m: Maps): Maps {
    Maps(m.ptrMap, map[], {})
  }

  /** The running iteration's findings join the earlier ones, which they do not replace. */
  function EndMaps(m: Maps): Maps {
    m.(ptrMap := m.iterMap + m.ptrMap)
  }

  function StepOp<S(==)>(c: Cleaner<S>, op: Op<S>): Cleaner<S> {
    match op
    case Access(kind, p) =>
      if c.current.None? then c
      else c.(regions := c.regions[c.current.value := AccessMaps(c.Of(c.current.value), kind, p)])
    case BeginRegion(s) => Cleaner(c.regions[s := BeginMaps(c.Of(s))], Some(s))
    case EndRegion(s, parent) => Cleaner(c.regions[s := EndMaps(c.Of(s))], parent)
    case Other => c
  }

  function Clean<S(==)>(c: Cleaner<S>, ops: seq<Op<S>>): Cleaner<S>
    decreases |ops|
  {
    if ops == [] then c else Clean(StepOp(c, ops[0]), ops[1..])
  }

  /** Cleaning a stream in pieces is cleaning the stream. */
  lemma {:induction false} CleanConcat<S>(c: Cleaner<S>, ops: seq<Op<S>>, more: seq<Op<S>>)
    ensures Clean(c, ops + more) == Clean(Clean(c, ops), more)
    decreases |ops|
  {
    if ops == [] {
      assert ops + more == more;
    } else {
      assert (ops + more)[1..] == ops[1..] + more;
      CleanConcat(StepOp(c, ops[0]), ops[1..], more);
    }
  }

  // ---- One address of one region ----------------------------------------------

  function TrackIn(m: Maps, a: Addr): C.Track {
    C.Track(if a in m.ptrMap then Some(m.ptrMap[a]) else None,
            if a in m.iterMap then Some(m.iterMap[a]) else None,
            a in m.upgrades)
  }

  function NextCurrent<S(==)>(current: Option<S>, op: Op<S>): Option<S> {
    match op
    case BeginRegion(s) => Some(s)
    case EndRegion(_, parent) => parent
    case _ => current
  }

  function CurrentAfter<S(==)>(current: Option<S>, ops: seq<Op<S>>): Option<S>
    decreases |ops|
  {
    if ops == [] then current else CurrentAfter(NextCurrent(current, ops[0]), ops[1..])
  }

  /** What an entry means for one address of one region. */
  function EventOf<S(==)>(op: Op<S>, current: Option<S>, s: S, a: Addr): seq<C.Event> {
    match op
    case Access(kind, p) => if current == Some(s) && p == a then [C.Touch(kind)] else []
    case BeginRegion(r) => if r == s then [C.Begin] else []
    case EndRegion(r, _) => if r == s then [C.End] else []
    case Other => []
  }

  function Events<S(==)>(ops: seq<Op<S>>, current: Option<S>, s: S, a: Addr): seq<C.Event>
    decreases |ops|
  {
    if ops == [] then []
    else EventOf(ops[0], current, s, a) + Events(ops[1..], NextCurrent(current, ops[0]), s, a)
  }

  lemma {:induction false} CurrentConcat<S>(current: Option<S>, ops: seq<Op<S>>, more: seq<Op<S>>)
    ensures CurrentAfter(current, ops + more) == CurrentAfter(CurrentAfter(current, ops), more)
    decreases |ops|
  {
    if ops == [] {
      assert ops + more == more;
    } else {
      assert (ops + more)[1..] == ops[1..] + more;
      CurrentConcat(NextCurrent(current, ops[0]), ops[1..], more);
    }
  }

  lemma {:induction false} EventsConcat<S>(ops: seq<Op<S>>, more: seq<Op<S>>, current: Option<S>, s: S, a: Addr)
    ensures Events(ops + more, current, s, a) == Events(ops, current, s, a) + Events(more, CurrentAfter(current, ops), s, a)
    decreases |ops|
  {
    if ops == [] {
      assert ops + more == more;
    } else {
      assert (ops + more)[1..] == ops[1..] + more;
      EventsConcat(ops[1..], more, NextCurrent(current, ops[0]), s, a);
    }
  }

  lemma StepProjects<S>(c: Cleaner<S>, op: Op<S>, s: S, a: Addr)
    ensures var c' := StepOp(c, op);
            && TrackIn(c'.Of(s), a) == C.Run(TrackIn(c.Of(s), a), EventOf(op, c.current, s, a))
            && c'.current == NextCurrent(c.current, op)
  {
    var es := EventOf(op, c.current, s, a);
    assert es == [] || es == [es[0]];
    if es != [] {
      assert C.Run(TrackIn(c.Of(s), a), es) == C.Step(TrackIn(c.Of(s), a), es[0]);
    }
  }

  /** The maps of all regions together are, for each address of each region, the
      classification machine run on the events of that pair alone. */
  lemma {:induction false} CleanProjects<S>(c: Cleaner<S>, ops: seq<Op<S>>, s: S, a: Addr)
    ensures TrackIn(Clean(c, ops).Of(s), a) == C.Run(TrackIn(c.Of(s), a), Events(ops, c.current, s, a))
    ensures Clean(c, ops).current == CurrentAfter(c.current, ops)
    decreases |ops|
  {
    if ops == [] {
    } else {
      var c' := StepOp(c, ops[0]);
      StepProjects(c, ops[0], s, a);
      CleanProjects(c', ops[1..], s, a);
      C.RunConcat(TrackIn(c.Of(s), a), EventOf(ops[0], c.current, s, a), Events(ops[1..], c'.current, s, a));
    }
  }

  /** Nothing is known and no region is open: the state at start-up and, for
      every region, after its results are committed. */
  function Initial<S(==)>(): Cleaner<S> {
    Cleaner(map[], None)
  }

  // ---- Histories ----------------------------------------------------------------

  /** In the stream, region `s` is begun only when it is not open, is ended only
      when it is, and is accessed only between. Other regions are not restricted:
      they may be nested in it or around it. */
  predicate Bracketed<S(==)>(ops: seq<Op<S>>, current: Option<S>, s: S, open: bool)
    decreases |ops|
  {
    if ops == [] then !open
    else
      var op := ops[0];
      && (op.BeginRegion? && op.region == s ==> !open)
      && (op.EndRegion? && op.region == s ==> open)
      && (op.Access? && current == Some(s) ==> open)
      && Bracketed(ops[1..], NextCurrent(current, op), s,
                   if op.BeginRegion? && op.region == s then true
                   else if op.EndRegion? && op.region == s then false
                   else open)
  }

  function Extend(its: seq<C.Iteration>, k: C.Kind): (r: seq<C.Iteration>)
    requires its != []
    ensures |r| == |its|
  {
    its[..|its| - 1] + [its[|its| - 1] + [k]]
  }

  /** The touches of each iteration of a stream of events, added to `its`, whose
      last iteration is still running. */
  function Collect(its: seq<C.Iteration>, es: seq<C.Event>): seq<C.Iteration>
    decreases |es|
  {
    if es == [] then its
    else match es[0]
      case Begin => Collect(its + [[]], es[1..])
      case End => Collect(its, es[1..])
      case Touch(k) =>
        if its == [] then Collect(its, es[1..]) else Collect(Extend(its, k), es[1..])
  }

  /** Region `s`'s iterations, as touches of address `a`. */
  function History<S(==)>(ops: seq<Op<S>>, s: S, a: Addr): seq<C.Iteration> {
    Collect([], Events(ops, None, s, a))
  }

  function SoFar(its: seq<C.Iteration>, open: bool): seq<C.Event>
    requires open ==> its != []
  {
    if open then C.Flatten(its[..|its| - 1]) + [C.Begin] + C.Touches(its[|its| - 1]) else C.Flatten(its)
  }

  lemma SoFarBegin(its: seq<C.Iteration>)
    ensures SoFar(its + [[]], true) == SoFar(its, false) + [C.Begin]
  {
    assert (its + [[]])[..|its|] == its;
  }

  lemma SoFarEnd(its: seq<C.Iteration>)
    requires its != []
    ensures SoFar(its, false) == SoFar(its, true) + [C.End]
  {
    var n := |its| - 1;
    assert its == its[..n] + [its[n]];
    C.FlattenConcat(its[..n], [its[n]]);
    assert C.Flatten([its[n]]) == C.EventsOf(its[n]);
  }

  lemma SoFarTouch(its: seq<C.Iteration>, k: C.Kind)
    requires its != []
    ensures SoFar(Extend(its, k), true) == SoFar(its, true) + [C.Touch(k)]
  {
    var n := |its| - 1;
    assert C.Touches(its[n] + [k]) == C.Touches(its[n]) + [C.Touch(k)];
    assert Extend(its, k)[..n] == its[..n];
  }

  /** Events that begin, touch and end iterations in turn. */
  predicate Whole(es: seq<C.Event>, open: bool)
    decreases |es|
  {
    if es == [] then !open
    else match es[0]
      case Begin => !open && Whole(es[1..], true)
      case End => open && Whole(es[1..], false)
      case Touch(_) => open && Whole(es[1..], true)
  }

  lemma CollectStep(its: seq<C.Iteration>, open: bool, es: seq<C.Event>) returns (its': seq<C.Iteration>)
    requires open ==> its != []
    requires es != [] && Whole(es, open)
    ensures !es[0].End? ==> its' != []
    ensures SoFar(its', !es[0].End?) == SoFar(its, open) + [es[0]]
    ensures Collect(its, es) == Collect(its', es[1..])
    ensures Whole(es[1..], !es[0].End?)
  {
    match es[0] {
      case Begin =>
        its' := its + [[]];
        SoFarBegin(its);
      case End =>
        its' := its;
        SoFarEnd(its);
      case Touch(k) =>
        its' := Extend(its, k);
        SoFarTouch(its, k);
    }
  }

  lemma {:induction false} CollectFlattens(its: seq<C.Iteration>, open: bool, pre: seq<C.Event>, es: seq<C.Event>)
    requires open ==> its != []
    requires pre == SoFar(its, open)
    requires Whole(es, open)
    ensures C.Flatten(Collect(its, es)) == pre + es
    decreases |es|
  {
    if es == [] {
    } else {
      var its' := CollectStep(its, open, es);
      CollectFlattens(its', !es[0].End?, pre + [es[0]], es[1..]);
      assert pre + [es[0]] + es[1..] == pre + es;
    }
  }

  lemma {:induction false} BracketedIsWhole<S>(ops: seq<Op<S>>, current: Option<S>, s: S, a: Addr, open: bool)
    requires Bracketed(ops, current, s, open)
    ensures Whole(Events(ops, current, s, a), open)
    decreases |ops|
  {
    if ops == [] {
    } else {
      var op := ops[0];
      var e := EventOf(op, current, s, a);
      var rest := Events(ops[1..], NextCurrent(current, op), s, a);
      assert e == [] ==> e + rest == rest;
      assert e != [] ==> (e + rest)[0] == e[0] && (e + rest)[1..] == rest;
      BracketedIsWhole(ops[1..], NextCurrent(current, op), s, a,
                       if op.BeginRegion? && op.region == s then true
                       else if op.EndRegion? && op.region == s then false
                       else open);
    }
  }

  lemma HistoryFlattens<S>(ops: seq<Op<S>>, current: Option<S>, s: S, a: Addr)
    requires Bracketed(ops, current, s, false)
    ensures C.Flatten(Collect([], Events(ops, current, s, a))) == Events(ops, current, s, a)
  {
    BracketedIsWhole(ops, current, s, a, false);
    CollectFlattens([], false, [], Events(ops, current, s, a));
  }

  /** After any stream in which a region is not re-entered while open, the class
      the region keeps for each address is the closed form of the address's
      history in that region. */
  lemma ClassOfHistory<S>(ops: seq<Op<S>>, s: S, a: Addr)
    requires Bracketed(ops, None, s, false)
    ensures Clean(Initial(), ops).ClassOf(s, a) == C.ClosedForm(History(ops, s, a))
  {
    HistoryFlattens(ops, None, s, a);
    CleanProjects(Initial(), ops, s, a);
    C.ClassIsClosedForm(History(ops, s, a));
  }

  /** Re-entering an open region loses what its running iteration had found. */
  lemma ReentryLosesIteration(s: nat, a: Addr)
    ensures var ops := [BeginRegion(s), Access(C.Write, a), BeginRegion(s), EndRegion(s, None)];
            && Clean(Initial(), ops).ClassOf(s, a) == None
            && C.ClosedForm(History(ops, s, a)) == Some(Output)
  {
    var ops: seq<Op<nat>> := [BeginRegion(s), Access(C.Write, a), BeginRegion(s), EndRegion(s, None)];
    var c0: Cleaner<nat> := Initial();
    var c1 := StepOp(c0, ops[0]);
    var c2 := StepOp(c1, ops[1]);
    var c3 := StepOp(c2, ops[2]);
    assert ops[1..][1..] == ops[2..] && ops[2..][1..] == ops[3..] && ops[3..][1..] == [];
    assert Clean(c0, ops) == Clean(c1, ops[1..]) == Clean(c2, ops[2..]) == Clean(c3, ops[3..]);
    assert Clean(c3, ops[3..]) == Clean(StepOp(c3, ops[3]), []);
    ReentryHistory(s, a);
  }

  lemma ReentryHistory(s: nat, a: Addr)
    ensures var ops := [BeginRegion(s), Access(C.Write, a), BeginRegion(s), EndRegion(s, None)];
            C.ClosedForm(History(ops, s, a)) == Some(Output)
  {
    var ops: seq<Op<nat>> := [BeginRegion(s), Access(C.Write, a), BeginRegion(s), EndRegion(s, None)];
    assert ops[1..][1..] == ops[2..] && ops[2..][1..] == ops[3..] && ops[3..][1..] == [];
    var es := [C.Begin, C.Touch(C.Write), C.Begin, C.End];
    assert Events(ops, None, s, a) == es by {
      assert Events(ops[3..], Some(s), s, a) == [C.End];
      assert Events(ops[2..], Some(s), s, a) == [C.Begin, C.End];
      assert Events(ops[1..], Some(s), s, a) == [C.Touch(C.Write), C.Begin, C.End];
    }
    WriteThenNothing();
  }

  /** An iteration that writes and one that does nothing. */
  lemma WriteThenNothing()
    ensures C.ClosedForm(Collect([], [C.Begin, C.Touch(C.Write), C.Begin, C.End])) == Some(Output)
  {
    CollectsWrite();
    var its: seq<C.Iteration> := [[C.Write], []];
    assert C.Touched(its) == [[C.Write]] by { assert C.Touched(its[1..]) == []; }
    assert C.FirstWriting([[C.Write]]) == 0;
  }

  lemma CollectCons(its: seq<C.Iteration>, e: C.Event, es: seq<C.Event>)
    ensures Collect(its, [e] + es)
         == match e
            case Begin => Collect(its + [[]], es)
            case End => Collect(its, es)
            case Touch(k) => if its == [] then Collect(its, es) else Collect(Extend(its, k), es)
  {
    assert ([e] + es)[1..] == es;
  }

  lemma CollectsWrite()
    ensures Collect([], [C.Begin, C.Touch(C.Write), C.Begin, C.End]) == [[C.Write], []]
  {
    var end: seq<C.Event> := [C.End];
    var one: seq<C.Iteration> := [[]];
    assert [C.Begin, C.Touch(C.Write), C.Begin, C.End] == [C.Begin] + ([C.Touch(C.Write)] + ([C.Begin] + (end + [])));
    CollectCons([], C.Begin, [C.Touch(C.Write)] + ([C.Begin] + (end + [])));
    assert [] + one == one;
    CollectCons(one, C.Touch(C.Write), [C.Begin] + (end + []));
    assert Extend(one, C.Write) == [[C.Write]] by { assert one[0] + [C.Write] == [C.Write]; }
    CollectCons([[C.Write]], C.Begin, end + []);
    assert [[C.Write]] + one == [[C.Write], []];
    CollectCons([[C.Write], []], C.End, []);
  }

  // ---- Labels -------------------------------------------------------------------

  /** What the pass leaves on an entry that is an access: its region, its address
      and, when its region has classified the address by the end of the batch,
      the class. */
  datatype Label<+S> = NoAccess | Label(region: Option<S>, ptr: Addr, cls: Option<Class>)

  /** The labels of a batch, given the state the pass ends it in. */
  function Labels<S(==)>(after: Cleaner<S>, current: Option<S>, ops: seq<Op<S>>): (ls: seq<Label<S>>)
    ensures |ls| == |ops|
    decreases |ops|
  {
    if ops == [] then []
    else
      var l := if ops[0].Access? then
                 Label(current, ops[0].ptr, if current.Some? then after.ClassOf(current.value, ops[0].ptr) else None)
               else NoAccess;
      [l] + Labels(after, NextCurrent(current, ops[0]), ops[1..])
  }

  /** The labels of a run of batches, each cleaned where the one before it stopped. */
  function AllLabels<S(==)>(c: Cleaner<S>, batches: seq<seq<Op<S>>>): seq<Label<S>>
    decreases |batches|
  {
    if batches == [] then []
    else
      var c' := Clean(c, batches[0]);
      Labels(c', c.current, batches[0]) + AllLabels(c', batches[1..])
  }

  /** The join of the classes that labels give one address of one region. */
  function JoinFor<S(==)>(ls: seq<Label<S>>, s: S, a: Addr): Option<Class> {
    if ls == [] then None
    else
      var rest := JoinFor(ls[1..], s, a);
      if ls[0].Label? && ls[0].region == Some(s) && ls[0].ptr == a then Join(ls[0].cls, rest) else rest
  }

  function Flat<T>(batches: seq<seq<T>>): seq<T> {
    if batches == [] then [] else batches[0] + Flat(batches[1..])
  }

  function EventBatches<S(==)>(batches: seq<seq<Op<S>>>, current: Option<S>, s: S, a: Addr): (bs: seq<seq<C.Event>>)
    ensures |bs| == |batches|
    decreases |batches|
  {
    if batches == [] then []
    else [Events(batches[0], current, s, a)] + EventBatches(batches[1..], CurrentAfter(current, batches[0]), s, a)
  }

  lemma {:induction false} JoinForConcat<S>(ls: seq<Label<S>>, more: seq<Label<S>>, s: S, a: Addr)
    ensures JoinFor(ls + more, s, a) == Join(JoinFor(ls, s, a), JoinFor(more, s, a))
    decreases |ls|
  {
    if ls == [] {
      assert ls + more == more;
      HalvesDetermine(Join(None, JoinFor(more, s, a)), JoinFor(more, s, a));
    } else {
      assert (ls + more)[1..] == ls[1..] + more;
      JoinForConcat(ls[1..], more, s, a);
      HalvesDetermine(JoinFor(ls + more, s, a), Join(JoinFor(ls, s, a), JoinFor(more, s, a)));
    }
  }

  lemma {:induction false} JoinForBatch<S>(after: Cleaner<S>, current: Option<S>, ops: seq<Op<S>>, s: S, a: Addr)
    ensures JoinFor(Labels(after, current, ops), s, a) ==
            if C.HasTouch(Events(ops, current, s, a)) then after.ClassOf(s, a) else None
    decreases |ops|
  {
    if ops == [] {
    } else {
      var e := EventOf(ops[0], current, s, a);
      var rest := Events(ops[1..], NextCurrent(current, ops[0]), s, a);
      JoinForBatch(after, NextCurrent(current, ops[0]), ops[1..], s, a);
      var es := Events(ops, current, s, a);
      if C.HasTouch(rest) {
        var i :| 0 <= i < |rest| && rest[i].Touch?;
        assert es[i + |e|].Touch?;
      }
      if C.HasTouch(es) {
        var i :| 0 <= i < |es| && es[i].Touch?;
        if i >= |e| {
          assert rest[i - |e|].Touch?;
        }
      }
      if e != [] && e[0].Touch? {
        assert es[0].Touch?;
        HalvesDetermine(JoinFor(Labels(after, current, ops), s, a), after.ClassOf(s, a));
      }
    }
  }

  lemma {:induction false} LabelsAreTrackLabels<S>(c: Cleaner<S>, batches: seq<seq<Op<S>>>, s: S, a: Addr)
    ensures JoinFor(AllLabels(c, batches), s, a)
         == C.JoinOfLabels(TrackIn(c.Of(s), a), EventBatches(batches, c.current, s, a))
    ensures C.Concat(EventBatches(batches, c.current, s, a)) == Events(Flat(batches), c.current, s, a)
    decreases |batches|
  {
    if batches == [] {
    } else {
      var c' := Clean(c, batches[0]);
      CleanProjects(c, batches[0], s, a);
      JoinForBatch(c', c.current, batches[0], s, a);
      JoinForConcat(Labels(c', c.current, batches[0]), AllLabels(c', batches[1..]), s, a);
      LabelsAreTrackLabels(c', batches[1..], s, a);
      EventsConcat(batches[0], Flat(batches[1..]), c.current, s, a);
    }
  }

  lemma {:induction false} EventBatchesTake<S>(batches: seq<seq<Op<S>>>, n: nat, current: Option<S>, s: S, a: Addr)
    requires n <= |batches|
    ensures EventBatches(batches[..n], current, s, a) == EventBatches(batches, current, s, a)[..n]
    decreases n
  {
    if n == 0 {
    } else {
      assert batches[..n][1..] == batches[1..][..n - 1];
      EventBatchesTake(batches[1..], n - 1, CurrentAfter(current, batches[0]), s, a);
    }
  }

  /** An iteration of the region that touched the address has ended in the stream. */
  predicate CompletedIn<S(==)>(ops: seq<Op<S>>, s: S, a: Addr) {
    C.TouchCompleted(Events(ops, None, s, a))
  }

  /** After any stream, a region knows an address exactly then. */
  lemma KnownIffCompletedIn<S>(ops: seq<Op<S>>, s: S, a: Addr)
    ensures Clean(Initial(), ops).ClassOf(s, a).Some? <==> CompletedIn(ops, s, a)
  {
    CleanProjects(Initial(), ops, s, a);
    C.KnownIffCompleted(Events(ops, None, s, a));
  }

  /** However the stream is cut into batches, the classes on an address's entries
      join to the class the region ends up with exactly when an iteration that
      touched the address has ended by the end of the last batch that touches it, or
      none ever does. */
  lemma LabelsJoinToFinalClass<S>(batches: seq<seq<Op<S>>>, s: S, a: Addr)
    ensures var n := C.UpToLastTouch(EventBatches(batches, None, s, a));
            JoinFor(AllLabels(Initial(), batches), s, a) == Clean(Initial(), Flat(batches)).ClassOf(s, a) <==>
            CompletedIn(Flat(batches[..n]), s, a) || !CompletedIn(Flat(batches), s, a)
  {
    var c: Cleaner<S> := Initial();
    var bs := EventBatches(batches, None, s, a);
    var n := C.UpToLastTouch(bs);
    LabelsAreTrackLabels(c, batches, s, a);
    LabelsAreTrackLabels(c, batches[..n], s, a);
    EventBatchesTake(batches, n, None, s, a);
    CleanProjects(c, Flat(batches), s, a);
    C.LabelsJoinToClass(bs);
  }

  /** When no batch is cut inside an iteration of the region, the classes on an
      address's entries join to the closed form of its whole history. */
  lemma WholeIterationBatches<S>(batches: seq<seq<Op<S>>>, s: S, a: Addr)
    requires CutBetween(batches, None, s)
    ensures JoinFor(AllLabels(Initial(), batches), s, a)
         == Clean(Initial(), Flat(batches)).ClassOf(s, a)
         == C.ClosedForm(C.ConcatIterations(Histories(batches, None, s, a)))
  {
    var c: Cleaner<S> := Initial();
    LabelsAreTrackLabels(c, batches, s, a);
    CleanProjects(c, Flat(batches), s, a);
    HistoriesBatch(batches, None, s, a);
    C.CutsBetweenIterations(Histories(batches, None, s, a));
  }

  predicate CutBetween<S(==)>(batches: seq<seq<Op<S>>>, current: Option<S>, s: S)
    decreases |batches|
  {
    batches == [] ||
    (Bracketed(batches[0], current, s, false) && CutBetween(batches[1..], CurrentAfter(current, batches[0]), s))
  }

  function Histories<S(==)>(batches: seq<seq<Op<S>>>, current: Option<S>, s: S, a: Addr): seq<seq<C.Iteration>>
    decreases |batches|
  {
    if batches == [] then []
    else [Collect([], Events(batches[0], current, s, a))]
         + Histories(batches[1..], CurrentAfter(current, batches[0]), s, a)
  }

  lemma {:induction false} HistoriesBatch<S>(batches: seq<seq<Op<S>>>, current: Option<S>, s: S, a: Addr)
    requires CutBetween(batches, current, s)
    ensures C.Batches(Histories(batches, current, s, a)) == EventBatches(batches, current, s, a)
    decreases |batches|
  {
    if batches == [] {
    } else {
      HistoryFlattens(batches[0], current, s, a);
      HistoriesBatch(batches[1..], CurrentAfter(current, batches[0]), s, a);
    }
  }
}
