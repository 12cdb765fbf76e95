/** The compile-time elision: loads and stores whose pointer a must-analysis finds
    already accessed are not instrumented. */
module StaticSkip {
  import opened Classes
  import opened Cleaning
  import opened Instrumentation
  import C = Classification

  type Inst = nat
  type Obj = nat

  /** A function's instructions, by the edges control can take between them. */
  datatype Function = Function(entry: Inst, edges: set<(Inst, Inst)>)

  /** The instructions of one kind, loads or stores, that the analysis looks at,
      each with its pointer operand. */
  type Objects = map<Inst, Obj>

  predicate IsPath(f: Function, p: seq<Inst>) {
    p != [] && p[0] == f.entry && forall k :: 0 < k < |p| ==> (p[k - 1], p[k]) in f.edges
  }

  ghost predicate Dominates(f: Function, d: Inst, i: Inst) {
    forall p: seq<Inst> :: IsPath(f, p) && p[|p| - 1] == i ==> d in p
  }

  function Gen(o: Objects, i: Inst): set<Obj> {
    if i in o then {o[i]} else {}
  }

  /** Objects accessed before each instruction, as the data-flow engine reports. */
  type Facts = map<Inst, set<Obj>>

  function In(facts: Facts, i: Inst): set<Obj> {
    if i in facts then facts[i] else {}
  }

  /** The equations: nothing before the entry, and before any other instruction
      only what every predecessor accesses or has before it. */
  predicate Solves(f: Function, o: Objects, facts: Facts) {
    && In(facts, f.entry) == {}
    && forall e :: e in f.edges ==> In(facts, e.1) <= Gen(o, e.0) + In(facts, e.0)
  }

  function Skipped(o: Objects, facts: Facts): set<Inst> {
    set i | i in o && o[i] in In(facts, i)
  }

  /** A region of the source: the instruction that enters it, those that leave it. */
  datatype ROI = ROI(start: Inst, stops: seq<Inst>)

  ghost predicate IsExit(f: Function, i: Inst) {
    forall e :: e in f.edges ==> e.0 != i
  }

  /** Every way from an instruction to the function's end goes through another. */
  ghost predicate PostDominates(f: Function, stop: Inst, i: Inst) {
    forall p: seq<Inst> :: IsPath(Function(i, f.edges), p) && IsExit(f, p[|p| - 1]) ==> stop in p
  }

  /** The dominator trees, as they answer. */
  type Tree = (Inst, Inst) -> bool

  ghost predicate AnswersFor(f: Function, dt: Tree, pdt: Tree) {
    forall d, i :: (dt(d, i) <==> Dominates(f, d, i)) && (pdt(d, i) <==> PostDominates(f, d, i))
  }

  ghost predicate Passes(f: Function, roi: ROI, i: Inst) {
    Dominates(f, roi.start, i) && StopFollows(f, roi.stops, i)
  }

  /** An instruction that the analysis looks at: it is between the start and a stop
      of every region of its function. */
  ghost predicate Considered(f: Function, rois: seq<ROI>, i: Inst) {
    forall r :: 0 <= r < |rois| ==> Passes(f, rois[r], i)
  }

  ghost predicate StopFollows(f: Function, stops: seq<Inst>, i: Inst) {
    exists t :: 0 <= t < |stops| && PostDominates(f, stops[t], i)
  }

  /** Some stop comes after the instruction on every way out. */
  method SomeStopFollows(ghost f: Function, pdt: Tree, stops: seq<Inst>, inst: Inst) returns (stopPostDominatesInst: bool)
    requires forall d, i :: pdt(d, i) <==> PostDominates(f, d, i)
    ensures stopPostDominatesInst <==> StopFollows(f, stops, inst)
  {
    stopPostDominatesInst := false;
    for t := 0 to |stops|
      invariant forall u :: 0 <= u < t ==> !PostDominates(f, stops[u], inst)
    {
      if pdt(stops[t], inst) {
        return true;
      }
    }
  }

  /** The filter: every region must have a start that dominates the instruction and a
      stop that comes after it. */
  method ConsiderInst(ghost f: Function, dt: Tree, pdt: Tree, rois: seq<ROI>, inst: Inst) returns (considerThisInst: bool)
    requires AnswersFor(f, dt, pdt)
    ensures considerThisInst <==> Considered(f, rois, inst)
  {
    considerThisInst := true;
    for r := 0 to |rois|
      invariant considerThisInst <==> forall q :: 0 <= q < r ==> Passes(f, rois[q], inst)
    {
      var startDominateInst := dt(rois[r].start, inst);
      var stopPostDominatesInst := SomeStopFollows(f, pdt, rois[r].stops, inst);
      considerThisInst := considerThisInst && startDominateInst && stopPostDominatesInst;
    }
  }

  /** The loads, or the stores, of a function that pass the filter, with the pointers. */
  method VisitInsts(ghost f: Function, dt: Tree, pdt: Tree, rois: seq<ROI>, pointers: Objects) returns (o: Objects)
    requires AnswersFor(f, dt, pdt)
    ensures forall i :: i in o <==> i in pointers && Considered(f, rois, i)
    ensures forall i :: i in o ==> o[i] == pointers[i]
    ensures StartsDominate(f, set r | 0 <= r < |rois| :: rois[r].start, o)
  {
    o := map[];
    var left := pointers.Keys;
    while left != {}
      invariant left <= pointers.Keys
      invariant forall i :: i in o <==> i in pointers && i !in left && Considered(f, rois, i)
      invariant forall i :: i in o ==> o[i] == pointers[i]
      decreases left
    {
      var inst :| inst in left;
      var considerThisInst := ConsiderInst(f, dt, pdt, rois, inst);
      if considerThisInst {
        o := o[inst := pointers[inst]];
      }
      left := left - {inst};
    }
  }

  ghost predicate StartsDominate(f: Function, starts: set<Inst>, o: Objects) {
    forall d, i :: d in starts && i in o ==> Dominates(f, d, i)
  }

  /** The scan of a function's instructions for those to skip. */
  method GetInstsToSkip(insts: seq<Inst>, o: Objects, facts: Facts) returns (skip: set<Inst>)
    requires forall i :: i in o ==> i in insts
    ensures skip == Skipped(o, facts)
    ensures forall i :: i in skip <==> i in o && i in facts && o[i] in facts[i]
  {
    skip := {};
    for k := 0 to |insts|
      invariant skip == set i | i in Skipped(o, facts) && i in insts[..k]
    {
      var i := insts[k];
      if i in o && o[i] in In(facts, i) {
        skip := skip + {i};
      }
    }
    assert insts[..|insts|] == insts;
  }

  /** An object is not accessed before the first execution of an instruction that
      dominates every access to it, so the analysis never has it there. */
  lemma NothingBeforeDominator(f: Function, o: Objects, facts: Facts, p: seq<Inst>, m: nat, v: Obj)
    requires Solves(f, o, facts) && IsPath(f, p) && m < |p|
    requires forall i :: i in o && o[i] == v ==> Dominates(f, p[m], i)
    ensures v !in In(facts, p[m])
  {
    var n := 0;
    while p[n] != p[m]
      invariant n <= m
      invariant p[m] !in p[..n]
      invariant v !in In(facts, p[n])
      decreases m - n
    {
      var q := p[..n + 1];
      assert IsPath(f, q) && q[|q| - 1] == p[n] && p[m] !in q;
      assert !Dominates(f, p[m], p[n]);
      assert (p[n], p[n + 1]) in f.edges;
      n := n + 1;
    }
  }

  /** On every path to a skipped instruction, an instrumented one of the same kind
      and the same pointer ran, and since then none of the instructions of `ds`,
      each of which dominates every access through that pointer. */
  lemma SkippedIsCovered(f: Function, o: Objects, facts: Facts, p: seq<Inst>, k: nat, ds: set<Inst>) returns (j: nat)
    requires Solves(f, o, facts) && IsPath(f, p) && k < |p|
    requires p[k] in Skipped(o, facts)
    requires forall d, i :: d in ds && i in o && o[i] == o[p[k]] ==> Dominates(f, d, i)
    ensures j < k && p[j] in o && o[p[j]] == o[p[k]]
    ensures p[j] !in Skipped(o, facts)
    ensures forall t :: j < t <= k ==> p[t] !in ds
  {
    var v := o[p[k]];
    // The last instruction of `ds` before the skipped one, or the entry.
    var m := k;
    while m > 0 && p[m] !in ds
      invariant m <= k
      invariant forall t :: m < t <= k ==> p[t] !in ds
    {
      m := m - 1;
    }
    if p[m] in ds {
      NothingBeforeDominator(f, o, facts, p, m, v);
    }
    assert v !in In(facts, p[m]);
    j := m;
    while !(p[j] in o && o[p[j]] == v)
      invariant m <= j < k
      invariant v !in In(facts, p[j])
      decreases k - j
    {
      assert (p[j], p[j + 1]) in f.edges;
      j := j + 1;
      if j == k {
        assert false;
      }
    }
  }

  // ---- How much is skipped -------------------------------------------------------------------

  predicate AccessedBefore(o: Objects, p: seq<Inst>, v: Obj) {
    exists j :: 0 <= j < |p| - 1 && p[j] in o && o[p[j]] == v
  }

  /** On every path to an instruction, an access through the pointer runs before it. */
  ghost predicate AlwaysBefore(f: Function, o: Objects, i: Inst, v: Obj) {
    forall p: seq<Inst> :: IsPath(f, p) && p[|p| - 1] == i ==> AccessedBefore(o, p, v)
  }

  ghost predicate Reached(f: Function, i: Inst) {
    exists p: seq<Inst> :: IsPath(f, p) && p[|p| - 1] == i
  }

  /** The solution that the engine's iteration from above ends in: none has more
      before an instruction that can be reached. */
  ghost predicate Greatest(f: Function, o: Objects, facts: Facts) {
    && Solves(f, o, facts)
    && forall other: Facts, i :: Solves(f, o, other) && Reached(f, i) ==> In(other, i) <= In(facts, i)
  }

  /** Every solution is right about what ran before. */
  lemma {:induction false} SolutionIsRight(f: Function, o: Objects, facts: Facts, p: seq<Inst>, v: Obj)
    requires Solves(f, o, facts) && IsPath(f, p) && v in In(facts, p[|p| - 1])
    ensures AccessedBefore(o, p, v)
    decreases |p|
  {
    if |p| == 1 {
      assert false;
    } else {
      var q := p[..|p| - 1];
      assert (q[|q| - 1], p[|p| - 1]) in f.edges;
      if v in In(facts, q[|q| - 1]) {
        SolutionIsRight(f, o, facts, q, v);
        var j :| 0 <= j < |q| - 1 && q[j] in o && o[q[j]] == v;
        assert p[j] == q[j];
      } else {
        assert p[|q| - 1] in o && o[p[|q| - 1]] == v;
      }
    }
  }

  function Insts(f: Function): set<Inst> {
    {f.entry} + (set e | e in f.edges :: e.0) + (set e | e in f.edges :: e.1)
  }

  /** What always runs before, for the instructions of a function. */
  ghost function Always(f: Function, o: Objects): Facts {
    map i | i in Insts(f) :: set v | v in o.Values && AlwaysBefore(f, o, i, v)
  }

  lemma ExtendPath(f: Function, o: Objects, p: seq<Inst>, b: Inst, v: Obj)
    requires IsPath(f, p) && (p[|p| - 1], b) in f.edges && AlwaysBefore(f, o, b, v)
    ensures v in Gen(o, p[|p| - 1]) || AccessedBefore(o, p, v)
  {
    var q := p + [b];
    assert IsPath(f, q) && q[|q| - 1] == b;
    var j :| 0 <= j < |q| - 1 && q[j] in o && o[q[j]] == v;
    assert q[j] == p[j];
  }

  lemma AlwaysSolves(f: Function, o: Objects)
    ensures Solves(f, o, Always(f, o))
  {
    var facts := Always(f, o);
    assert IsPath(f, [f.entry]);
    forall v ensures v !in In(facts, f.entry) {
      assert !AccessedBefore(o, [f.entry], v);
    }
    forall e, v | e in f.edges && v in In(facts, e.1) ensures v in Gen(o, e.0) + In(facts, e.0) {
      if v !in Gen(o, e.0) {
        forall p: seq<Inst> | IsPath(f, p) && p[|p| - 1] == e.0 ensures AccessedBefore(o, p, v) {
          ExtendPath(f, o, p, e.1, v);
        }
        assert AlwaysBefore(f, o, e.0, v);
      }
    }
  }

  /** There is a greatest solution. */
  lemma AlwaysIsGreatest(f: Function, o: Objects)
    ensures Greatest(f, o, Always(f, o))
  {
    AlwaysSolves(f, o);
    forall other: Facts, i: Inst, v: Obj | Solves(f, o, other) && Reached(f, i) && v in In(other, i) ensures v in In(Always(f, o), i) {
      forall p: seq<Inst> | IsPath(f, p) && p[|p| - 1] == i ensures AccessedBefore(o, p, v) {
        SolutionIsRight(f, o, other, p, v);
      }
      assert AlwaysBefore(f, o, i, v);
      var p: seq<Inst> :| IsPath(f, p) && p[|p| - 1] == i;
      SolutionIsRight(f, o, other, p, v);
      if |p| > 1 {
        assert (p[|p| - 2], i) in f.edges;
      }
    }
  }

  /** With the greatest solution, an instruction that can be reached is skipped exactly
      when an access of its kind through its pointer runs before it on every path. */
  lemma SkippedIffAlwaysBefore(f: Function, o: Objects, facts: Facts, i: Inst)
    requires Greatest(f, o, facts) && Reached(f, i)
    ensures i in Skipped(o, facts) <==> i in o && AlwaysBefore(f, o, i, o[i])
  {
    if i in o {
      AlwaysSolves(f, o);
      AlwaysIsGreatest(f, o);
      assert In(Always(f, o), i) <= In(facts, i) <= In(Always(f, o), i);
      var p: seq<Inst> :| IsPath(f, p) && p[|p| - 1] == i;
      if |p| > 1 {
        assert (p[|p| - 2], i) in f.edges;
      }
    }
  }

  /** What the analysis decides for a function, loads and stores each on their own. */
  function SkippedBoth(loads: Objects, loadFacts: Facts, stores: Objects, storeFacts: Facts): set<Inst> {
    Skipped(loads, loadFacts) + Skipped(stores, storeFacts)
  }

  /** The library's merge of two ranges, as it acts on any two sequences. */
  function SetUnion(a: seq<Inst>, b: seq<Inst>): seq<Inst>
    decreases |a| + |b|
  {
    if a == [] then b
    else if b == [] then a
    else if a[0] < b[0] then [a[0]] + SetUnion(a[1..], b)
    else if b[0] < a[0] then [b[0]] + SetUnion(a, b[1..])
    else [a[0]] + SetUnion(a[1..], b[1..])
  }

  /** The two results are merged from unordered sets; no element is lost by that. */
  lemma {:induction false} SetUnionOfUnordered(a: seq<Inst>, b: seq<Inst>, x: Inst)
    ensures x in SetUnion(a, b) <==> x in a || x in b
    decreases |a| + |b|
  {
    if a != [] && b != [] {
      if a[0] < b[0] {
        SetUnionOfUnordered(a[1..], b, x);
      } else if b[0] < a[0] {
        SetUnionOfUnordered(a, b[1..], x);
      } else {
        SetUnionOfUnordered(a[1..], b[1..], x);
      }
    }
  }

  // ---- What skipping does to the classes -------------------------------------------------

  /** A function of the instrumented program: where it enters and leaves regions,
      the loads and stores the analysis looks at, and the instruction that defines
      each pointer that an instruction of the function defines. */
  datatype Program<S> = Program(f: Function, starts: map<Inst, S>, stops: set<Inst>,
                                loads: Objects, loadFacts: Facts, stores: Objects, storeFacts: Facts,
                                defs: map<Obj, Inst>)
  {
    /** No instruction has two roles; the analysis has solved its equations; region
        starts and definitions dominate the accesses. */
    ghost predicate Valid() {
      && starts.Keys !! stops !! loads.Keys !! stores.Keys
      && Solves(f, loads, loadFacts) && Solves(f, stores, storeFacts)
      && StartsDominate(f, starts.Keys, loads) && StartsDominate(f, starts.Keys, stores)
      && (forall v, i :: v in defs && i in loads && loads[i] == v ==> Dominates(f, defs[v], i))
      && (forall v, i :: v in defs && i in stores && stores[i] == v ==> Dominates(f, defs[v], i))
    }

    function Skip(): set<Inst> {
      SkippedBoth(loads, loadFacts, stores, storeFacts)
    }
  }

  /** Skipped are the loads before which a load always runs through the same pointer, and
      the stores before which a store does. */
  lemma SkipIff<S>(pr: Program<S>, i: Inst)
    requires Greatest(pr.f, pr.loads, pr.loadFacts) && Greatest(pr.f, pr.stores, pr.storeFacts) && Reached(pr.f, i)
    ensures i in pr.Skip() <==>
            || (i in pr.loads && AlwaysBefore(pr.f, pr.loads, i, pr.loads[i]))
            || (i in pr.stores && AlwaysBefore(pr.f, pr.stores, i, pr.stores[i]))
  {
    SkippedIffAlwaysBefore(pr.f, pr.loads, pr.loadFacts, i);
    SkippedIffAlwaysBefore(pr.f, pr.stores, pr.storeFacts, i);
  }

  /** One execution of the function: the path, the address each access on it has,
      and the calls made at each point by code the analysis does not look at. */
  datatype Execution<S> = Execution(path: seq<Inst>, addr: seq<Addr>, others: seq<seq<Call<S>>>)

  /** Two accesses through the same pointer have the same address unless the
      pointer is defined anew between them. */
  ghost predicate SameAddress<S>(pr: Program<S>, o: Objects, path: seq<Inst>, addr: seq<Addr>)
    requires |addr| == |path|
  {
    forall j, k :: 0 <= j < k < |path| && path[j] in o && path[k] in o && o[path[j]] == o[path[k]]
      && (o[path[k]] in pr.defs ==> forall t :: j < t <= k ==> path[t] != pr.defs[o[path[k]]])
      ==> addr[j] == addr[k]
  }

  /** The calls that enter and leave regions. */
  function Regions<S>(calls: seq<Call<S>>): seq<Call<S>> {
    if calls == [] then []
    else (if calls[0].Enter? || calls[0].Exit? then [calls[0]] else []) + Regions(calls[1..])
  }

  /** Whatever is entered is left again: a callee that enters regions leaves them
      before it returns, or enters none. */
  predicate Closes<S>(calls: seq<Call<S>>) {
    var rs := Regions(calls);
    rs == [] || rs[|rs| - 1].Exit?
  }

  ghost predicate Executes<S>(pr: Program<S>, e: Execution<S>) {
    && IsPath(pr.f, e.path)
    && |e.addr| == |e.path| == |e.others|
    && (forall k :: 0 <= k < |e.others| ==> WellFormed(e.others[k]) && Closes(e.others[k]))
    && SameAddress(pr, pr.loads, e.path, e.addr)
    && SameAddress(pr, pr.stores, e.path, e.addr)
  }

  /** The call an instruction makes when it is instrumented. */
  function Own<S>(pr: Program<S>, i: Inst, a: Addr): seq<Call<S>> {
    if i in pr.starts then [Enter(pr.starts[i])]
    else if i in pr.stops then [Exit]
    else if i in pr.loads then [Load(a)]
    else if i in pr.stores then [Store(a, 1, 1)]
    else []
  }

  /** The call an instruction makes, or none when it is skipped. */
  function Made<S>(pr: Program<S>, e: Execution<S>, skip: set<Inst>, k: nat): seq<Call<S>>
    requires |e.addr| == |e.path| == |e.others| && k < |e.path|
  {
    if e.path[k] in skip then [] else Own(pr, e.path[k], e.addr[k])
  }

  function CallsAt<S>(pr: Program<S>, e: Execution<S>, skip: set<Inst>, k: nat): seq<Call<S>>
    requires |e.addr| == |e.path| == |e.others| && k < |e.path|
  {
    Made(pr, e, skip, k) + e.others[k]
  }

  /** What the execution calls from its `k`th instruction on. */
  function Calls<S>(pr: Program<S>, e: Execution<S>, skip: set<Inst>, k: nat): (calls: seq<Call<S>>)
    requires |e.addr| == |e.path| == |e.others| && k <= |e.path|
    requires forall k :: 0 <= k < |e.others| ==> WellFormed(e.others[k])
    ensures WellFormed(calls)
    decreases |e.path| - k
  {
    if k == |e.path| then [] else CallsAt(pr, e, skip, k) + Calls(pr, e, skip, k + 1)
  }

  /** The accesses instrumented since a region of the function was last entered. */
  function Recent<S>(pr: Program<S>, e: Execution<S>, k: nat): set<(C.Kind, Addr)>
    requires |e.addr| == |e.path| == |e.others| && k <= |e.path|
  {
    if k == 0 then {}
    else
      var i, a, r := e.path[k - 1], e.addr[k - 1], Recent(pr, e, k - 1);
      if i in pr.starts then {}
      else if i in pr.Skip() then r
      else if i in pr.loads then r + {(C.Read, a)}
      else if i in pr.stores then r + {(C.Write, a)}
      else r
  }

  lemma {:induction false} RecentHas<S>(pr: Program<S>, e: Execution<S>, j: nat, k: nat)
    requires |e.addr| == |e.path| == |e.others| && j < k <= |e.path|
    requires pr.Valid()
    requires e.path[j] !in pr.Skip()
    requires forall t :: j < t < k ==> e.path[t] !in pr.starts
    ensures e.path[j] in pr.loads ==> (C.Read, e.addr[j]) in Recent(pr, e, k)
    ensures e.path[j] in pr.stores ==> (C.Write, e.addr[j]) in Recent(pr, e, k)
    decreases k
  {
    if j < k - 1 {
      RecentHas(pr, e, j, k - 1);
    }
  }

  /** A skipped access repeats a recent one. */
  lemma SkippedIsRecent<S>(pr: Program<S>, e: Execution<S>, k: nat)
    requires pr.Valid() && Executes(pr, e) && k < |e.path|
    requires e.path[k] in pr.Skip()
    ensures e.path[k] in pr.loads ==> (C.Read, e.addr[k]) in Recent(pr, e, k)
    ensures e.path[k] in pr.stores ==> (C.Write, e.addr[k]) in Recent(pr, e, k)
  {
    var i := e.path[k];
    if i in pr.loads {
      var v := pr.loads[i];
      var ds := pr.starts.Keys + if v in pr.defs then {pr.defs[v]} else {};
      var j := SkippedIsCovered(pr.f, pr.loads, pr.loadFacts, e.path, k, ds);
      assert e.path[j] !in pr.Skip();
      RecentHas(pr, e, j, k);
      assert e.addr[j] == e.addr[k];
    } else {
      var v := pr.stores[i];
      var ds := pr.starts.Keys + if v in pr.defs then {pr.defs[v]} else {};
      var j := SkippedIsCovered(pr.f, pr.stores, pr.storeFacts, e.path, k, ds);
      assert e.path[j] !in pr.Skip();
      RecentHas(pr, e, j, k);
      assert e.addr[j] == e.addr[k];
    }
  }

  /** Regions are not nested: one is entered only when none is active, and leaving
      it leaves none active. */
  predicate Flat<S(==)>(q: Producer<S>, calls: seq<Call<S>>)
    requires q.Valid() && WellFormed(calls)
    decreases |calls|
  {
    if calls == [] then true
    else
      && (calls[0].Enter? ==> q.active.None?)
      && (calls[0].Exit? ==> Issue(q, calls[0], false).0.active.None?)
      && Flat(Issue(q, calls[0], false).0, calls[1..])
  }

  lemma {:induction false} StreamConcat<S>(q: Producer<S>, calls: seq<Call<S>>, more: seq<Call<S>>)
    requires q.Valid() && WellFormed(calls) && WellFormed(more)
    ensures WellFormed(calls + more)
    ensures Stream(q, calls + more, false) == Stream(q, calls, false) + Stream(After(q, calls, false), more, false)
    ensures After(q, calls + more, false) == After(After(q, calls, false), more, false)
    ensures Flat(q, calls + more) ==> Flat(q, calls) && Flat(After(q, calls, false), more)
    decreases |calls|
  {
    if calls == [] {
      assert calls + more == more;
    } else {
      assert (calls + more)[1..] == calls[1..] + more;
      StreamConcat(Issue(q, calls[0], false).0, calls[1..], more);
    }
  }

  lemma CleanStreamConcat<S>(c: Cleaner<S>, q: Producer<S>, calls: seq<Call<S>>, more: seq<Call<S>>)
    requires q.Valid() && WellFormed(calls) && WellFormed(more)
    ensures WellFormed(calls + more)
    ensures Clean(c, Stream(q, calls + more, false))
         == Clean(Clean(c, Stream(q, calls, false)), Stream(After(q, calls, false), more, false))
    ensures After(q, calls + more, false) == After(After(q, calls, false), more, false)
    ensures Flat(q, calls + more) ==> Flat(q, calls) && Flat(After(q, calls, false), more)
  {
    StreamConcat(q, calls, more);
    CleanConcat(c, Stream(q, calls, false), Stream(After(q, calls, false), more, false));
  }

  predicate SameRegions<S(==)>(q: Producer<S>, r: Producer<S>) {
    q.active == r.active && q.parents == r.parents
  }

  /** Without dropping, the recorded accesses do not matter. */
  lemma {:induction false} StreamSameRegions<S>(q: Producer<S>, r: Producer<S>, calls: seq<Call<S>>)
    requires q.Valid() && r.Valid() && WellFormed(calls) && SameRegions(q, r)
    ensures Stream(q, calls, false) == Stream(r, calls, false)
    ensures SameRegions(After(q, calls, false), After(r, calls, false))
    decreases |calls|
  {
    if calls == [] {
    } else {
      StreamSameRegions(Issue(q, calls[0], false).0, Issue(r, calls[0], false).0, calls[1..]);
    }
  }

  /** The pass is in the program's region, whose maps already show the recent accesses. */
  ghost predicate Kept<S>(c: Cleaner<S>, q: Producer<S>, recent: set<(C.Kind, Addr)>) {
    && q.Valid() && c.current == q.active && q.parents.Keys <= c.regions.Keys
    && (q.active.Some? ==> forall r :: r in recent ==> Idle(c.Of(q.active.value), r.0, r.1))
  }

  lemma AccessKept<S>(c: Cleaner<S>, q: Producer<S>, recent: set<(C.Kind, Addr)>, kind: C.Kind, a: Addr)
    requires Kept(c, q, recent) && q.active.Some?
    ensures Kept(StepOp(c, Access(kind, a)), q, recent + {(kind, a)})
  {
    var m := c.Of(q.active.value);
    IdleOnceDone(m, kind, a);
    forall r | r in recent ensures Idle(AccessMaps(m, kind, a), r.0, r.1) {
      IdleStays(m, r.0, r.1, kind, a);
    }
  }

  lemma {:induction false} AccessesKept<S>(c: Cleaner<S>, q: Producer<S>, recent: set<(C.Kind, Addr)>,
                                           kind: C.Kind, ps: seq<Addr>)
    requires Kept(c, q, recent) && q.active.Some?
    ensures Kept(Clean(c, Accesses(kind, ps)), q, recent)
    decreases |ps|
  {
    if ps == [] {
    } else {
      AccessKept(c, q, recent, kind, ps[0]);
      AccessesKept(StepOp(c, Access(kind, ps[0])), q, recent, kind, ps[1..]);
    }
  }

  lemma {:induction false} PlainKept<S>(c: Cleaner<S>, q: Producer<S>, recent: set<(C.Kind, Addr)>, calls: seq<Call<S>>)
    requires Kept(c, q, recent) && WellFormed(calls) && Regions(calls) == []
    ensures Kept(Clean(c, Stream(q, calls, false)), After(q, calls, false), recent)
    decreases |calls|
  {
    if calls == [] {
    } else {
      var (q', ops) := Issue(q, calls[0], false);
      if q.active.Some? {
        match calls[0] {
          case Load(a) =>
            assert ops == Accesses(C.Read, [a]);
            AccessesKept(c, q, recent, C.Read, [a]);
          case Store(a, size, element) =>
            AccessesKept(c, q, recent, C.Write, Elements(a, size, element));
        }
      }
      PlainKept(Clean(c, ops), q', recent, calls[1..]);
      CleanConcat(c, ops, Stream(q', calls[1..], false));
    }
  }

  /** One call on its own. */
  lemma StreamOne<S>(q: Producer<S>, call: Call<S>)
    requires q.Valid() && (call.Store? ==> call.element > 0)
    ensures Stream(q, [call], false) == Issue(q, call, false).1
    ensures After(q, [call], false) == Issue(q, call, false).0
    ensures Flat(q, [call]) ==> (call.Enter? ==> q.active.None?) && (call.Exit? ==> Issue(q, call, false).0.active.None?)
  {
    assert [call][1..] == [];
  }

  lemma CleanOne<S>(c: Cleaner<S>, op: Op<S>)
    ensures Clean(c, [op]) == StepOp(c, op)
  {
    assert Clean(c, [op]) == Clean(StepOp(c, op), [op][1..]);
  }

  /** An instruction that is instrumented. */
  lemma OwnKept<S>(pr: Program<S>, e: Execution<S>, k: nat, c: Cleaner<S>, q: Producer<S>)
    requires pr.Valid() && Executes(pr, e) && k < |e.path|
    requires Kept(c, q, Recent(pr, e, k)) && Flat(q, Own(pr, e.path[k], e.addr[k]))
    requires e.path[k] !in pr.Skip()
    ensures var own := Own(pr, e.path[k], e.addr[k]);
            Kept(Clean(c, Stream(q, own, false)), After(q, own, false), Recent(pr, e, k + 1))
  {
    var i, a := e.path[k], e.addr[k];
    if i in pr.starts {
      StreamOne(q, Call<S>.Enter(pr.starts[i]));
      CleanOne(c, BeginRegion(pr.starts[i]));
    } else if i in pr.stops {
      StreamOne(q, Call<S>.Exit);
      if q.active.Some? {
        CleanOne(c, EndRegion(q.active.value, q.parents[q.active.value]));
      }
    } else if i in pr.loads {
      StreamOne(q, Call<S>.Load(a));
      if q.active.Some? {
        CleanOne(c, Access(C.Read, a));
        AccessKept(c, q, Recent(pr, e, k), C.Read, a);
      }
    } else if i in pr.stores {
      StreamOne(q, Call<S>.Store(a, 1, 1));
      assert Elements(a, 1, 1) == [a];
      assert Accesses<S>(C.Write, [a]) == [Access(C.Write, a)];
      if q.active.Some? {
        CleanOne(c, Access(C.Write, a));
        AccessKept(c, q, Recent(pr, e, k), C.Write, a);
      }
    }
  }

  /** An instruction that is skipped would not have changed anything. */
  lemma SkippedIsIdle<S>(pr: Program<S>, e: Execution<S>, k: nat, c: Cleaner<S>, q: Producer<S>)
    requires pr.Valid() && Executes(pr, e) && k < |e.path|
    requires Kept(c, q, Recent(pr, e, k))
    requires e.path[k] in pr.Skip()
    ensures var own := Own(pr, e.path[k], e.addr[k]);
            && Clean(c, Stream(q, own, false)) == c
            && SameRegions(After(q, own, false), q)
            && Recent(pr, e, k + 1) == Recent(pr, e, k)
  {
    var i, a := e.path[k], e.addr[k];
    SkippedIsRecent(pr, e, k);
    if i in pr.loads {
      StreamOne(q, Call<S>.Load(a));
      if q.active.Some? {
        CleanOne(c, Access(C.Read, a));
        IdleAccess(c, C.Read, a);
      }
    } else {
      StreamOne(q, Call<S>.Store(a, 1, 1));
      assert Elements(a, 1, 1) == [a];
      assert Accesses<S>(C.Write, [a]) == [Access(C.Write, a)];
      if q.active.Some? {
        CleanOne(c, Access(C.Write, a));
        IdleAccess(c, C.Write, a);
      }
    }
  }

  /** The instruction itself, instrumented in one run and perhaps skipped in the other. */
  lemma OwnStep<S>(pr: Program<S>, e: Execution<S>, k: nat, c: Cleaner<S>, q: Producer<S>, r: Producer<S>)
    requires pr.Valid() && Executes(pr, e) && k < |e.path|
    requires Kept(c, q, Recent(pr, e, k)) && r.Valid() && SameRegions(q, r)
    requires Flat(q, Own(pr, e.path[k], e.addr[k]))
    ensures var own := Own(pr, e.path[k], e.addr[k]);
            var kept := if e.path[k] in pr.Skip() then [] else own;
            && Kept(Clean(c, Stream(q, own, false)), After(q, own, false), Recent(pr, e, k + 1))
            && Clean(c, Stream(r, kept, false)) == Clean(c, Stream(q, own, false))
            && SameRegions(After(q, own, false), After(r, kept, false))
  {
    StreamSameRegions(q, r, Own(pr, e.path[k], e.addr[k]));
    if e.path[k] in pr.Skip() {
      SkippedIsIdle(pr, e, k, c, q);
    } else {
      OwnKept(pr, e, k, c, q);
    }
  }

  lemma UnfoldCalls<S>(pr: Program<S>, e: Execution<S>, skip: set<Inst>, k: nat, c: Cleaner<S>, q: Producer<S>)
    requires |e.addr| == |e.path| == |e.others| && k < |e.path|
    requires forall k :: 0 <= k < |e.others| ==> WellFormed(e.others[k])
    requires q.Valid()
    ensures var own, more := Made(pr, e, skip, k), e.others[k] + Calls(pr, e, skip, k + 1);
            && WellFormed(own) && WellFormed(more)
            && Clean(c, Stream(q, Calls(pr, e, skip, k), false))
               == Clean(Clean(c, Stream(q, own, false)), Stream(After(q, own, false), more, false))
            && After(q, Calls(pr, e, skip, k), false) == After(After(q, own, false), more, false)
            && (Flat(q, Calls(pr, e, skip, k)) ==> Flat(q, own) && Flat(After(q, own, false), more))
  {
    var own, more := Made(pr, e, skip, k), e.others[k] + Calls(pr, e, skip, k + 1);
    assert WellFormed(e.others[k]);
    assert Calls(pr, e, skip, k) == own + more;
    CleanStreamConcat(c, q, own, more);
  }

  // ---- What callees skip for themselves ----------------------------------------------------

  /** The pass is in the program's region, and knows the program's regions. */
  ghost predicate InStep<S>(c: Cleaner<S>, q: Producer<S>) {
    Kept(c, q, {})
  }

  lemma StaysInStep<S>(c: Cleaner<S>, q: Producer<S>, call: Call<S>)
    requires InStep(c, q) && WellFormed([call])
    requires call.Store? ==> call.element > 0
    ensures var (q', ops) := Issue(q, call, false); InStep(Clean(c, ops), q')
  {
    match call {
      case Enter(s) =>
        CleanOne(c, BeginRegion(s));
      case Exit =>
        if q.active.Some? {
          CleanOne(c, EndRegion(q.active.value, q.parents[q.active.value]));
        }
      case Load(a) =>
        if q.active.Some? {
          assert Accesses<S>(C.Read, [a]) == [Access(C.Read, a)];
          AccessesKept(c, q, {}, C.Read, [a]);
        }
      case Store(a, size, element) =>
        if q.active.Some? {
          AccessesKept(c, q, {}, C.Write, Elements(a, size, element));
        }
    }
  }

  lemma {:induction false} AllInStep<S>(c: Cleaner<S>, q: Producer<S>, calls: seq<Call<S>>)
    requires InStep(c, q) && WellFormed(calls)
    ensures InStep(Clean(c, Stream(q, calls, false)), After(q, calls, false))
    decreases |calls|
  {
    if calls == [] {
    } else {
      var (q', ops) := Issue(q, calls[0], false);
      StaysInStep(c, q, calls[0]);
      AllInStep(Clean(c, ops), q', calls[1..]);
      CleanConcat(c, ops, Stream(q', calls[1..], false));
    }
  }

  /** Calls that close leave the program's region alone, or leave it in none. */
  lemma {:induction false} ClosedOrAlone<S>(q: Producer<S>, calls: seq<Call<S>>)
    requires q.Valid() && WellFormed(calls) && Flat(q, calls) && Closes(calls)
    ensures if Regions(calls) == [] then SameRegions(After(q, calls, false), q) else After(q, calls, false).active.None?
    decreases |calls|
  {
    if calls == [] {
    } else {
      ClosedOrAlone(Issue(q, calls[0], false).0, calls[1..]);
    }
  }

  /** What happens besides leaves what is recent recent, or the region is over. */
  lemma OthersKept<S>(c: Cleaner<S>, q: Producer<S>, recent: set<(C.Kind, Addr)>, calls: seq<Call<S>>)
    requires Kept(c, q, recent) && WellFormed(calls) && Flat(q, calls) && Closes(calls)
    ensures Kept(Clean(c, Stream(q, calls, false)), After(q, calls, false), recent)
  {
    if Regions(calls) == [] {
      PlainKept(c, q, recent, calls);
    } else {
      AllInStep(c, q, calls);
      ClosedOrAlone(q, calls);
    }
  }

  /** The maps agree after both, and so do the regions. */
  ghost predicate EndAlike<S>(c: Cleaner<S>, q: Producer<S>, full: seq<Call<S>>, r: Producer<S>, kept: seq<Call<S>>)
    requires q.Valid() && r.Valid() && WellFormed(full) && WellFormed(kept)
  {
    && Clean(c, Stream(q, full, false)) == Clean(c, Stream(r, kept, false))
    && SameRegions(After(q, full, false), After(r, kept, false))
  }

  lemma AlikeConcat<S>(c: Cleaner<S>, q: Producer<S>, full: seq<Call<S>>, more: seq<Call<S>>,
                       r: Producer<S>, kept: seq<Call<S>>, less: seq<Call<S>>)
    requires q.Valid() && r.Valid() && WellFormed(full) && WellFormed(kept) && WellFormed(more) && WellFormed(less)
    requires EndAlike(c, q, full, r, kept)
    requires EndAlike(Clean(c, Stream(q, full, false)), After(q, full, false), more, After(r, kept, false), less)
    ensures WellFormed(full + more) && WellFormed(kept + less) && EndAlike(c, q, full + more, r, kept + less)
  {
    CleanStreamConcat(c, q, full, more);
    CleanStreamConcat(c, r, kept, less);
  }

  /** Calls that the pass cannot tell apart, wherever it is. */
  ghost predicate SameToPass<S(!new)>(full: seq<Call<S>>, kept: seq<Call<S>>) {
    && WellFormed(full) && WellFormed(kept)
    && forall c: Cleaner<S>, q: Producer<S> :: InStep(c, q) && Flat(q, full) ==> EndAlike(c, q, full, q, kept)
  }

  /** Other calls besides, which the pass cannot tell apart from those of the execution. */
  ghost predicate Replaces<S(!new)>(e: Execution<S>, kept: seq<seq<Call<S>>>) {
    |kept| == |e.others| && forall k :: 0 <= k < |kept| ==> SameToPass(e.others[k], kept[k])
  }

  lemma {:induction false} SkipFrom<S(!new)>(pr: Program<S>, e: Execution<S>, kept: seq<seq<Call<S>>>, k: nat,
                                             c: Cleaner<S>, q: Producer<S>, r: Producer<S>)
    requires pr.Valid() && Executes(pr, e) && Replaces(e, kept) && k <= |e.path|
    requires Kept(c, q, Recent(pr, e, k)) && r.Valid() && SameRegions(q, r)
    requires Flat(q, Calls(pr, e, {}, k))
    ensures EndAlike(c, q, Calls(pr, e, {}, k), r, Calls(pr, e.(others := kept), pr.Skip(), k))
    decreases |e.path| - k
  {
    if k == |e.path| {
    } else {
      var e' := e.(others := kept);
      var own, made := Made(pr, e, {}, k), Made(pr, e', pr.Skip(), k);
      UnfoldCalls(pr, e, {}, k, c, q);
      UnfoldCalls(pr, e', pr.Skip(), k, c, r);
      OwnStep(pr, e, k, c, q, r);
      OneMore(pr, e, kept, k, Clean(c, Stream(q, own, false)), After(q, own, false), After(r, made, false));
    }
  }

  /** What else happens at the instruction, and the rest of the execution. */
  lemma {:induction false} OneMore<S(!new)>(pr: Program<S>, e: Execution<S>, kept: seq<seq<Call<S>>>, k: nat,
                                            c1: Cleaner<S>, q1: Producer<S>, r1: Producer<S>)
    requires pr.Valid() && Executes(pr, e) && Replaces(e, kept) && k < |e.path|
    requires Kept(c1, q1, Recent(pr, e, k + 1)) && r1.Valid() && SameRegions(q1, r1)
    requires Flat(q1, e.others[k] + Calls(pr, e, {}, k + 1))
    ensures EndAlike(c1, q1, e.others[k] + Calls(pr, e, {}, k + 1),
                     r1, kept[k] + Calls(pr, e.(others := kept), pr.Skip(), k + 1))
    decreases |e.path| - k, 0
  {
    var rest, rest' := Calls(pr, e, {}, k + 1), Calls(pr, e.(others := kept), pr.Skip(), k + 1);
    StreamConcat(q1, e.others[k], rest);
    var q2, r2 := OthersStep(pr, e, k, c1, q1, r1, kept[k]);
    SkipFrom(pr, e, kept, k + 1, Clean(c1, Stream(q1, e.others[k], false)), q2, r2);
    AlikeConcat(c1, q1, e.others[k], rest, r1, kept[k], rest');
  }

  lemma OthersStep<S(!new)>(pr: Program<S>, e: Execution<S>, k: nat, c: Cleaner<S>, q: Producer<S>, r: Producer<S>, kept: seq<Call<S>>)
    returns (q2: Producer<S>, r2: Producer<S>)
    requires |e.addr| == |e.path| == |e.others| && k < |e.path| && SameToPass(e.others[k], kept)
    requires Kept(c, q, Recent(pr, e, k + 1)) && r.Valid() && SameRegions(q, r)
    requires Closes(e.others[k]) && Flat(q, e.others[k])
    ensures q2 == After(q, e.others[k], false) && r2 == After(r, kept, false) && SameRegions(q2, r2)
    ensures Kept(Clean(c, Stream(q, e.others[k], false)), q2, Recent(pr, e, k + 1))
    ensures Clean(c, Stream(r, kept, false)) == Clean(c, Stream(q, e.others[k], false))
  {
    q2, r2 := After(q, e.others[k], false), After(r, kept, false);
    OthersKept(c, q, Recent(pr, e, k + 1), e.others[k]);
    assert EndAlike(c, q, e.others[k], q, kept);
    StreamSameRegions(q, r, kept);
  }

  /** Whatever path a function takes, not instrumenting the skipped loads and
      stores leaves every region's maps as instrumenting them would, provided
      regions are not nested; and its callees may skip for themselves. */
  lemma SkippingPreserves<S(!new)>(pr: Program<S>, e: Execution<S>, kept: seq<seq<Call<S>>>,
                                   c: Cleaner<S>, q: Producer<S>, r: Producer<S>)
    requires pr.Valid() && Executes(pr, e) && Replaces(e, kept)
    requires InStep(c, q) && r.Valid() && SameRegions(q, r)
    requires Flat(q, Calls(pr, e, {}, 0))
    ensures EndAlike(c, q, Calls(pr, e, {}, 0), r, Calls(pr, e.(others := kept), pr.Skip(), 0))
  {
    SkipFrom(pr, e, kept, 0, c, q, r);
  }
}
