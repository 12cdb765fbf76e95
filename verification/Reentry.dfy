/** Regions that are entered while they are open: the iteration that was running is
    cut short. What that does to the classes, for any stream at all. */
module Reentry {
  import opened Classes
  import opened Cleaning
  import C = Classification

  // ---- One entry ---------------------------------------------------------------------------

  /** Entering a region when its running iteration was ended first. */
  function EndedFirst<S(==)>(c: Cleaner<S>, s: S, parent: Option<S>): Cleaner<S> {
    StepOp(StepOp(c, EndRegion(s, parent)), BeginRegion(s))
  }

  /** Entering a region is harmless to its classes exactly when the running iteration
      has found nothing about addresses not known before; then it is harmless to
      everything. */
  lemma ReentryHarmlessIff<S>(c: Cleaner<S>, s: S, parent: Option<S>)
    ensures (forall a :: StepOp(c, BeginRegion(s)).ClassOf(s, a) == EndedFirst(c, s, parent).ClassOf(s, a))
       <==> c.Of(s).iterMap.Keys <= c.Of(s).ptrMap.Keys
    ensures c.Of(s).iterMap.Keys <= c.Of(s).ptrMap.Keys ==> StepOp(c, BeginRegion(s)) == EndedFirst(c, s, parent)
  {
    var m := c.Of(s);
    var cut, ended := StepOp(c, BeginRegion(s)), EndedFirst(c, s, parent);
    assert cut.Of(s).ptrMap == m.ptrMap && ended.Of(s).ptrMap == m.iterMap + m.ptrMap;
    if m.iterMap.Keys <= m.ptrMap.Keys {
      assert m.iterMap + m.ptrMap == m.ptrMap;
      assert cut.regions == ended.regions;
    } else {
      var a :| a in m.iterMap.Keys && a !in m.ptrMap.Keys;
      assert cut.ClassOf(s, a) != ended.ClassOf(s, a);
    }
  }

  // ---- Any stream -------------------------------------------------------------------------

  /** What is left of the iterations so far: none has been completed with a touch,
      and these are the touches of the one that is running; or one has, and these are
      the iterations from it on, the last of them running. */
  datatype Survivors = Waiting(run: C.Iteration) | Known(its: seq<C.Iteration>)

  function Advance(st: Survivors, e: C.Event): Survivors {
    match st
    case Waiting(run) =>
      (match e
       case Begin => Waiting([])
       case Touch(k) => Waiting(run + [k])
       case End => if run == [] then st else Known([run, []]))
    case Known(its) =>
      (match e
       case Begin => Known(its + [[]])
       case Touch(k) => if its == [] then st else Known(Extend(its, k))
       case End => st)
  }

  function Survive(st: Survivors, es: seq<C.Event>): Survivors
    decreases |es|
  {
    if es == [] then st else Survive(Advance(st, es[0]), es[1..])
  }

  /** The iterations that count, for any events. */
  function Surviving(es: seq<C.Event>): seq<C.Iteration> {
    var st := Survive(Waiting([]), es);
    if st.Waiting? then [] else st.its
  }

  /** The machine after an iteration that is still running. */
  function FirstRun(run: C.Iteration): C.Track {
    C.Run(C.FRESH, C.Touches(run))
  }

  ghost predicate Matches(t: C.Track, st: Survivors) {
    match st
    case Waiting(run) => t == FirstRun(run) && t.cls.None? && !t.upgraded && (t.iter.Some? <==> run != [])
    case Known(its) =>
      its != [] && t.cls.Some?
      && var r := C.Run(C.FRESH, SoFar(its, true));
         r.cls == t.cls && r.upgraded == t.upgraded
  }

  lemma RunOneMore(t: C.Track, es: seq<C.Event>, e: C.Event)
    ensures C.Run(t, es + [e]) == C.Step(C.Run(t, es), e)
  {
    C.RunConcat(t, es, [e]);
    C.RunStep(C.Run(t, es), e);
  }

  lemma WaitingTouch(t: C.Track, run: C.Iteration, k: C.Kind)
    requires Matches(t, Waiting(run))
    ensures Matches(C.Step(t, C.Touch(k)), Waiting(run + [k]))
  {
    assert C.Touches(run + [k]) == C.Touches(run) + [C.Touch(k)];
    RunOneMore(C.FRESH, C.Touches(run), C.Touch(k));
  }

  /** The first iteration that is completed with a touch. */
  lemma WaitingEnd(t: C.Track, run: C.Iteration)
    requires Matches(t, Waiting(run)) && run != []
    ensures Matches(C.Step(t, C.End), Known([run, []]))
  {
    var its: seq<C.Iteration> := [run, []];
    assert its[..1] == [run] && [run][1..] == [] && C.Touches([]) == [];
    assert C.Flatten([run]) == C.EventsOf(run) + [];
    assert SoFar(its, true) == ([C.Begin] + C.Touches(run) + [C.End]) + [C.Begin];
    RunOneMore(C.FRESH, C.EventsOf(run), C.Begin);
    RunOneMore(C.FRESH, [C.Begin] + C.Touches(run), C.End);
    C.RunConcat(C.FRESH, [C.Begin], C.Touches(run));
    C.RunStep(C.FRESH, C.Begin);
  }

  lemma KnownBegin(t: C.Track, its: seq<C.Iteration>)
    requires Matches(t, Known(its))
    ensures Matches(C.Step(t, C.Begin), Known(its + [[]]))
  {
    SoFarBegin(its);
    SoFarEnd(its);
    RunOneMore(C.FRESH, SoFar(its, false), C.Begin);
    RunOneMore(C.FRESH, SoFar(its, true), C.End);
  }

  lemma KnownTouch(t: C.Track, its: seq<C.Iteration>, k: C.Kind)
    requires Matches(t, Known(its))
    ensures Matches(C.Step(t, C.Touch(k)), Known(Extend(its, k)))
  {
    SoFarTouch(its, k);
    RunOneMore(C.FRESH, SoFar(its, true), C.Touch(k));
  }

  lemma AdvanceMatches(t: C.Track, st: Survivors, e: C.Event)
    requires Matches(t, st)
    ensures Matches(C.Step(t, e), Advance(st, e))
  {
    match st {
      case Waiting(run) =>
        match e {
          case Begin =>
          case Touch(k) => WaitingTouch(t, run, k);
          case End => if run != [] { WaitingEnd(t, run); }
        }
      case Known(its) =>
        match e {
          case Begin => KnownBegin(t, its);
          case Touch(k) => KnownTouch(t, its, k);
          case End =>
        }
    }
  }

  lemma {:induction false} SurviveMatches(t: C.Track, st: Survivors, es: seq<C.Event>)
    requires Matches(t, st)
    ensures Matches(C.Run(t, es), Survive(st, es))
    decreases |es|
  {
    if es == [] {
    } else {
      AdvanceMatches(t, st, es[0]);
      SurviveMatches(C.Step(t, es[0]), Advance(st, es[0]), es[1..]);
    }
  }

  /** For any events at all, the class is the closed form of the iterations that
      survive. */
  lemma SurvivingIsClass(es: seq<C.Event>)
    ensures C.Run(C.FRESH, es).cls == C.ClosedForm(Surviving(es))
  {
    assert C.Touches([]) == [];
    SurviveMatches(C.FRESH, Waiting([]), es);
    var its := Surviving(es);
    C.ClassIsClosedForm(its);
    if its != [] {
      SoFarEnd(its);
      RunOneMore(C.FRESH, SoFar(its, true), C.End);
    }
  }

  /** After any stream, re-entered regions and all, the class a region keeps is the
      closed form of the iterations that survive. */
  lemma ClassOfAnyStream<S>(ops: seq<Op<S>>, s: S, a: Addr)
    ensures Clean(Initial(), ops).ClassOf(s, a) == C.ClosedForm(Surviving(Events(ops, None, s, a)))
  {
    CleanProjects(Initial(), ops, s, a);
    SurvivingIsClass(Events(ops, None, s, a));
  }

  // ---- Which iterations those are ------------------------------------------------------

  /** An iteration, and whether it was ended. */
  datatype Marked = Marked(touches: C.Iteration, ended: bool)

  function Front<T>(s: seq<T>): seq<T>
    requires s != []
  {
    s[..|s| - 1]
  }

  function Last<T>(s: seq<T>): T
    requires s != []
  {
    s[|s| - 1]
  }

  function MarkOne(its: seq<Marked>, e: C.Event): seq<Marked> {
    match e
    case Begin => its + [Marked([], false)]
    case End => if its == [] then its else Front(its) + [Last(its).(ended := true)]
    case Touch(k) => if its == [] then its else Front(its) + [Last(its).(touches := Last(its).touches + [k])]
  }

  /** The history with its cut iterations marked. */
  function Mark(its: seq<Marked>, es: seq<C.Event>): seq<Marked>
    decreases |es|
  {
    if es == [] then its else Mark(MarkOne(its, es[0]), es[1..])
  }

  function TouchesOf(its: seq<Marked>): (r: seq<C.Iteration>)
    ensures |r| == |its|
    ensures forall i :: 0 <= i < |its| ==> r[i] == its[i].touches
  {
    seq(|its|, i requires 0 <= i < |its| => its[i].touches)
  }

  /** The first iteration that was ended and had touched the address, or their number. */
  function FirstCompleted(its: seq<Marked>): (n: nat)
    ensures n <= |its|
    ensures n < |its| ==> its[n].ended && its[n].touches != []
    ensures forall i :: 0 <= i < n ==> !(its[i].ended && its[i].touches != [])
  {
    if its == [] || (its[0].ended && its[0].touches != []) then 0 else 1 + FirstCompleted(its[1..])
  }

  /** The history without the iterations before that. */
  function Uncut(its: seq<Marked>): seq<C.Iteration> {
    TouchesOf(its[FirstCompleted(its)..])
  }

  /** The address is touched only while an iteration is running. */
  predicate Inside(es: seq<C.Event>, open: bool)
    decreases |es|
  {
    if es == [] then true
    else match es[0]
      case Begin => Inside(es[1..], true)
      case End => Inside(es[1..], false)
      case Touch(_) => open && Inside(es[1..], true)
  }

  lemma FirstIs(its: seq<Marked>, n: nat)
    requires n <= |its| && (n < |its| ==> its[n].ended && its[n].touches != [])
    requires forall i :: 0 <= i < n ==> !(its[i].ended && its[i].touches != [])
    ensures FirstCompleted(its) == n
  {
  }

  /** The marked history and the survivors, step by step. Iterations that do not touch
      the address make no difference. */
  ghost predicate Agree(its: seq<Marked>, open: bool, st: Survivors) {
    && (open ==> its != []) && (its != [] ==> Last(its).ended == !open)
    && match st
       case Waiting(run) => FirstCompleted(its) == |its| && (if its == [] then run == [] else run == Last(its).touches)
       case Known(rest) =>
         && FirstCompleted(its) < |its| && rest != []
         && C.Touched(rest) == C.Touched(Uncut(its))
         && (open ==> Last(rest) == Last(its).touches && C.Touched(Front(rest)) == C.Touched(Front(Uncut(its))))
  }

  lemma TouchedSnoc(its: seq<C.Iteration>, it: C.Iteration)
    ensures C.Touched(its + [it]) == C.Touched(its) + if it == [] then [] else [it]
  {
    C.TouchedConcat(its, [it]);
    assert [it][1..] == [];
  }

  lemma SplitLast<T>(s: seq<T>)
    requires s != []
    ensures s == Front(s) + [Last(s)]
  {
  }

  lemma MarkBegin(its: seq<Marked>, open: bool, st: Survivors)
    requires Agree(its, open, st)
    ensures Agree(MarkOne(its, C.Begin), true, Advance(st, C.Begin))
  {
    var more := MarkOne(its, C.Begin);
    FirstIs(more, if st.Waiting? then |more| else FirstCompleted(its));
    if st.Known? {
      assert Uncut(more) == Uncut(its) + [[]];
      assert Front(st.its + [[]]) == st.its && Front(Uncut(more)) == Uncut(its);
      TouchedSnoc(st.its, []);
      TouchedSnoc(Uncut(its), []);
    }
  }

  lemma MarkEnd(its: seq<Marked>, open: bool, st: Survivors)
    requires Agree(its, open, st)
    ensures Agree(MarkOne(its, C.End), false, Advance(st, C.End))
  {
    var more := MarkOne(its, C.End);
    if its != [] {
      if st.Known? {
        FirstIs(more, FirstCompleted(its));
        assert Uncut(more) == Uncut(its);
      } else if st.run == [] {
        FirstIs(more, |more|);
      } else {
        FirstIs(more, |more| - 1);
        assert Uncut(more) == [st.run];
        TouchedSnoc([st.run], []);
        assert [st.run] + [[]] == [st.run, []];
      }
    }
  }

  lemma MarkTouch(its: seq<Marked>, st: Survivors, k: C.Kind)
    requires Agree(its, true, st)
    ensures Agree(MarkOne(its, C.Touch(k)), true, Advance(st, C.Touch(k)))
  {
    var more := MarkOne(its, C.Touch(k));
    if st.Waiting? {
      FirstIs(more, |more|);
    } else {
      FirstIs(more, FirstCompleted(its));
      var rest := Extend(st.its, k);
      assert Front(Uncut(more)) == Front(Uncut(its)) && Last(Uncut(more)) == Last(its).touches + [k] == Last(rest);
      assert Front(rest) == Front(st.its);
      SplitLast(rest);
      SplitLast(Uncut(more));
      TouchedSnoc(Front(rest), Last(rest));
      TouchedSnoc(Front(Uncut(more)), Last(rest));
    }
  }

  lemma {:induction false} MarkAgrees(its: seq<Marked>, open: bool, st: Survivors, es: seq<C.Event>) returns (o: bool)
    requires Agree(its, open, st) && Inside(es, open)
    ensures Agree(Mark(its, es), o, Survive(st, es))
    decreases |es|
  {
    if es == [] {
      o := open;
    } else {
      match es[0] {
        case Begin => MarkBegin(its, open, st);
        case End => MarkEnd(its, open, st);
        case Touch(k) => MarkTouch(its, st, k);
      }
      o := MarkAgrees(MarkOne(its, es[0]), !es[0].End?, Advance(st, es[0]), es[1..]);
    }
  }

  /** The survivors are the history without the cut iterations that come before the
      first completed one that touched the address. */
  lemma SurvivorsAreUncut(es: seq<C.Event>)
    requires Inside(es, false)
    ensures C.ClosedForm(Surviving(es)) == C.ClosedForm(Uncut(Mark([], es)))
  {
    var o := MarkAgrees([], false, Waiting([]), es);
  }

  /** Region `s` is accessed only between its begin and its next end or begin. */
  predicate AccessedInside<S(==)>(ops: seq<Op<S>>, current: Option<S>, s: S, open: bool)
    decreases |ops|
  {
    if ops == [] then true
    else
      var op := ops[0];
      && (op.Access? && current == Some(s) ==> open)
      && AccessedInside(ops[1..], NextCurrent(current, op), s,
                        if op.BeginRegion? && op.region == s then true
                        else if op.EndRegion? && op.region == s then false
                        else open)
  }

  lemma InsideCons(e: C.Event, es: seq<C.Event>, open: bool)
    ensures Inside([e] + es, open)
       <==> match e
            case Begin => Inside(es, true)
            case End => Inside(es, false)
            case Touch(_) => open && Inside(es, true)
  {
    assert ([e] + es)[1..] == es;
  }

  lemma {:induction false} AccessedIsInside<S>(ops: seq<Op<S>>, current: Option<S>, s: S, a: Addr, open: bool)
    requires AccessedInside(ops, current, s, open)
    ensures Inside(Events(ops, current, s, a), open)
    decreases |ops|
  {
    if ops == [] {
    } else {
      var op := ops[0];
      var e := EventOf(op, current, s, a);
      var rest := Events(ops[1..], NextCurrent(current, op), s, a);
      AccessedIsInside(ops[1..], NextCurrent(current, op), s, a,
                       if op.BeginRegion? && op.region == s then true
                       else if op.EndRegion? && op.region == s then false
                       else open);
      if e == [] {
        assert e + rest == rest;
      } else {
        assert e == [e[0]];
        InsideCons(e[0], rest, open);
      }
    }
  }

  /** When a region is entered while open, the class is the closed form of the history
      without the iterations that were cut before the first completed one that touched
      the address; later cuts lose nothing. */
  lemma ClassOfReenteredStream<S>(ops: seq<Op<S>>, s: S, a: Addr)
    requires AccessedInside(ops, None, s, false)
    ensures Clean(Initial(), ops).ClassOf(s, a) == C.ClosedForm(Uncut(Mark([], Events(ops, None, s, a))))
  {
    ClassOfAnyStream(ops, s, a);
    AccessedIsInside(ops, None, s, a, false);
    SurvivorsAreUncut(Events(ops, None, s, a));
  }

  /** ... so it is that of the whole history if the first iteration that touched the
      address was not cut. */
  lemma NothingCut(its: seq<Marked>)
    requires forall i :: 0 <= i < FirstCompleted(its) ==> its[i].touches == []
    ensures C.Touched(Uncut(its)) == C.Touched(TouchesOf(its))
  {
    var n := FirstCompleted(its);
    assert TouchesOf(its) == TouchesOf(its[..n]) + Uncut(its);
    C.TouchedConcat(TouchesOf(its[..n]), Uncut(its));
    NoneTouched(TouchesOf(its[..n]));
  }

  lemma {:induction false} NoneTouched(its: seq<C.Iteration>)
    requires forall i :: 0 <= i < |its| ==> its[i] == []
    ensures C.Touched(its) == []
  {
    if its == [] {
    } else {
      NoneTouched(its[1..]);
    }
  }
}
