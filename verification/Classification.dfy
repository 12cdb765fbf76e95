/** The classification of one address in one region, as a machine over the
    events of that pair: the region's iterations beginning and ending, and the
    region touching the address. */
module Classification {
  import opened Classes

  datatype Kind = Read | Write

  datatype Event = Begin | End | Touch(kind: Kind)

  /** What the three maps of a region hold about one address: its entry in
      `statePtrMap`, its entry in `statePtrIterMap`, and whether it is in
      `currentPtrIterUpgrades`. */
  datatype Track = Track(cls: Option<Class>, iter: Option<Class>, upgraded: bool)

  const FRESH := Track(None, None, false)

  /** A touch of an address that an earlier iteration already classified. */
  function TouchKnown(cls: Class, upgraded: bool, kind: Kind): (Class, bool) {
    match cls
    case Input => if kind == Write then (IO, true) else (Input, upgraded)
    case IO => if upgraded then (IO, true) else (if kind == Read then TIO else CIO, true)
    case CIO => if kind == Read && !upgraded then (TIO, true) else (CIO, true)
    case TIO => (TIO, true)
    case Output => if upgraded then (Output, true) else (if kind == Read then TO else CO, true)
    case CO => if kind == Read && !upgraded then (TO, true) else (CO, true)
    case TO => (TO, true)
  }

  /** A touch of an address whose first iteration is still running. */
  function TouchFirst(iter: Option<Class>, kind: Kind): Option<Class> {
    match iter
    case None => Some(if kind == Write then Output else Input)
    case Some(c) => if c == Input && kind == Write then Some(IO) else iter
  }

  function Step(t: Track, e: Event): Track {
    match e
    case Begin => Track(t.cls, None, false)
    case End => Track(if t.cls.None? then t.iter else t.cls, t.iter, t.upgraded)
    case Touch(kind) =>
      if t.cls.Some? then
        var (c, u) := TouchKnown(t.cls.value, t.upgraded, kind);
        Track(Some(c), t.iter, u)
      else
        Track(None, TouchFirst(t.iter, kind), t.upgraded)
  }

  function Run(t: Track, es: seq<Event>): Track
    decreases |es|
  {
    if es == [] then t else Run(Step(t, es[0]), es[1..])
  }

  lemma {:induction false} RunConcat(t: Track, es: seq<Event>, fs: seq<Event>)
    ensures Run(t, es + fs) == Run(Run(t, es), fs)
    decreases |es|
  {
    if es == [] {
      assert es + fs == fs;
    } else {
      assert (es + fs)[1..] == es[1..] + fs;
      RunConcat(Step(t, es[0]), es[1..], fs);
    }
  }

  // ---- Histories made of whole iterations ------------------------------------

  /** The touches of one iteration, in order. */
  type Iteration = seq<Kind>

  function Touches(it: Iteration): (es: seq<Event>)
    ensures |es| == |it|
  {
    seq(|it|, i requires 0 <= i < |it| => Touch(it[i]))
  }

  function EventsOf(it: Iteration): seq<Event> {
    [Begin] + Touches(it) + [End]
  }

  function Flatten(its: seq<Iteration>): seq<Event> {
    if its == [] then [] else EventsOf(its[0]) + Flatten(its[1..])
  }

  function Touched(its: seq<Iteration>): (r: seq<Iteration>)
    ensures forall i :: 0 <= i < |r| ==> r[i] != []
  {
    if its == [] then [] else if its[0] == [] then Touched(its[1..]) else [its[0]] + Touched(its[1..])
  }

  /** The iteration needs the value the address had when it began. */
  predicate ReadsFirst(it: Iteration) {
    it != [] && it[0] == Read
  }

  predicate Writes(it: Iteration) {
    Write in it
  }

  /** The first iteration that writes the address, or their number. */
  function FirstWriting(its: seq<Iteration>): (n: nat)
    ensures n <= |its|
    ensures n < |its| ==> Writes(its[n])
    ensures forall i :: 0 <= i < n ==> !Writes(its[i])
  {
    if its == [] || Writes(its[0]) then 0 else 1 + FirstWriting(its[1..])
  }

  /** How far the writes of the address have gone: no iteration writes it (0);
      one does and none touches it later (1); every later one overwrites it
      before reading it, so each could have a copy of its own (2); some later one
      reads what an earlier one left, so the value is transferred (3). */
  function WriteLevel(its: seq<Iteration>): nat {
    var n := FirstWriting(its);
    if n == |its| then 0
    else if n + 1 == |its| then 1
    else if exists i :: n < i < |its| && ReadsFirst(its[i]) then 3
    else 2
  }

  /** The class of an address with the given history, read off the history alone. */
  function ClosedForm(its: seq<Iteration>): Option<Class> {
    var touched := Touched(its);
    if touched == [] then None
    else OfHalves(ReadsFirst(touched[0]), WriteLevel(touched))
  }

  // ---- The machine computes the closed form ----------------------------------

  /** The level of a history that continues one of level `level`. */
  function LevelFrom(level: nat, its: seq<Iteration>): nat
    requires level <= 3
  {
    if level == 0 then WriteLevel(its)
    else if its == [] || level == 3 then level
    else if exists i :: 0 <= i < |its| && ReadsFirst(its[i]) then 3
    else 2
  }

  lemma LevelFromStep(level: nat, its: seq<Iteration>)
    requires level <= 3 && its != [] && its[0] != []
    ensures LevelFrom(level, its) == LevelFrom(LevelFrom(level, its[..1]), its[1..])
  {
    var rest := its[1..];
    assert its[..1] == [its[0]] && forall i :: 0 <= i < |rest| ==> rest[i] == its[i + 1];
    if level == 0 && Writes(its[0]) {
      assert FirstWriting(its) == 0 && FirstWriting(its[..1]) == 0;
      if exists i :: 0 < i < |its| && ReadsFirst(its[i]) {
        var i :| 0 < i < |its| && ReadsFirst(its[i]);
        assert ReadsFirst(rest[i - 1]);
      }
    } else if level == 0 {
      assert FirstWriting(its) == 1 + FirstWriting(rest) && FirstWriting(its[..1]) == 1;
      var n := FirstWriting(rest);
      if exists i :: n + 1 < i < |its| && ReadsFirst(its[i]) {
        var i :| n + 1 < i < |its| && ReadsFirst(its[i]);
        assert ReadsFirst(rest[i - 1]);
      }
    } else if exists i :: 0 <= i < |its| && ReadsFirst(its[i]) {
      var i :| 0 <= i < |its| && ReadsFirst(its[i]);
      if i > 0 {
        assert ReadsFirst(rest[i - 1]);
      } else {
        assert ReadsFirst(its[..1][0]);
      }
    }
  }

  /** Touches of one iteration from the point where the iteration can no longer
      change the class. */
  lemma {:induction false} RestOfIterationIsIdle(t: Track, it: Iteration)
    requires t.cls.Some? && t.upgraded && t.cls != Some(Input)
    ensures Run(t, Touches(it)) == t
  {
    if it == [] {
    } else {
      assert Touches(it)[1..] == Touches(it[1..]);
      RestOfIterationIsIdle(t, it[1..]);
    }
  }

  /** An iteration of an address that reads only, so far. */
  lemma {:induction false} KnownInput(upgraded: bool, iter: Option<Class>, it: Iteration)
    ensures Run(Track(Some(Input), iter, upgraded), Touches(it)).cls == Some(if Writes(it) then IO else Input)
  {
    if it == [] {
    } else {
      assert Touches(it)[1..] == Touches(it[1..]);
      if it[0] == Write {
        RestOfIterationIsIdle(Track(Some(IO), iter, true), it[1..]);
      } else {
        KnownInput(upgraded, iter, it[1..]);
        assert Writes(it) == Writes(it[1..]);
      }
    }
  }

  /** A later iteration moves a classified address as the levels say and keeps
      its input half. */
  lemma KnownIteration(c: Class, iter: Option<Class>, it: Iteration)
    requires it != []
    ensures Run(Track(Some(c), iter, false), Touches(it)).cls
         == OfHalves(HasInput(Some(c)), LevelFrom(Level(Some(c)), [it]))
  {
    var r := Run(Track(Some(c), iter, false), Touches(it)).cls;
    if c == Input {
      KnownInput(false, iter, it);
      assert FirstWriting([it]) == if Writes(it) then 0 else 1;
    } else {
      var t := Step(Track(Some(c), iter, false), Touch(it[0]));
      assert Touches(it)[1..] == Touches(it[1..]);
      RestOfIterationIsIdle(t, it[1..]);
      assert r == t.cls;
      if ReadsFirst(it) {
        assert ReadsFirst([it][0]);
      }
    }
    HalvesDetermine(r, OfHalves(HasInput(Some(c)), LevelFrom(Level(Some(c)), [it])));
  }

  lemma {:induction false} FirstIterationRest(iter: Class, upgraded: bool, it: Iteration)
    requires iter in {Input, IO, Output}
    ensures Run(Track(None, Some(iter), upgraded), Touches(it))
         == Track(None, Some(if iter == Input && Writes(it) then IO else iter), upgraded)
    decreases |it|
  {
    if it == [] {
    } else {
      assert Touches(it)[1..] == Touches(it[1..]);
      FirstIterationRest(TouchFirst(Some(iter), it[0]).value, upgraded, it[1..]);
      assert Writes(it) == (it[0] == Write || Writes(it[1..]));
    }
  }

  /** One whole iteration, from any state between iterations. */
  lemma IterationStep(t: Track, it: Iteration)
    ensures Run(t, EventsOf(it)).cls ==
            if it == [] then t.cls
            else if t.cls.Some? then OfHalves(HasInput(t.cls), LevelFrom(Level(t.cls), [it]))
            else OfHalves(ReadsFirst(it), WriteLevel([it]))
  {
    var t0 := Step(t, Begin);
    var t1 := Run(t0, Touches(it));
    RunConcat(t, [Begin], Touches(it));
    RunConcat(t, [Begin] + Touches(it), [End]);
    assert Run(t, [Begin]) == t0;
    assert Run(t1, [End]) == Step(t1, End);
    assert Run(t, EventsOf(it)) == Step(t1, End);
    if it == [] {
    } else if t.cls.Some? {
      KnownIteration(t.cls.value, None, it);
    } else {
      assert Touches(it)[1..] == Touches(it[1..]);
      var c := if it[0] == Write then Output else Input;
      FirstIterationRest(c, false, it[1..]);
      assert Writes(it) == (it[0] == Write || Writes(it[1..]));
      assert FirstWriting([it]) == if Writes(it) then 0 else 1;
      HalvesDetermine(Step(t1, End).cls, OfHalves(ReadsFirst(it), WriteLevel([it])));
    }
  }

  /** From any state between iterations, any number of further iterations. */
  lemma {:induction false} IterationsFrom(t: Track, its: seq<Iteration>)
    ensures t.cls.Some? ==> Run(t, Flatten(its)).cls == OfHalves(HasInput(t.cls), LevelFrom(Level(t.cls), Touched(its)))
    ensures t.cls.None? ==> Run(t, Flatten(its)).cls == ClosedForm(its)
    decreases |its|
  {
    if its == [] {
      if t.cls.Some? {
        HalvesDetermine(t.cls, OfHalves(HasInput(t.cls), LevelFrom(Level(t.cls), Touched(its))));
      }
    } else {
      var t' := Run(t, EventsOf(its[0]));
      RunConcat(t, EventsOf(its[0]), Flatten(its[1..]));
      IterationStep(t, its[0]);
      IterationsFrom(t', its[1..]);
      if its[0] != [] {
        var touched := Touched(its);
        assert touched[1..] == Touched(its[1..]) && touched[..1] == [its[0]];
        LevelFromStep(if t.cls.Some? then Level(t.cls) else 0, touched);
      }
    }
  }

  /** The class kept for an address is the closed form of its history. */
  lemma ClassIsClosedForm(its: seq<Iteration>)
    ensures Run(FRESH, Flatten(its)).cls == ClosedForm(its)
  {
    IterationsFrom(FRESH, its);
  }

  // ---- Classes only rise, once an iteration -----------------------------------

  lemma {:induction false} ClassesRise(t: Track, es: seq<Event>)
    ensures Leq(t.cls, Run(t, es).cls)
    decreases |es|
  {
    if es == [] {
    } else {
      ClassesRise(Step(t, es[0]), es[1..]);
    }
  }

  /** After some touches of an iteration, either nothing has happened to the
      class or nothing more can. */
  lemma {:induction false} UnchangedOrIdle(t: Track, it: Iteration)
    requires t.cls.Some?
    ensures var u := Run(t, Touches(it)); u.cls == t.cls || (u.cls.Some? && u.upgraded && u.cls != Some(Input))
    decreases |it|
  {
    if it == [] {
    } else {
      assert Touches(it)[1..] == Touches(it[1..]);
      var t' := Step(t, Touch(it[0]));
      if t'.cls == t.cls {
        UnchangedOrIdle(t', it[1..]);
      } else {
        RestOfIterationIsIdle(t', it[1..]);
      }
    }
  }

  /** The class after the first `i` touches of an iteration. */
  function ClassDuring(t: Track, it: Iteration, i: nat): Option<Class>
    requires i <= |it|
  {
    Run(Step(t, Begin), Touches(it[..i])).cls
  }

  lemma {:induction false} FirstIterationKeepsNone(t: Track, it: Iteration)
    requires t.cls.None?
    ensures Run(t, Touches(it)).cls.None?
    decreases |it|
  {
    if it == [] {
    } else {
      assert Touches(it)[1..] == Touches(it[1..]);
      FirstIterationKeepsNone(Step(t, Touch(it[0])), it[1..]);
    }
  }

  /** Within one iteration a class changes at most once: from the first point
      where it differs it stays, and a new address is classified only by `End`. */
  lemma OneChangeAnIteration(t: Track, it: Iteration, i: nat, j: nat)
    requires i <= j <= |it|
    ensures ClassDuring(t, it, i) != t.cls ==> ClassDuring(t, it, j) == ClassDuring(t, it, i)
    ensures ClassDuring(t, it, i) != t.cls ==> Run(t, EventsOf(it)).cls == ClassDuring(t, it, i)
  {
    var t0 := Step(t, Begin);
    if t.cls.None? {
      FirstIterationKeepsNone(t0, it[..i]);
    } else {
      UnchangedOrIdle(t0, it[..i]);
      var u := Run(t0, Touches(it[..i]));
      if u.cls != t.cls {
        assert Touches(it[..j]) == Touches(it[..i]) + Touches(it[i..j]);
        RunConcat(t0, Touches(it[..i]), Touches(it[i..j]));
        RestOfIterationIsIdle(u, it[i..j]);
        assert Touches(it) == Touches(it[..i]) + Touches(it[i..]);
        RunConcat(t0, Touches(it[..i]), Touches(it[i..]));
        RestOfIterationIsIdle(u, it[i..]);
        RunConcat(t, [Begin], Touches(it));
        RunConcat(t, [Begin] + Touches(it), [End]);
        assert Run(u, [End]) == Step(u, End);
      }
    }
  }

  // ---- Batches and the labels they give ---------------------------------------

  function Concat(bs: seq<seq<Event>>): seq<Event> {
    if bs == [] then [] else bs[0] + Concat(bs[1..])
  }

  predicate HasTouch(es: seq<Event>) {
    exists i :: 0 <= i < |es| && es[i].Touch?
  }

  /** A batch labels every touch in it with the class the address has at the end
      of the batch. The join of the labels given over a run of batches. */
  function JoinOfLabels(t: Track, bs: seq<seq<Event>>): Option<Class>
    decreases |bs|
  {
    if bs == [] then None
    else
      var t' := Run(t, bs[0]);
      Join(if HasTouch(bs[0]) then t'.cls else None, JoinOfLabels(t', bs[1..]))
  }

  /** How many batches there are up to the last one that touches the address. */
  function UpToLastTouch(bs: seq<seq<Event>>): (n: nat)
    ensures n <= |bs|
    ensures n > 0 ==> HasTouch(bs[n - 1])
    ensures forall i :: n <= i < |bs| ==> !HasTouch(bs[i])
  {
    if bs == [] then 0
    else
      var m := UpToLastTouch(bs[1..]);
      if m > 0 then m + 1 else if HasTouch(bs[0]) then 1 else 0
  }

  lemma {:induction false} NoTouchKeepsClass(t: Track, es: seq<Event>)
    requires !HasTouch(es)
    ensures t.cls.Some? ==> Run(t, es).cls == t.cls
    ensures t.cls.None? && t.iter.None? ==> Run(t, es).cls.None? && Run(t, es).iter.None?
    decreases |es|
  {
    if es == [] {
    } else {
      assert !es[0].Touch?;
      forall i | 0 <= i < |es[1..]| ensures !es[1..][i].Touch? {
        assert es[1..][i] == es[i + 1];
      }
      NoTouchKeepsClass(Step(t, es[0]), es[1..]);
    }
  }

  lemma {:induction false} ConcatNoTouch(bs: seq<seq<Event>>)
    requires forall i :: 0 <= i < |bs| ==> !HasTouch(bs[i])
    ensures !HasTouch(Concat(bs))
  {
    if bs == [] {
    } else {
      ConcatNoTouch(bs[1..]);
      assert !HasTouch(bs[0]);
      var rest := Concat(bs[1..]);
      forall i | 0 <= i < |bs[0] + rest| ensures !(bs[0] + rest)[i].Touch? {
        if i < |bs[0]| {
          assert (bs[0] + rest)[i] == bs[0][i];
        } else {
          assert (bs[0] + rest)[i] == rest[i - |bs[0]|];
        }
      }
    }
  }

  lemma {:induction false} LabelsJoinFrom(t: Track, bs: seq<seq<Event>>)
    ensures var n := UpToLastTouch(bs);
            var known := Run(t, Concat(bs[..n])).cls;
            && (n > 0 && known.Some? ==> JoinOfLabels(t, bs) == Run(t, Concat(bs)).cls)
            && (n == 0 || known.None? ==> JoinOfLabels(t, bs) == None)
    decreases |bs|
  {
    var n := UpToLastTouch(bs);
    if bs == [] {
    } else {
      var t' := Run(t, bs[0]);
      var m := UpToLastTouch(bs[1..]);
      RunConcat(t, bs[0], Concat(bs[1..]));
      LabelsJoinFrom(t', bs[1..]);
      if m > 0 {
        assert bs[..n][1..] == bs[1..][..m] && bs[..n][0] == bs[0];
        RunConcat(t, bs[0], Concat(bs[1..][..m]));
        ClassesRise(t', Concat(bs[1..]));
        ClassesRise(t', Concat(bs[1..][..m]));
        if JoinOfLabels(t', bs[1..]).Some? {
          HalvesDetermine(JoinOfLabels(t, bs), Run(t, Concat(bs)).cls);
        } else {
          HalvesDetermine(JoinOfLabels(t, bs), None);
        }
      } else if n > 0 {
        assert bs[..1] == [bs[0]] && Concat(bs[..1]) == bs[0] + [];
        assert bs[0] + [] == bs[0];
        ConcatNoTouch(bs[1..]);
        NoTouchKeepsClass(t', Concat(bs[1..]));
        HalvesDetermine(JoinOfLabels(t, bs), t'.cls);
      }
    }
  }

  // ---- When a class is known -----------------------------------------------------------

  /** Event `i` touches the address, and no iteration begins from there to `j`. */
  predicate TouchedSince(es: seq<Event>, i: nat, j: nat)
    requires j <= |es|
  {
    i < j && es[i].Touch? && forall k :: i < k < j ==> !es[k].Begin?
  }

  /** The address was touched since an iteration last began. */
  predicate TouchRunning(es: seq<Event>) {
    exists i :: 0 <= i < |es| && TouchedSince(es, i, |es|)
  }

  /** An iteration that touched the address ended. */
  predicate TouchCompleted(es: seq<Event>) {
    exists i, j :: 0 <= i < j < |es| && TouchedSince(es, i, j) && es[j].End?
  }

  lemma TouchedPrefix(es: seq<Event>, n: nat, i: nat, j: nat)
    requires j <= n <= |es|
    ensures TouchedSince(es[..n], i, j) <==> TouchedSince(es, i, j)
  {
  }

  lemma RunningStep(es: seq<Event>)
    requires es != []
    ensures var n := |es| - 1;
            TouchRunning(es) <==> es[n].Touch? || (TouchRunning(es[..n]) && !es[n].Begin?)
  {
    var n := |es| - 1;
    if TouchRunning(es) {
      var i :| 0 <= i < |es| && TouchedSince(es, i, |es|);
      if i < n {
        assert TouchedSince(es[..n], i, n);
      }
    }
    if es[n].Touch? {
      assert TouchedSince(es, n, |es|);
    } else if TouchRunning(es[..n]) && !es[n].Begin? {
      var i :| 0 <= i < n && TouchedSince(es[..n], i, n);
      assert TouchedSince(es, i, |es|);
    }
  }

  lemma CompletedStep(es: seq<Event>)
    requires es != []
    ensures var n := |es| - 1;
            TouchCompleted(es) <==> TouchCompleted(es[..n]) || (TouchRunning(es[..n]) && es[n].End?)
  {
    var n := |es| - 1;
    if TouchCompleted(es) {
      var i, j :| 0 <= i < j < |es| && TouchedSince(es, i, j) && es[j].End?;
      TouchedPrefix(es, n, i, j);
    }
    if TouchCompleted(es[..n]) {
      var i, j :| 0 <= i < j < n && TouchedSince(es[..n], i, j) && es[..n][j].End?;
      TouchedPrefix(es, n, i, j);
      assert es[j].End?;
    }
    if TouchRunning(es[..n]) && es[n].End? {
      var i :| 0 <= i < n && TouchedSince(es[..n], i, n);
      TouchedPrefix(es, n, i, n);
    }
  }

  /** Over any events at all, an address is classified exactly when an iteration
      that touched it has ended. */
  lemma {:induction false} KnownIffCompleted(es: seq<Event>)
    ensures Run(FRESH, es).cls.Some? <==> TouchCompleted(es)
    ensures Run(FRESH, es).cls.None? ==> (Run(FRESH, es).iter.Some? <==> TouchRunning(es))
    decreases |es|
  {
    if es == [] {
    } else {
      var n := |es| - 1;
      KnownIffCompleted(es[..n]);
      CompletedStep(es);
      RunningStep(es);
      assert es == es[..n] + [es[n]];
      RunConcat(FRESH, es[..n], [es[n]]);
      RunStep(Run(FRESH, es[..n]), es[n]);
    }
  }

  lemma RunStep(t: Track, e: Event)
    ensures Run(t, [e]) == Step(t, e)
  {
    assert [e][1..] == [];
  }

  /** However a history is cut into batches, the labels given to an address's
      touches join to its final class exactly when an iteration that touched it has
      ended by the end of the last batch that touches it, or none ever does. */
  lemma LabelsJoinToClass(bs: seq<seq<Event>>)
    ensures JoinOfLabels(FRESH, bs) == Run(FRESH, Concat(bs)).cls <==>
            TouchCompleted(Concat(bs[..UpToLastTouch(bs)])) || !TouchCompleted(Concat(bs))
    ensures UpToLastTouch(bs) == 0 ==> Run(FRESH, Concat(bs)).cls.None?
  {
    var n := UpToLastTouch(bs);
    LabelsJoinFrom(FRESH, bs);
    KnownIffCompleted(Concat(bs[..n]));
    KnownIffCompleted(Concat(bs));
    if n == 0 {
      ConcatNoTouch(bs);
      NoTouchKeepsClass(FRESH, Concat(bs));
    }
  }

  /** A history cut into batches between iterations. */
  function Batches(hist: seq<seq<Iteration>>): (bs: seq<seq<Event>>)
    ensures |bs| == |hist|
  {
    if hist == [] then [] else [Flatten(hist[0])] + Batches(hist[1..])
  }

  /** Cutting only between iterations meets that condition: every touch is
      labelled, and the labels join to the closed form of the whole history. */
  lemma CutsBetweenIterations(hist: seq<seq<Iteration>>)
    ensures JoinOfLabels(FRESH, Batches(hist)) == Run(FRESH, Concat(Batches(hist))).cls == ClosedForm(ConcatIterations(hist))
  {
    var bs := Batches(hist);
    var n := UpToLastTouch(bs);
    ConcatFlatten(hist);
    ClassIsClosedForm(ConcatIterations(hist));
    LabelsJoinToClass(bs);
    if n > 0 {
      BatchesTake(hist, n);
      ConcatFlatten(hist[..n]);
      ClassIsClosedForm(ConcatIterations(hist[..n]));
      LastTouched(hist[..n]);
      KnownIffCompleted(Concat(bs[..n]));
    } else {
      KnownIffCompleted(Concat(bs));
    }
  }

  lemma {:induction false} BatchesTake(hist: seq<seq<Iteration>>, n: nat)
    requires n <= |hist|
    ensures Batches(hist[..n]) == Batches(hist)[..n]
    ensures n > 0 ==> Batches(hist)[n - 1] == Flatten(hist[n - 1])
    decreases n
  {
    if n == 0 {
    } else {
      assert hist[..n][1..] == hist[1..][..n - 1];
      BatchesTake(hist[1..], n - 1);
    }
  }

  function ConcatIterations(hist: seq<seq<Iteration>>): seq<Iteration> {
    if hist == [] then [] else hist[0] + ConcatIterations(hist[1..])
  }

  lemma {:induction false} FlattenConcat(its: seq<Iteration>, more: seq<Iteration>)
    ensures Flatten(its + more) == Flatten(its) + Flatten(more)
    decreases |its|
  {
    if its == [] {
      assert its + more == more;
    } else {
      assert (its + more)[1..] == its[1..] + more;
      FlattenConcat(its[1..], more);
    }
  }

  lemma {:induction false} ConcatFlatten(hist: seq<seq<Iteration>>)
    ensures Concat(Batches(hist)) == Flatten(ConcatIterations(hist))
    decreases |hist|
  {
    if hist == [] {
    } else {
      ConcatFlatten(hist[1..]);
      FlattenConcat(hist[0], ConcatIterations(hist[1..]));
    }
  }

  lemma {:induction false} TouchedSome(its: seq<Iteration>)
    ensures HasTouch(Flatten(its)) ==> Touched(its) != []
    decreases |its|
  {
    if its != [] && its[0] == [] && HasTouch(Flatten(its)) {
      assert Flatten(its) == [Begin, End] + Flatten(its[1..]);
      var i :| 0 <= i < |Flatten(its)| && Flatten(its)[i].Touch?;
      assert Flatten(its[1..])[i - 2].Touch?;
      TouchedSome(its[1..]);
    }
  }

  lemma {:induction false} TouchedConcat(its: seq<Iteration>, more: seq<Iteration>)
    ensures Touched(its + more) == Touched(its) + Touched(more)
    decreases |its|
  {
    if its == [] {
      assert its + more == more;
    } else {
      assert (its + more)[1..] == its[1..] + more;
      TouchedConcat(its[1..], more);
    }
  }

  lemma {:induction false} LastTouched(hist: seq<seq<Iteration>>)
    requires hist != [] && HasTouch(Flatten(hist[|hist| - 1]))
    ensures ClosedForm(ConcatIterations(hist)).Some?
    decreases |hist|
  {
    var k := |hist| - 1;
    TouchedConcat(hist[0], ConcatIterations(hist[1..]));
    if k == 0 {
      TouchedSome(hist[0]);
    } else {
      LastTouched(hist[1..]);
    }
    var touched := Touched(ConcatIterations(hist));
    if !ReadsFirst(touched[0]) {
      assert touched[0][0] == Write;
      assert FirstWriting(touched) == 0;
    }
  }
}
