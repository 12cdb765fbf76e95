/** The whole way of an access: instructions that are skipped, repeats that are
    dropped, buffers handed from thread to thread, and the cleaning at the end. */
module EndToEnd {
  import opened Classes
  import opened Cleaning
  import opened Instrumentation
  import C = Classification
  import H = Handoff
  import opened StaticSkip
  import opened CallTrees

  // ---- From the program's calls to the classes -------------------------------------

  /** The program's thread put the stream of `calls` into the buffers, in any
      interleaving with the cleaning thread, and that thread has ended. */
  ghost predicate Delivers<S(!new)>(buffers: nat, window: nat, steps: seq<H.Step<Op<S>>>, calls: seq<Call<S>>)
    requires WellFormed(calls)
  {
    && buffers > 0 && H.IsRun(H.Init(buffers, window), steps)
    && var p := H.Run(H.Init(buffers, window), steps);
       p.consumer.Ended? && p.issued == Stream(Start(), calls, true)
  }

  function Batches<S>(buffers: nat, window: nat, steps: seq<H.Step<Op<S>>>): seq<seq<Op<S>>>
    requires buffers > 0 && H.IsRun(H.Init(buffers, window), steps)
  {
    H.Run(H.Init(buffers, window), steps).cleaned
  }

  /** However the threads interleave and wherever batches are cut, the cleaning
      thread ends with the maps of the undropped stream. */
  lemma DeliveredStateIsProgramState<S(!new)>(buffers: nat, window: nat, steps: seq<H.Step<Op<S>>>, calls: seq<Call<S>>)
    requires WellFormed(calls) && Delivers(buffers, window, steps, calls)
    requires DropsOnlyRepeats(Start(), {}, calls)
    ensures Clean(Initial(), Cleaning.Flat(Batches(buffers, window, steps))) == Clean(Initial(), Stream(Start(), calls, false))
  {
    H.CleanedInOrder(buffers, window, steps);
    DedupPreserves(calls);
  }

  /** For a program whose regions nest properly every address ends in the closed
      form of its history in the program, and the labels that the batches carry to
      the processing pass join to it exactly when an iteration that
      touched the address has ended by the last batch that touches it, or none does. */
  lemma DeliveredClasses<S(!new)>(buffers: nat, window: nat, steps: seq<H.Step<Op<S>>>, calls: seq<Call<S>>, s: S, a: Addr)
    requires WellFormed(calls) && Delivers(buffers, window, steps, calls)
    requires Disciplined(Start(), [], calls) && DropsOnlyRepeats(Start(), {}, calls)
    ensures var batches := Batches(buffers, window, steps);
            var final := C.ClosedForm(History(Stream(Start(), calls, false), s, a));
            var n := C.UpToLastTouch(EventBatches(batches, None, s, a));
            && Clean(Initial(), Cleaning.Flat(batches)).ClassOf(s, a) == final
            && (JoinFor(AllLabels(Initial(), batches), s, a) == final <==>
                CompletedIn(Cleaning.Flat(batches[..n]), s, a) || !CompletedIn(Stream(Start(), calls, true), s, a))
  {
    H.CleanedInOrder(buffers, window, steps);
    ProgramClasses(calls, s, a);
    LabelsJoinToFinalClass(Batches(buffers, window, steps), s, a);
  }

  // ---- With instructions skipped as well -----------------------------------------------

  lemma {:induction false} RegionsWellFormed<S>(calls: seq<Call<S>>)
    ensures WellFormed(Regions(calls))
  {
    if calls == [] {
    } else {
      RegionsWellFormed(calls[1..]);
    }
  }

  /** Nesting is a matter of the calls that enter and leave regions alone. */
  lemma {:induction false} NonNestedByRegions<S>(q: Producer<S>, r: Producer<S>, calls: seq<Call<S>>)
    requires q.Valid() && r.Valid() && SameRegions(q, r) && WellFormed(calls)
    ensures WellFormed(Regions(calls)) && (NonNested(q, calls) <==> NonNested(r, Regions(calls)))
    decreases |calls|
  {
    RegionsWellFormed(calls);
    if calls == [] {
    } else {
      var q' := Issue(q, calls[0], true).0;
      if calls[0].Enter? || calls[0].Exit? {
        var rs := Regions(calls);
        assert rs[0] == calls[0] && rs[1..] == Regions(calls[1..]);
        NonNestedByRegions(q', Issue(r, rs[0], true).0, calls[1..]);
      } else {
        assert Regions(calls) == Regions(calls[1..]);
        NonNestedByRegions(q', r, calls[1..]);
      }
    }
  }

  lemma {:induction false} FlatIsNonNested<S>(q: Producer<S>, r: Producer<S>, calls: seq<Call<S>>)
    requires q.Valid() && r.Valid() && SameRegions(q, r) && WellFormed(calls)
    requires StaticSkip.Flat(q, calls)
    ensures NonNested(r, calls)
    decreases |calls|
  {
    if calls == [] {
    } else {
      FlatIsNonNested(Issue(q, calls[0], false).0, Issue(r, calls[0], true).0, calls[1..]);
    }
  }

  /** Leaving out the instrumentation that the data flow finds redundant, in every
      function of the program, and then dropping the repeats at run time together
      leave every map as it would be. */
  lemma SkippingAndDroppingPreserve<S(!new)>(d: Doing<S>)
    requires IsProgram(d) && StaticSkip.Flat(Start(), Full(d)) && ScalarStores(Full(d))
    ensures Clean(Initial(), Stream(Start(), Skipping(d), true)) == Clean(Initial(), Stream(Start(), Full(d), false))
    ensures DropsOnlyRepeats(Start(), {}, Skipping(d))
  {
    TreeThins(d);
    FlatIsNonNested<S>(Start(), Start(), Full(d));
    NonNestedByRegions<S>(Start(), Start(), Full(d));
    NonNestedByRegions<S>(Start(), Start(), Skipping(d));
    NonNestedScalar(Start(), Skipping(d));
    DedupPreserves(Skipping(d));
    TreeSkips(d, Initial(), Start(), Start());
  }

  /** The optimised program, through buffers and threads, ends with the maps of the
      program that issues everything and is cleaned in one piece. */
  lemma OptimisedDelivers<S(!new)>(d: Doing<S>, buffers: nat, window: nat, steps: seq<H.Step<Op<S>>>)
    requires IsProgram(d) && StaticSkip.Flat(Start(), Full(d)) && ScalarStores(Full(d))
    requires Delivers(buffers, window, steps, Skipping(d))
    ensures Clean(Initial(), Cleaning.Flat(Batches(buffers, window, steps)))
         == Clean(Initial(), Stream(Start(), Full(d), false))
  {
    SkippingAndDroppingPreserve(d);
    H.CleanedInOrder(buffers, window, steps);
  }
}
