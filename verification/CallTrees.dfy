/** Programs of many functions, in each of which the analysis skips for itself. */
module CallTrees {
  import opened Classes
  import opened Cleaning
  import opened Instrumentation
  import opened StaticSkip

  type Proper<S> = calls: seq<Call<S>> | WellFormed(calls)

  /** What a program does: calls as they come, one thing after another, or a function
      along a path, with the address of each instruction and what its callees do there. */
  datatype Doing<S> = Plain(calls: Proper<S>)
                    | Then(first: Doing<S>, second: Doing<S>)
                    | InFunction(pr: Program<S>, path: seq<Inst>, addr: seq<Addr>, callees: seq<Doing<S>>)

  /** The calls it makes when everything is instrumented. */
  function Full<S>(d: Doing<S>): (calls: Proper<S>)
    decreases d
  {
    match d
    case Plain(calls) => calls
    case Then(first, second) => Full(first) + Full(second)
    case InFunction(pr, path, addr, callees) =>
      if |path| == |addr| == |callees| then Calls(pr, Execution(path, addr, FullOf(callees)), {}, 0) else []
  }

  function FullOf<S>(ds: seq<Doing<S>>): (r: seq<Proper<S>>)
    ensures |r| == |ds|
    decreases ds
  {
    if ds == [] then [] else [Full(ds[0])] + FullOf(ds[1..])
  }

  /** The calls it makes when every function skips what its own analysis finds. */
  function Skipping<S>(d: Doing<S>): (calls: Proper<S>)
    decreases d
  {
    match d
    case Plain(calls) => calls
    case Then(first, second) => Skipping(first) + Skipping(second)
    case InFunction(pr, path, addr, callees) =>
      if |path| == |addr| == |callees| then Calls(pr, Execution(path, addr, SkippingOf(callees)), pr.Skip(), 0) else []
  }

  function SkippingOf<S>(ds: seq<Doing<S>>): (r: seq<Proper<S>>)
    ensures |r| == |ds|
    decreases ds
  {
    if ds == [] then [] else [Skipping(ds[0])] + SkippingOf(ds[1..])
  }

  /** Every function's analysis is valid and every path is one of its executions. */
  ghost predicate IsProgram<S>(d: Doing<S>)
    decreases d
  {
    match d
    case Plain(calls) => true
    case Then(first, second) => IsProgram(first) && IsProgram(second)
    case InFunction(pr, path, addr, callees) =>
      && pr.Valid() && Executes(pr, Execution(path, addr, FullOf(callees)))
      && forall k :: 0 <= k < |callees| ==> IsProgram(callees[k])
  }

  lemma {:induction false} OfAt<S>(ds: seq<Doing<S>>, k: nat)
    requires k < |ds|
    ensures FullOf(ds)[k] == Full(ds[k]) && SkippingOf(ds)[k] == Skipping(ds[k])
    decreases k
  {
    if k == 0 {
    } else {
      OfAt(ds[1..], k - 1);
    }
  }

  /** However functions follow and call each other, each skipping for itself leaves the
      maps as skipping nothing would. */
  lemma {:induction false} TreeSkips<S(!new)>(d: Doing<S>, c: Cleaner<S>, q: Producer<S>, r: Producer<S>)
    requires IsProgram(d) && InStep(c, q) && r.Valid() && SameRegions(q, r)
    requires StaticSkip.Flat(q, Full(d))
    ensures EndAlike(c, q, Full(d), r, Skipping(d))
    decreases d
  {
    match d {
      case Plain(calls) =>
        StreamSameRegions(q, r, calls);
      case Then(first, second) =>
        CleanStreamConcat(c, q, Full(first), Full(second));
        CleanStreamConcat(c, r, Skipping(first), Skipping(second));
        TreeSkips(first, c, q, r);
        AllInStep(c, q, Full(first));
        TreeSkips(second, Clean(c, Stream(q, Full(first), false)),
                  After(q, Full(first), false), After(r, Skipping(first), false));
      case InFunction(pr, path, addr, callees) =>
        var e := Execution(path, addr, FullOf(callees));
        forall k: nat | k < |callees| ensures SameToPass(FullOf(callees)[k], SkippingOf(callees)[k]) {
          OfAt(callees, k);
          forall c: Cleaner<S>, q: Producer<S> | InStep(c, q) && StaticSkip.Flat(q, Full(callees[k]))
            ensures EndAlike(c, q, Full(callees[k]), q, Skipping(callees[k]))
          {
            TreeSkips(callees[k], c, q, q);
          }
        }
        SkippingPreserves(pr, e, SkippingOf(callees), c, q, r);
    }
  }

  // ---- What skipping keeps of the calls ------------------------------------------------

  /** The same regions are entered and left, and no store got wider. */
  ghost predicate Thins<S>(full: seq<Call<S>>, kept: seq<Call<S>>) {
    Regions(kept) == Regions(full) && (ScalarStores(full) ==> ScalarStores(kept))
  }

  lemma {:induction false} RegionsConcat<S>(calls: seq<Call<S>>, more: seq<Call<S>>)
    ensures Regions(calls + more) == Regions(calls) + Regions(more)
    decreases |calls|
  {
    if calls == [] {
      assert calls + more == more;
    } else {
      var all := calls + more;
      assert all[0] == calls[0] && all[1..] == calls[1..] + more;
      RegionsConcat(calls[1..], more);
      assert Regions(all) == (if calls[0].Enter? || calls[0].Exit? then [calls[0]] else []) + Regions(all[1..]);
    }
  }

  lemma ScalarConcat<S>(calls: seq<Call<S>>, more: seq<Call<S>>)
    ensures ScalarStores(calls + more) <==> ScalarStores(calls) && ScalarStores(more)
  {
    var all := calls + more;
    assert forall i :: 0 <= i < |calls| ==> all[i] == calls[i];
    assert forall i :: 0 <= i < |more| ==> all[|calls| + i] == more[i];
  }

  lemma ThinsConcat<S>(full: seq<Call<S>>, kept: seq<Call<S>>, more: seq<Call<S>>, less: seq<Call<S>>)
    requires Thins(full, kept) && Thins(more, less)
    ensures Thins(full + more, kept + less)
  {
    RegionsConcat(full, more);
    RegionsConcat(kept, less);
    ScalarConcat(full, more);
    ScalarConcat(kept, less);
  }

  lemma MadeThins<S>(pr: Program<S>, e: Execution<S>, f: Execution<S>, k: nat)
    requires pr.Valid() && |e.addr| == |e.path| == |e.others| && k < |e.path|
    requires f.path == e.path && f.addr == e.addr && |f.others| == |e.others|
    ensures Thins(Made(pr, e, {}, k), Made(pr, f, pr.Skip(), k))
  {
    var own := Made(pr, e, {}, k);
    if e.path[k] in pr.Skip() {
      assert own[1..] == [];
    }
  }

  lemma {:induction false} CallsThin<S>(pr: Program<S>, e: Execution<S>, kept: seq<Proper<S>>, k: nat)
    requires pr.Valid() && Executes(pr, e) && k <= |e.path| && |kept| == |e.others|
    requires forall k :: 0 <= k < |kept| ==> Thins(e.others[k], kept[k])
    ensures Thins(Calls(pr, e, {}, k), Calls(pr, e.(others := kept), pr.Skip(), k))
    decreases |e.path| - k
  {
    if k == |e.path| {
    } else {
      var e' := e.(others := kept);
      CallsThin(pr, e, kept, k + 1);
      MadeThins(pr, e, e', k);
      ThinsConcat(Made(pr, e, {}, k), Made(pr, e', pr.Skip(), k), e.others[k], kept[k]);
      ThinsConcat(CallsAt(pr, e, {}, k), CallsAt(pr, e', pr.Skip(), k), Calls(pr, e, {}, k + 1), Calls(pr, e', pr.Skip(), k + 1));
    }
  }

  lemma {:induction false} TreeThins<S>(d: Doing<S>)
    requires IsProgram(d)
    ensures Thins(Full(d), Skipping(d))
    decreases d
  {
    match d {
      case Plain(calls) =>
      case Then(first, second) =>
        TreeThins(first);
        TreeThins(second);
        ThinsConcat(Full(first), Skipping(first), Full(second), Skipping(second));
      case InFunction(pr, path, addr, callees) =>
        forall k: nat | k < |callees| ensures Thins(FullOf(callees)[k], SkippingOf(callees)[k]) {
          OfAt(callees, k);
          TreeThins(callees[k]);
        }
        CallsThin(pr, Execution(path, addr, FullOf(callees)), SkippingOf(callees), 0);
    }
  }
}
