/** The numbers given to pairs of a static number and a call stack. */
module Interning {
  import opened Arithmetic
  import opened Classes
  import opened Traces

  /** Static numbers are unsigned words. */
  type StaticID = n: nat | n < WORD

  datatype Call = Call(staticID: StaticID, trace: Trace)

  /** The hash of a static number. */
  type Hash = StaticID -> Word

  /** Two calls that get one number: the static numbers hash alike, and the call
      stacks do and compare equal. */
  predicate Alike(h: Hash, c: Call, d: Call) {
    && h(c.staticID) == h(d.staticID)
    && c.trace.hashPart1 == d.trace.hashPart1
    && TraceCompare(c.trace, d.trace)
  }

  lemma AlikeIsEquivalence(h: Hash, c: Call, d: Call, e: Call)
    ensures Alike(h, c, c)
    ensures Alike(h, c, d) <==> Alike(h, d, c)
    ensures Alike(h, c, d) && Alike(h, d, e) ==> Alike(h, c, e)
  {
    CompareIsEquivalence(c.trace, d.trace, e.trace);
  }

  // ---- The numbers, call by call -----------------------------------------------------

  /** The first of the numbered calls that is alike, or their number. */
  function Find(h: Hash, table: seq<Call>, c: Call): (i: nat)
    ensures i <= |table| && (i < |table| ==> Alike(h, table[i], c))
    ensures forall j :: 0 <= j < i ==> !Alike(h, table[j], c)
    decreases |table|
  {
    if table == [] then 0 else
      var i := Find(h, table[..|table| - 1], c);
      if i < |table| - 1 || Alike(h, table[|table| - 1], c) then i else |table|
  }

  function Saved(h: Hash, table: seq<Call>, c: Call): seq<Call> {
    if Find(h, table, c) < |table| then table else table + [c]
  }

  /** The numbered calls after a run; the number of a call is its place, from 1. */
  function Table(h: Hash, calls: seq<Call>): seq<Call> {
    if calls == [] then [] else Saved(h, Table(h, calls[..|calls| - 1]), calls[|calls| - 1])
  }

  /** The number that a call of a run is given. */
  function IdOf(h: Hash, calls: seq<Call>, i: nat): nat
    requires i < |calls|
  {
    Find(h, Table(h, calls[..i]), calls[i]) + 1
  }

  ghost predicate Unalike(h: Hash, table: seq<Call>) {
    forall i, j :: 0 <= i < j < |table| ==> !Alike(h, table[i], table[j])
  }

  lemma {:induction false} TableUnalike(h: Hash, calls: seq<Call>)
    ensures Unalike(h, Table(h, calls))
  {
    if calls == [] {
    } else {
      TableUnalike(h, calls[..|calls| - 1]);
    }
  }

  lemma {:induction false} TableGrows(h: Hash, calls: seq<Call>, n: nat)
    requires n <= |calls|
    ensures Table(h, calls[..n]) <= Table(h, calls)
    decreases |calls|
  {
    if n == |calls| {
      assert calls[..n] == calls;
    } else {
      assert calls[..|calls| - 1][..n] == calls[..n];
      TableGrows(h, calls[..|calls| - 1], n);
    }
  }

  lemma FindAlike(h: Hash, table: seq<Call>, c: Call, k: nat)
    requires Unalike(h, table) && k < |table| && Alike(h, table[k], c)
    ensures Find(h, table, c) == k
  {
    var i := Find(h, table, c);
    if i < k {
      AlikeIsEquivalence(h, table[k], c, table[i]);
      AlikeIsEquivalence(h, table[i], c, table[k]);
    }
  }

  /** The number of a call, in the table at the end of the run. */
  lemma IdAtEnd(h: Hash, calls: seq<Call>, i: nat)
    requires i < |calls|
    ensures var table := Table(h, calls);
            1 <= IdOf(h, calls, i) <= |table| && Alike(h, table[IdOf(h, calls, i) - 1], calls[i])
  {
    assert calls[..i + 1][..i] == calls[..i];
    TableGrows(h, calls, i + 1);
    AlikeIsEquivalence(h, calls[i], calls[i], calls[i]);
  }

  /** Two calls of a run, however far apart, have one number exactly when they are
      alike. */
  lemma SameIdIffAlike(h: Hash, calls: seq<Call>, i: nat, j: nat)
    requires i < |calls| && j < |calls|
    ensures IdOf(h, calls, i) == IdOf(h, calls, j) <==> Alike(h, calls[i], calls[j])
  {
    var table := Table(h, calls);
    TableUnalike(h, calls);
    IdAtEnd(h, calls, i);
    IdAtEnd(h, calls, j);
    var a, b := table[IdOf(h, calls, i) - 1], table[IdOf(h, calls, j) - 1];
    if IdOf(h, calls, i) == IdOf(h, calls, j) {
      AlikeIsEquivalence(h, a, calls[i], a);
      AlikeIsEquivalence(h, calls[i], a, calls[j]);
    }
    if Alike(h, calls[i], calls[j]) {
      AlikeIsEquivalence(h, a, calls[i], calls[j]);
      FindAlike(h, table, calls[j], IdOf(h, calls, i) - 1);
      FindAlike(h, table, calls[j], IdOf(h, calls, j) - 1);
    }
  }

  /** Every number up to the last is some call's, and was given to the first of its
      kind: a call gets a new number exactly when none before it is alike, and then
      it is the next one. */
  lemma NewIdIsNext(h: Hash, calls: seq<Call>, i: nat)
    requires i < |calls|
    ensures (forall j :: 0 <= j < i ==> !Alike(h, calls[j], calls[i])) <==> IdOf(h, calls, i) == |Table(h, calls[..i])| + 1
  {
    var table := Table(h, calls[..i]);
    if IdOf(h, calls, i) == |table| + 1 {
      forall j | 0 <= j < i ensures !Alike(h, calls[j], calls[i]) {
        IdAtEnd(h, calls[..i], j);
        var k := IdOf(h, calls[..i], j) - 1;
        AlikeIsEquivalence(h, table[k], calls[j], calls[i]);
      }
    } else {
      var k := Find(h, table, calls[i]);
      TableFromCalls(h, calls[..i], k);
      var j :| 0 <= j < i && calls[..i][j] == table[k];
      assert Alike(h, calls[j], calls[i]);
    }
  }

  lemma {:induction false} TableFromCalls(h: Hash, calls: seq<Call>, k: nat)
    requires k < |Table(h, calls)|
    ensures exists j :: 0 <= j < |calls| && calls[j] == Table(h, calls)[k]
    decreases |calls|
  {
    var before := calls[..|calls| - 1];
    if k < |Table(h, before)| {
      TableFromCalls(h, before, k);
      var j :| 0 <= j < |before| && before[j] == Table(h, before)[k];
      assert calls[j] == Table(h, calls)[k];
    } else {
      assert calls[|calls| - 1] == Table(h, calls)[k];
    }
  }

  // ---- From the number back -----------------------------------------------------------

  ghost predicate Injective(h: Hash) {
    forall s: StaticID, t: StaticID :: h(s) == h(t) ==> s == t
  }

  /** What a number stands for, when the program looks it up. */
  function Got(table: seq<Call>, id: nat): Option<Call> {
    if 1 <= id <= |table| then Some(table[id - 1]) else None
  }

  /** After any run the number of each of its calls gives its static number. */
  ghost predicate RoundTrips(h: Hash) {
    forall calls: seq<Call>, i: nat :: i < |calls| ==> GivesStaticID(h, calls, i)
  }

  predicate GivesStaticID(h: Hash, calls: seq<Call>, i: nat)
    requires i < |calls|
  {
    var r := Got(Table(h, calls), IdOf(h, calls, i));
    r.Some? && r.value.staticID == calls[i].staticID
  }

  /** The trace that comes back has the length and the hash of the call's, and
      compares equal to it. */
  lemma TraceComesBack(h: Hash, calls: seq<Call>, i: nat)
    requires i < |calls|
    ensures var r := Got(Table(h, calls), IdOf(h, calls, i));
            && r.Some? && r.value.trace.nptrs() == calls[i].trace.nptrs()
            && r.value.trace.hashPart1 == calls[i].trace.hashPart1
            && TraceCompare(r.value.trace, calls[i].trace)
  {
    IdAtEnd(h, calls, i);
  }

  /** The first call of a kind in a run. */
  ghost predicate FirstAlike(h: Hash, calls: seq<Call>, j: nat, i: nat)
    requires j < |calls| && i < |calls|
  {
    Alike(h, calls[j], calls[i]) && forall k :: 0 <= k < j ==> !Alike(h, calls[k], calls[i])
  }

  /** The number of a call stands for the first call that is alike. */
  lemma GotIsFirstAlike(h: Hash, calls: seq<Call>, j: nat, i: nat)
    requires j <= i < |calls| && FirstAlike(h, calls, j, i)
    ensures Got(Table(h, calls), IdOf(h, calls, i)) == Some(calls[j])
  {
    SameIdIffAlike(h, calls, j, i);
    forall k | 0 <= k < j ensures !Alike(h, calls[k], calls[j]) {
      AlikeIsEquivalence(h, calls[k], calls[j], calls[i]);
    }
    NewIdIsNext(h, calls, j);
    assert calls[..j + 1][..j] == calls[..j];
    TableGrows(h, calls, j + 1);
  }

  /** A call gets its own static number back exactly when the first call that is
      alike has it. */
  lemma GivesIffFirstHasIt(h: Hash, calls: seq<Call>, j: nat, i: nat)
    requires j <= i < |calls| && FirstAlike(h, calls, j, i)
    ensures GivesStaticID(h, calls, i) <==> calls[j].staticID == calls[i].staticID
  {
    GotIsFirstAlike(h, calls, j, i);
  }

  lemma FirstAlikeExists(h: Hash, calls: seq<Call>, i: nat) returns (j: nat)
    requires i < |calls|
    ensures j <= i && FirstAlike(h, calls, j, i)
  {
    AlikeIsEquivalence(h, calls[i], calls[i], calls[i]);
    j := 0;
    while !Alike(h, calls[j], calls[i])
      invariant j <= i && forall k :: 0 <= k < j ==> !Alike(h, calls[k], calls[i])
      decreases i - j
    {
      j := j + 1;
    }
  }

  /** No two calls of a run that are alike have different static numbers. */
  ghost predicate NoCollision(h: Hash, calls: seq<Call>) {
    forall i, j :: 0 <= i < |calls| && 0 <= j < |calls| && Alike(h, calls[i], calls[j]) ==>
                     calls[i].staticID == calls[j].staticID
  }

  /** Every call of a run gets its static number back exactly when no two that are
      alike have different ones. */
  lemma RunRoundTripsIffNoCollision(h: Hash, calls: seq<Call>)
    ensures (forall i :: 0 <= i < |calls| ==> GivesStaticID(h, calls, i)) <==> NoCollision(h, calls)
  {
    if forall i :: 0 <= i < |calls| ==> GivesStaticID(h, calls, i) {
      forall i, j | 0 <= i < |calls| && 0 <= j < |calls| && Alike(h, calls[i], calls[j])
        ensures calls[i].staticID == calls[j].staticID
      {
        SameIdIffAlike(h, calls, i, j);
        assert GivesStaticID(h, calls, i) && GivesStaticID(h, calls, j);
      }
    }
    if NoCollision(h, calls) {
      forall i | 0 <= i < |calls| ensures GivesStaticID(h, calls, i) {
        var j := FirstAlikeExists(h, calls, i);
        GivesIffFirstHasIt(h, calls, j, i);
      }
    }
  }

  /** In particular a run whose static numbers hash differently gets them all back. */
  lemma InjectiveOnRunRoundTrips(h: Hash, calls: seq<Call>, i: nat)
    requires i < |calls|
    requires forall j, k :: 0 <= j < |calls| && 0 <= k < |calls| && h(calls[j].staticID) == h(calls[k].staticID) ==>
                              calls[j].staticID == calls[k].staticID
    ensures GivesStaticID(h, calls, i)
  {
    RunRoundTripsIffNoCollision(h, calls);
  }

  /** The static numbers come back for every run exactly when their hash is injective. */
  lemma RoundTripsIffInjective(h: Hash)
    ensures RoundTrips(h) <==> Injective(h)
  {
    if Injective(h) {
      forall calls: seq<Call>, i: nat | i < |calls| ensures GivesStaticID(h, calls, i) {
        InjectiveOnRunRoundTrips(h, calls, i);
      }
    }
    if RoundTrips(h) {
      forall s: StaticID, t: StaticID | h(s) == h(t) ensures s == t {
        CollisionLoses(h, s, t, Trace([], {}));
      }
    }
  }

  // The hash that keeps the word as it is.

  function Pow2(n: nat): nat {
    if n == 0 then 1 else 2 * Pow2(n - 1)
  }

  /** The places of the one bits of a number, from `place` on. */
  function Bits(n: nat, width: nat, place: nat): (w: set<nat>)
    ensures forall i :: i in w ==> place <= i < place + width
    ensures place in w <==> width > 0 && n % 2 == 1
    decreases width
  {
    if width == 0 then {} else (if n % 2 == 1 then {place} else {}) + Bits(n / 2, width - 1, place + 1)
  }

  lemma {:induction false} BitsDiffer(n: nat, m: nat, width: nat, place: nat)
    requires n < Pow2(width) && m < Pow2(width) && Bits(n, width, place) == Bits(m, width, place)
    ensures n == m
    decreases width
  {
    if width == 0 {
    } else {
      assert Bits(n / 2, width - 1, place + 1) == Bits(n, width, place) - {place};
      assert Bits(m / 2, width - 1, place + 1) == Bits(m, width, place) - {place};
      BitsDiffer(n / 2, m / 2, width - 1, place + 1);
    }
  }

  function IdentityHash(s: StaticID): Word {
    Bits(s, 64, 0)
  }

  /** The round trip holds for a hash that keeps the word, as hashes of integers do. */
  lemma IdentityRoundTrips()
    ensures Injective(IdentityHash) && RoundTrips(IdentityHash)
  {
    Pow2Of64();
    forall s: StaticID, t: StaticID | IdentityHash(s) == IdentityHash(t) ensures s == t {
      BitsDiffer(s, t, 64, 0);
    }
    RoundTripsIffInjective(IdentityHash);
  }

  lemma Pow2Of64()
    ensures Pow2(64) == 0x1_0000_0000_0000_0000
  {
    assert Pow2(8) == 0x100;
    Pow2Sum(8, 8);
    Pow2Sum(16, 16);
    Pow2Sum(32, 32);
  }

  lemma {:induction false} Pow2Sum(m: nat, n: nat)
    ensures Pow2(m + n) == Pow2(m) * Pow2(n)
  {
    if m == 0 {
    } else {
      Pow2Sum(m - 1, n);
      assert 2 * (Pow2(m - 1) * Pow2(n)) == (2 * Pow2(m - 1)) * Pow2(n);
    }
  }

  /** Two static numbers that hash alike get one number, which gives the first. */
  lemma CollisionLoses(h: Hash, s: StaticID, t: StaticID, trace: Trace)
    requires h(s) == h(t)
    ensures var calls := [Call(s, trace), Call(t, trace)];
            IdOf(h, calls, 1) == 1 && Got(Table(h, calls), 1) == Some(Call(s, trace))
            && (GivesStaticID(h, calls, 1) <==> s == t)
  {
    var c, d := Call(s, trace), Call(t, trace);
    var calls := [c, d];
    assert calls[..1] == [c] && [c][..0] == [];
    AlikeIsEquivalence(h, c, c, c);
    assert Table(h, [c]) == [c];
    assert Alike(h, c, d);
    FindAlike(h, [c], d, 0);
  }

  // ---- The maps that hold them -------------------------------------------------------

  datatype DynamicTrace = DynamicTrace(trace: Trace, staticID: StaticID, uniqueID: nat)

  /** Numbered traces by hash and then by length. */
  type ByHash = map<Word, map<nat, seq<DynamicTrace>>>

  function Key(h: Hash, c: Call): Word {
    MyHashPart2(c.trace.hashPart1, h(c.staticID))
  }

  function Vector(traces: ByHash, k: Word, n: nat): seq<DynamicTrace> {
    if k in traces && n in traces[k] then traces[k][n] else []
  }

  /** The trace with a number. */
  function Numbered(table: seq<Call>, id: nat): DynamicTrace
    requires 1 <= id <= |table|
  {
    DynamicTrace(table[id - 1].trace, table[id - 1].staticID, id)
  }

  ghost predicate IsHeld(h: Hash, traces: ByHash, table: seq<Call>, id: nat)
    requires 1 <= id <= |table|
  {
    Numbered(table, id) in Vector(traces, Key(h, table[id - 1]), table[id - 1].trace.nptrs())
  }

  ghost predicate IsNumbered(h: Hash, table: seq<Call>, d: DynamicTrace, k: Word, n: nat) {
    && 1 <= d.uniqueID <= |table| && d == Numbered(table, d.uniqueID)
    && Key(h, table[d.uniqueID - 1]) == k && d.trace.nptrs() == n
  }

  /** Every vector holds the numbered calls of its key and length, and no others. */
  ghost predicate Represents(h: Hash, traces: ByHash, table: seq<Call>) {
    && (forall id :: 1 <= id <= |table| ==> IsHeld(h, traces, table, id))
    && (forall k: Word, n: nat, d :: d in Vector(traces, k, n) ==> IsNumbered(h, table, d, k, n))
  }

  /** The comparison in the vector: the static numbers are not compared, only the
      keys are, and with equal hashes of the stacks the keys decide. */
  predicate Matches(t: Trace, d: DynamicTrace) {
    d.trace.hashPart1 == t.hashPart1 && TraceCompare(d.trace, t)
  }

  lemma MatchIsAlike(h: Hash, c: Call, d: Call)
    ensures Key(h, c) == Key(h, d) && c.trace.hashPart1 == d.trace.hashPart1 && TraceCompare(c.trace, d.trace) <==> Alike(h, c, d)
  {
    if Key(h, c) == Key(h, d) && c.trace.hashPart1 == d.trace.hashPart1 {
      XorCancels(c.trace.hashPart1, h(c.staticID), h(d.staticID));
    }
  }

  function Pushed(traces: ByHash, k: Word, n: nat, d: DynamicTrace): ByHash {
    traces[k := (if k in traces then traces[k] else map[])[n := Vector(traces, k, n) + [d]]]
  }

  lemma PushedVector(traces: ByHash, k0: Word, n0: nat, d0: DynamicTrace, k: Word, n: nat)
    ensures Vector(Pushed(traces, k0, n0, d0), k, n) == Vector(traces, k, n) + if k == k0 && n == n0 then [d0] else []
  {
  }

  lemma NumberedStill(h: Hash, table: seq<Call>, c: Call, d: DynamicTrace, k: Word, n: nat)
    ensures IsNumbered(h, table, d, k, n) ==> IsNumbered(h, table + [c], d, k, n)
    ensures IsNumbered(h, table + [c], DynamicTrace(c.trace, c.staticID, |table| + 1), Key(h, c), c.trace.nptrs())
  {
  }

  lemma PushRepresents(h: Hash, traces: ByHash, table: seq<Call>, c: Call)
    requires Represents(h, traces, table)
    ensures Represents(h, Pushed(traces, Key(h, c), c.trace.nptrs(), DynamicTrace(c.trace, c.staticID, |table| + 1)), table + [c])
  {
    var k0, n0 := Key(h, c), c.trace.nptrs();
    var d0 := DynamicTrace(c.trace, c.staticID, |table| + 1);
    var after := Pushed(traces, k0, n0, d0);
    forall id | 1 <= id <= |table + [c]| ensures IsHeld(h, after, table + [c], id) {
      var e := (table + [c])[id - 1];
      PushedVector(traces, k0, n0, d0, Key(h, e), e.trace.nptrs());
      if id <= |table| {
        assert IsHeld(h, traces, table, id);
      }
    }
    forall k: Word, n: nat, d | d in Vector(after, k, n) ensures IsNumbered(h, table + [c], d, k, n) {
      PushedVector(traces, k0, n0, d0, k, n);
      NumberedStill(h, table, c, d, k, n);
    }
  }

  function NumberedAll(table: seq<Call>): map<nat, DynamicTrace> {
    map id: nat | 1 <= id <= |table| :: Numbered(table, id)
  }

  lemma NumberedOneMore(table: seq<Call>, c: Call)
    ensures NumberedAll(table + [c]) == NumberedAll(table)[|table| + 1 := DynamicTrace(c.trace, c.staticID, |table| + 1)]
  {
    forall id: nat | 1 <= id <= |table| ensures Numbered(table + [c], id) == Numbered(table, id) {
    }
  }

  class Callstacks {
    const hash: Hash
    const disableCallstack: bool
    var traces: ByHash
    var dynamicTraces: map<nat, DynamicTrace>
    var globalID: nat
    // The numbered calls.
    ghost var table: seq<Call>

    ghost predicate Valid()
      reads this
    {
      && globalID == |table| + 1
      && Represents(hash, traces, table) && Unalike(hash, table)
      && dynamicTraces == NumberedAll(table)
    }

    constructor (hash: Hash, disableCallstack: bool)
      ensures Valid() && table == [] && this.hash == hash && this.disableCallstack == disableCallstack
    {
      this.hash, this.disableCallstack := hash, disableCallstack;
      traces, dynamicTraces, globalID, table := map[], map[], 1, [];
    }

    method IncrementPushReturn(trace: Trace, staticID: StaticID, dynamicID: Word) returns (uniqueID: nat)
      requires Valid() && dynamicID == Key(hash, Call(staticID, trace))
      requires forall i :: 0 <= i < |table| ==> !Alike(hash, table[i], Call(staticID, trace))
      modifies this
      ensures Valid() && uniqueID == |old(table)| + 1 && table == old(table) + [Call(staticID, trace)]
    {
      var dynamicTrace := DynamicTrace(trace, staticID, globalID);
      globalID := globalID + 1;
      PushRepresents(hash, traces, table, Call(staticID, trace));
      traces := Pushed(traces, dynamicID, trace.nptrs(), dynamicTrace);
      uniqueID := dynamicTrace.uniqueID;
      dynamicTraces := dynamicTraces[uniqueID := dynamicTrace];
      NumberedOneMore(table, Call(staticID, trace));
      table := table + [Call(staticID, trace)];
    }

    /** The number of a static number and a call stack; 0 when there is no stack. */
    method SaveCallstack(staticID: StaticID, traceArg: Option<Trace>) returns (uniqueID: nat)
      requires Valid()
      modifies this
      ensures Valid()
      ensures traceArg.None? ==> uniqueID == 0 && table == old(table)
      ensures traceArg.Some? ==>
                var c := Call(staticID, traceArg.value);
                uniqueID == Find(hash, old(table), c) + 1 && table == Saved(hash, old(table), c)
    {
      if traceArg.None? {
        return 0;
      }
      var trace := traceArg.value;
      var dynamicID := MyHashPart2(trace.hashPart1, hash(staticID));
      var existing := FindExisting(trace, dynamicID, staticID);
      if existing.Some? {
        FindAlike(hash, table, Call(staticID, trace), existing.value.uniqueID - 1);
        return existing.value.uniqueID;
      }
      uniqueID := IncrementPushReturn(trace, staticID, dynamicID);
    }

    /** The first trace of the vector that matches. */
    method FindExisting(trace: Trace, dynamicID: Word, ghost staticID: StaticID) returns (r: Option<DynamicTrace>)
      requires Valid() && dynamicID == Key(hash, Call(staticID, trace))
      ensures r.Some? ==> 1 <= r.value.uniqueID <= |table| && Alike(hash, table[r.value.uniqueID - 1], Call(staticID, trace))
      ensures r.None? ==> forall i :: 0 <= i < |table| ==> !Alike(hash, table[i], Call(staticID, trace))
    {
      var v := Vector(traces, dynamicID, trace.nptrs());
      for i := 0 to |v|
        invariant forall j :: 0 <= j < i ==> !Matches(trace, v[j])
      {
        if Matches(trace, v[i]) {
          assert IsNumbered(hash, table, v[i], dynamicID, trace.nptrs());
          MatchIsAlike(hash, table[v[i].uniqueID - 1], Call(staticID, trace));
          return Some(v[i]);
        }
      }
      forall i | 0 <= i < |table| ensures !Alike(hash, table[i], Call(staticID, trace)) {
        MatchIsAlike(hash, table[i], Call(staticID, trace));
        assert IsHeld(hash, traces, table, i + 1);
      }
      return None;
    }

    /** The trace and the static number behind a number; an unknown one aborts the
        program, and with call stacks disabled the number is the static number. */
    method GetTraceAndStaticID(uniqueID: nat) returns (r: Option<(Option<Trace>, nat)>)
      requires Valid()
      ensures disableCallstack ==> r == Some((None, uniqueID))
      ensures !disableCallstack ==>
                r == match Got(table, uniqueID)
                     case None => None
                     case Some(c) => Some((Some(c.trace), c.staticID))
    {
      if disableCallstack {
        return Some((None, uniqueID));
      }
      if uniqueID !in dynamicTraces {
        return None;
      }
      var dynamicTrace := dynamicTraces[uniqueID];
      return Some((Some(dynamicTrace.trace), dynamicTrace.staticID));
    }
  }
}
