/** The report-time merge: seven lists of allocations, one for each class, are
    reworked in place until each allocation is in the list of one class. */
module Merge {
  import opened Classes

  /** An allocation as saved: its ID, and everything else in one value. */
  datatype Saved = Saved(uniqueID: nat, details: int)

  function IDs(s: seq<Saved>): multiset<nat> {
    if s == [] then multiset{} else multiset{s[0].uniqueID} + IDs(s[1..])
  }

  lemma {:induction false} IDsConcat(s: seq<Saved>, t: seq<Saved>)
    ensures IDs(s + t) == IDs(s) + IDs(t)
    decreases |s|
  {
    if s == [] {
      assert s + t == t;
    } else {
      assert (s + t)[1..] == s[1..] + t;
      IDsConcat(s[1..], t);
    }
  }

  lemma {:induction false} IDsMember(s: seq<Saved>, id: nat)
    ensures IDs(s)[id] > 0 <==> exists i :: 0 <= i < |s| && s[i].uniqueID == id
    decreases |s|
  {
    if s == [] {
    } else {
      IDsMember(s[1..], id);
      if exists i :: 0 <= i < |s| && s[i].uniqueID == id {
        var i :| 0 <= i < |s| && s[i].uniqueID == id;
        if i > 0 {
          assert s[1..][i - 1].uniqueID == id;
        }
      }
      if s[0].uniqueID != id && IDs(s[1..])[id] > 0 {
        var j :| 0 <= j < |s[1..]| && s[1..][j].uniqueID == id;
        assert s[j + 1].uniqueID == id;
      }
    }
  }

  // ---- What the two loops leave --------------------------------------------------

  /** The place of the first element with an ID, or the length. */
  function Find(s: seq<Saved>, id: nat): (i: nat)
    ensures i <= |s|
    ensures i < |s| ==> s[i].uniqueID == id
    ensures forall j :: 0 <= j < i ==> s[j].uniqueID != id
  {
    if s == [] || s[0].uniqueID == id then 0 else 1 + Find(s[1..], id)
  }

  function Without<T>(s: seq<T>, i: nat): seq<T>
    requires i < |s|
  {
    s[..i] + s[i + 1..]
  }

  /** What remains of the two sources, and what goes to the destination, when each
      element of the first is paired with the first left of the second. */
  datatype Matched = Matched(rest1: seq<Saved>, rest2: seq<Saved>, added: seq<Saved>)

  function Match(s1: seq<Saved>, s2: seq<Saved>): Matched
    decreases |s1|
  {
    if s1 == [] then Matched([], s2, [])
    else
      var i := Find(s2, s1[0].uniqueID);
      if i < |s2| then
        var m := Match(s1[1..], Without(s2, i));
        m.(added := [s1[0]] + m.added)
      else
        var m := Match(s1[1..], s2);
        m.(rest1 := [s1[0]] + m.rest1)
  }

  function Min(a: nat, b: nat): nat {
    if a < b then a else b
  }

  lemma IDsOne(x: Saved)
    ensures IDs([x]) == multiset{x.uniqueID}
  {
    assert [x][1..] == [];
  }

  lemma IDsAround(a: seq<Saved>, x: Saved, b: seq<Saved>)
    ensures IDs(a + ([x] + b)) == IDs(a + b) + multiset{x.uniqueID}
  {
    IDsConcat(a, [x] + b);
    IDsConcat([x], b);
    IDsConcat(a, b);
    IDsOne(x);
  }

  lemma SplitAt<T>(s: seq<T>, i: nat)
    requires i < |s|
    ensures s == s[..i] + ([s[i]] + s[i + 1..])
  {
  }

  lemma WithoutIDs(s: seq<Saved>, i: nat)
    requires i < |s|
    ensures IDs(s) == IDs(Without(s, i)) + multiset{s[i].uniqueID}
  {
    SplitAt(s, i);
    IDsAround(s[..i], s[i], s[i + 1..]);
  }

  lemma IDsCons(x: Saved, s: seq<Saved>, id: nat)
    ensures IDs([x] + s)[id] == IDs(s)[id] + if x.uniqueID == id then 1 else 0
  {
    assert ([x] + s)[1..] == s;
  }

  /** Of each ID, as many as both sources have go from each to the destination. */
  lemma {:induction false} MatchCounts(s1: seq<Saved>, s2: seq<Saved>, id: nat)
    ensures var m := Match(s1, s2);
            var k := Min(IDs(s1)[id], IDs(s2)[id]);
            && IDs(m.rest1)[id] == IDs(s1)[id] - k
            && IDs(m.rest2)[id] == IDs(s2)[id] - k
            && IDs(m.added)[id] == k
    decreases |s1|
  {
    if s1 == [] {
    } else {
      var x, t1 := s1[0], s1[1..];
      assert s1 == [x] + t1;
      IDsCons(x, t1, id);
      var i := Find(s2, x.uniqueID);
      if i < |s2| {
        var t2 := Without(s2, i);
        var m := Match(t1, t2);
        assert Match(s1, s2) == Matched(m.rest1, m.rest2, [x] + m.added);
        WithoutIDs(s2, i);
        MatchCounts(t1, t2, id);
        IDsCons(x, m.added, id);
      } else {
        var m := Match(t1, s2);
        assert Match(s1, s2) == Matched([x] + m.rest1, m.rest2, m.added);
        IDsMember(s2, x.uniqueID);
        MatchCounts(t1, s2, id);
        IDsCons(x, m.rest1, id);
      }
    }
  }

  /** Nothing is made up: what is added comes from the first source. */
  lemma {:induction false} MatchContents(s1: seq<Saved>, s2: seq<Saved>)
    ensures var m := Match(s1, s2);
            && multiset(m.rest1) + multiset(m.added) == multiset(s1)
            && multiset(m.rest2) <= multiset(s2)
    decreases |s1|
  {
    if s1 == [] {
    } else {
      assert s1 == [s1[0]] + s1[1..];
      var i := Find(s2, s1[0].uniqueID);
      if i < |s2| {
        assert s2 == s2[..i] + [s2[i]] + s2[i + 1..];
        MatchContents(s1[1..], Without(s2, i));
      } else {
        MatchContents(s1[1..], s2);
      }
    }
  }

  /** The elements whose ID has not been met, in order. */
  function Deduped(s: seq<Saved>, met: set<nat>): seq<Saved> {
    if s == [] then []
    else if s[0].uniqueID in met then Deduped(s[1..], met)
    else [s[0]] + Deduped(s[1..], met + {s[0].uniqueID})
  }

  lemma {:induction false} DedupedCounts(s: seq<Saved>, met: set<nat>, id: nat)
    ensures IDs(Deduped(s, met))[id] == if id in met || IDs(s)[id] == 0 then 0 else 1
    decreases |s|
  {
    if s == [] {
    } else {
      if s[0].uniqueID in met {
        DedupedCounts(s[1..], met, id);
      } else {
        DedupedCounts(s[1..], met + {s[0].uniqueID}, id);
      }
    }
  }

  // ---- One ID, in the seven lists ---------------------------------------------------

  /** How often an ID is in each list. */
  datatype Counts = Counts(i: nat, o: nat, io: nat, co: nat, to: nat, cio: nat, tio: nat) {
    function Get(c: Class): nat {
      match c
      case Input => i
      case Output => o
      case IO => io
      case CO => co
      case TO => to
      case CIO => cio
      case TIO => tio
    }
  }

  /** How often an ID is in list `c` after one call. */
  function Amount(n: Counts, f: Fix, c: Class): nat {
    var k := Min(n.Get(f.src1), n.Get(f.src2));
    n.Get(c) - (if c == f.src1 || c == f.src2 then k else 0) + (if c == f.dst then k else 0)
  }

  function FixCounts(n: Counts, f: Fix): Counts {
    Counts(Amount(n, f, Input), Amount(n, f, Output), Amount(n, f, IO), Amount(n, f, CO), Amount(n, f, TO),
           Amount(n, f, CIO), Amount(n, f, TIO))
  }

  function DedupCounts(n: Counts): Counts {
    Counts(Min(n.i, 1), Min(n.o, 1), Min(n.io, 1), Min(n.co, 1), Min(n.to, 1), Min(n.cio, 1), Min(n.tio, 1))
  }

  datatype Fix = Fix(src1: Class, src2: Class, dst: Class)

  /** The calls, in order, by their first source. */
  const JOIN_INPUT: seq<Fix> := [Fix(Input, Output, IO), Fix(Input, CO, CIO), Fix(Input, TO, TIO)]
  const FROM_INPUT: seq<Fix> := [Fix(Input, IO, IO), Fix(Input, CIO, CIO), Fix(Input, TIO, TIO)]
  const FROM_OUTPUT: seq<Fix> := [Fix(Output, CO, CO), Fix(Output, TO, TO), Fix(Output, IO, IO), Fix(Output, CIO, CIO),
                                  Fix(Output, TIO, TIO)]
  const FROM_IO: seq<Fix> := [Fix(IO, CO, CIO), Fix(IO, TO, TIO), Fix(IO, CIO, CIO), Fix(IO, TIO, TIO)]
  const FROM_CO: seq<Fix> := [Fix(CO, TO, TO), Fix(CO, CIO, CIO), Fix(CO, TIO, TIO)]
  const FROM_TO: seq<Fix> := [Fix(TO, CIO, TIO), Fix(TO, TIO, TIO)]
  const FROM_CIO: seq<Fix> := [Fix(CIO, TIO, TIO)]

  function Fixes(): seq<Fix> {
    JOIN_INPUT + (FROM_INPUT + (FROM_OUTPUT + (FROM_IO + (FROM_CO + (FROM_TO + FROM_CIO)))))
  }

  function RunFixes(n: Counts, fixes: seq<Fix>): Counts
    decreases |fixes|
  {
    if fixes == [] then n else RunFixes(FixCounts(n, fixes[0]), fixes[1..])
  }

  /** The whole report-time pass, for one ID. */
  function MergeCounts(n: Counts): Counts {
    DedupCounts(RunFixes(DedupCounts(n), Fixes()))
  }

  /** The join of the classes whose lists have the ID. */
  function JoinOf(n: Counts): Option<Class> {
    OfHalves(n.i > 0 || n.io > 0 || n.cio > 0 || n.tio > 0,
             if n.to > 0 || n.tio > 0 then 3
             else if n.co > 0 || n.cio > 0 then 2
             else if n.o > 0 || n.io > 0 then 1
             else 0)
  }

  lemma JoinOfIsUpperBound(n: Counts, c: Class)
    requires n.Get(c) > 0
    ensures Leq(Some(c), JoinOf(n))
  {
  }

  lemma JoinOfIsLeast(n: Counts, j: Option<Class>)
    requires forall c :: n.Get(c) > 0 ==> Leq(Some(c), j)
    ensures Leq(JoinOf(n), j)
  {
    assert n.i > 0 ==> n.Get(Input) > 0;
    assert n.o > 0 ==> n.Get(Output) > 0;
    assert n.io > 0 ==> n.Get(IO) > 0;
    assert n.co > 0 ==> n.Get(CO) > 0;
    assert n.to > 0 ==> n.Get(TO) > 0;
    assert n.cio > 0 ==> n.Get(CIO) > 0;
    assert n.tio > 0 ==> n.Get(TIO) > 0;
  }

  /** The destination is the join of two different sources, and may be the second. */
  predicate JoinFix(f: Fix) {
    f.src1 != f.src2 && f.dst != f.src1 && Join(Some(f.src1), Some(f.src2)) == Some(f.dst)
  }

  /** Every call of the pass moves an ID from two classes to their join. */
  lemma FixesJoin(i: nat)
    requires i < |Fixes()|
    ensures JoinFix(Fixes()[i])
  {
    var f := Fixes()[i];
    HalvesDetermine(Join(Some(f.src1), Some(f.src2)), Some(f.dst));
  }

  lemma FixGets(n: Counts, f: Fix, c: Class)
    ensures FixCounts(n, f).Get(c) == Amount(n, f, c)
  {
  }

  lemma LeqTransitive(c: Option<Class>, d: Option<Class>, e: Option<Class>)
    requires Leq(c, d) && Leq(d, e)
    ensures Leq(c, e)
  {
  }

  /** One call keeps the join of an ID's classes. */
  lemma FixKeepsJoin(n: Counts, f: Fix)
    requires JoinFix(f)
    ensures JoinOf(FixCounts(n, f)) == JoinOf(n)
  {
    var m := FixCounts(n, f);
    forall c | m.Get(c) > 0 ensures Leq(Some(c), JoinOf(n)) {
      FixGets(n, f, c);
      if n.Get(c) > 0 {
        JoinOfIsUpperBound(n, c);
      } else {
        JoinOfIsUpperBound(n, f.src1);
        JoinOfIsUpperBound(n, f.src2);
      }
    }
    forall c | n.Get(c) > 0 ensures Leq(Some(c), JoinOf(m)) {
      FixGets(n, f, c);
      if m.Get(c) > 0 {
        JoinOfIsUpperBound(m, c);
      } else {
        FixGets(n, f, f.dst);
        JoinOfIsUpperBound(m, f.dst);
        LeqTransitive(Some(c), Some(f.dst), JoinOf(m));
      }
    }
    JoinOfIsLeast(n, JoinOf(m));
    JoinOfIsLeast(m, JoinOf(n));
    LeqAntisymmetric(JoinOf(n), JoinOf(m));
  }

  lemma {:induction false} FixesKeepJoin(n: Counts, fixes: seq<Fix>)
    requires forall i :: 0 <= i < |fixes| ==> JoinFix(fixes[i])
    ensures JoinOf(RunFixes(n, fixes)) == JoinOf(n)
    decreases |fixes|
  {
    if fixes == [] {
    } else {
      FixKeepsJoin(n, fixes[0]);
      FixesKeepJoin(FixCounts(n, fixes[0]), fixes[1..]);
    }
  }

  lemma DedupKeepsJoin(n: Counts)
    ensures JoinOf(DedupCounts(n)) == JoinOf(n)
  {
  }

  /** The whole pass keeps the join of every ID's classes; in particular an ID is
      in some list after it exactly when it was before. */
  lemma MergeKeepsJoin(n: Counts)
    ensures JoinOf(MergeCounts(n)) == JoinOf(n)
  {
    var fixes := Fixes();
    forall i | 0 <= i < |fixes| ensures JoinFix(fixes[i]) {
      FixesJoin(i);
    }
    DedupKeepsJoin(n);
    FixesKeepJoin(DedupCounts(n), fixes);
    DedupKeepsJoin(RunFixes(DedupCounts(n), Fixes()));
  }

  function Indicator(n: nat): nat {
    if n > 0 then 1 else 0
  }

  /** How many lists an ID is in. */
  function Spread(n: Counts): nat {
    Indicator(n.i) + Indicator(n.o) + Indicator(n.io) + Indicator(n.co) + Indicator(n.to) + Indicator(n.cio) + Indicator(n.tio)
  }

  /** The combinations of lists from which an ID ends in two of them. */
  predicate Stuck(n: Counts) {
    var i, o, io, co, to, cio, tio := n.i > 0, n.o > 0, n.io > 0, n.co > 0, n.to > 0, n.cio > 0, n.tio > 0;
    || (co && cio && tio && !to && (i || io))
    || (i && io && co && to && cio && !tio)
    || (i && o && io && !co && !to && cio != tio)
  }

  lemma RunNext(n: Counts, fixes: seq<Fix>, k: nat)
    requires k < |fixes|
    ensures RunFixes(n, fixes[k..]) == RunFixes(FixCounts(n, fixes[k]), fixes[k + 1..])
  {
  }

  lemma {:induction false} RunFixesConcat(n: Counts, fixes: seq<Fix>, more: seq<Fix>)
    ensures RunFixes(n, fixes + more) == RunFixes(RunFixes(n, fixes), more)
    decreases |fixes|
  {
    if fixes == [] {
      assert fixes + more == more;
    } else {
      assert (fixes + more)[1..] == fixes[1..] + more;
      RunFixesConcat(FixCounts(n, fixes[0]), fixes[1..], more);
    }
  }

  function JoinInput(d: Counts): Counts {
    if d.i == 0 then d
    else if d.o > 0 then d.(i := 0, o := d.o - 1, io := d.io + 1)
    else if d.co > 0 then d.(i := 0, co := d.co - 1, cio := d.cio + 1)
    else if d.to > 0 then d.(i := 0, to := d.to - 1, tio := d.tio + 1)
    else d
  }

  lemma JoinsOutput(d: Counts)
    requires d.i <= 1
    ensures FixCounts(d, Fix(Input, Output, IO)) == if d.i > 0 && d.o > 0 then d.(i := 0, o := d.o - 1, io := d.io + 1) else d
  {
  }

  lemma JoinsCO(d: Counts)
    requires d.i <= 1
    ensures FixCounts(d, Fix(Input, CO, CIO)) == if d.i > 0 && d.co > 0 then d.(i := 0, co := d.co - 1, cio := d.cio + 1) else d
  {
  }

  lemma JoinsTO(d: Counts)
    requires d.i <= 1
    ensures FixCounts(d, Fix(Input, TO, TIO)) == if d.i > 0 && d.to > 0 then d.(i := 0, to := d.to - 1, tio := d.tio + 1) else d
  {
  }

  lemma JoinThree(d: Counts, a: Fix, b: Fix, c: Fix)
    requires d.i <= 1 && a == Fix(Input, Output, IO) && b == Fix(Input, CO, CIO) && c == Fix(Input, TO, TIO)
    ensures FixCounts(FixCounts(FixCounts(d, a), b), c) == JoinInput(d)
  {
    JoinsOutput(d);
    var d1 := if d.i > 0 && d.o > 0 then d.(i := 0, o := d.o - 1, io := d.io + 1) else d;
    JoinsCO(d1);
    var d2 := if d1.i > 0 && d1.co > 0 then d1.(i := 0, co := d1.co - 1, cio := d1.cio + 1) else d1;
    JoinsTO(d2);
  }

  lemma RunThree(n: Counts, a: Fix, b: Fix, c: Fix)
    ensures RunFixes(n, [a, b, c]) == FixCounts(FixCounts(FixCounts(n, a), b), c)
  {
    assert [a, b, c][1..] == [b, c] && [b, c][1..] == [c];
    assert RunFixes(n, [a, b, c]) == RunFixes(FixCounts(n, a), [b, c]);
    assert RunFixes(FixCounts(n, a), [b, c]) == RunFixes(FixCounts(FixCounts(n, a), b), [c]);
  }

  lemma JoinFromInput(d: Counts)
    requires d.i <= 1
    ensures RunFixes(d, JOIN_INPUT) == JoinInput(d)
  {
    var fixes := JOIN_INPUT;
    assert fixes == [fixes[0], fixes[1], fixes[2]];
    RunThree(d, fixes[0], fixes[1], fixes[2]);
    JoinThree(d, fixes[0], fixes[1], fixes[2]);
  }

  function SettleInput(d: Counts): Counts {
    if d.io > 0 || d.cio > 0 || d.tio > 0 then d.(i := 0) else d
  }

  lemma FromInput(d: Counts)
    requires d.i <= 1
    ensures RunFixes(d, FROM_INPUT) == SettleInput(d)
  {
    var fixes := FROM_INPUT;
    assert fixes[0..] == fixes;
    var n0 := FixCounts(d, fixes[0]);
    assert n0 == if d.io > 0 then d.(i := 0) else d;
    RunNext(d, fixes, 0);
    var n1 := FixCounts(n0, fixes[1]);
    assert n1 == if d.cio > 0 then n0.(i := 0) else n0;
    RunNext(n0, fixes, 1);
    var n2 := FixCounts(n1, fixes[2]);
    assert n2 == if d.tio > 0 then n1.(i := 0) else n1;
    RunNext(n1, fixes, 2);
    assert RunFixes(n2, fixes[3..]) == n2;
  }

  function SettleOutput(d: Counts): Counts {
    if d.co > 0 || d.to > 0 || d.io > 0 || d.cio > 0 || d.tio > 0 then d.(o := 0) else d
  }

  /** A call whose destination is its second source only takes away. */
  lemma Absorbs(d: Counts, src2: Class)
    requires d.o <= 1 && src2 != Output
    ensures FixCounts(d, Fix(Output, src2, src2)) == if d.Get(src2) > 0 then d.(o := 0) else d
  {
  }

  lemma FromOutput(d: Counts)
    requires d.o <= 1
    ensures RunFixes(d, FROM_OUTPUT) == SettleOutput(d)
  {
    var fixes := FROM_OUTPUT;
    var n0 := FixCounts(d, fixes[0]);
    var n1 := FixCounts(n0, fixes[1]);
    var n2 := FixCounts(n1, fixes[2]);
    var n3 := FixCounts(n2, fixes[3]);
    var n4 := FixCounts(n3, fixes[4]);
    assert RunFixes(d, fixes) == n4 by {
      assert fixes[0..] == fixes;
      RunNext(d, fixes, 0);
      RunNext(n0, fixes, 1);
      RunNext(n1, fixes, 2);
      RunNext(n2, fixes, 3);
      RunNext(n3, fixes, 4);
      assert RunFixes(n4, fixes[5..]) == n4;
    }
    Absorbs(d, CO);
    Absorbs(n0, TO);
    Absorbs(n1, IO);
    Absorbs(n2, CIO);
    Absorbs(n3, TIO);
  }

  function SettleIO(d: Counts): Counts {
    var k := Min(d.io, d.co);
    var l := Min(d.io - k, d.to);
    var left := d.io - k - l;
    var left' := left - Min(left, d.cio + k);
    d.(io := left' - Min(left', d.tio + l), co := d.co - k, to := d.to - l, cio := d.cio + k, tio := d.tio + l)
  }

  lemma FromIO(d: Counts)
    ensures RunFixes(d, FROM_IO) == SettleIO(d)
  {
    var fixes := FROM_IO;
    assert fixes[0..] == fixes;
    var n0 := FixCounts(d, fixes[0]);
    assert n0 == var k := Min(d.io, d.co);
                 d.(io := d.io - k, co := d.co - k, cio := d.cio + k);
    RunNext(d, fixes, 0);
    var n1 := FixCounts(n0, fixes[1]);
    assert n1 == var k := Min(n0.io, n0.to);
                 n0.(io := n0.io - k, to := n0.to - k, tio := n0.tio + k);
    RunNext(n0, fixes, 1);
    var n2 := FixCounts(n1, fixes[2]);
    assert n2 == n1.(io := n1.io - Min(n1.io, n1.cio));
    RunNext(n1, fixes, 2);
    var n3 := FixCounts(n2, fixes[3]);
    assert n3 == n2.(io := n2.io - Min(n2.io, n2.tio));
    RunNext(n2, fixes, 3);
    assert RunFixes(n3, fixes[4..]) == n3;
  }

  function SettleCO(d: Counts): Counts {
    var k := d.co - Min(d.co, d.to);
    var l := k - Min(k, d.cio);
    d.(co := l - Min(l, d.tio))
  }

  lemma FromCO(d: Counts)
    ensures RunFixes(d, FROM_CO) == SettleCO(d)
  {
    var fixes := FROM_CO;
    assert fixes[0..] == fixes;
    var n0 := FixCounts(d, fixes[0]);
    assert n0 == d.(co := d.co - Min(d.co, d.to));
    RunNext(d, fixes, 0);
    var n1 := FixCounts(n0, fixes[1]);
    assert n1 == n0.(co := n0.co - Min(n0.co, n0.cio));
    RunNext(n0, fixes, 1);
    var n2 := FixCounts(n1, fixes[2]);
    assert n2 == n1.(co := n1.co - Min(n1.co, n1.tio));
    RunNext(n1, fixes, 2);
    assert RunFixes(n2, fixes[3..]) == n2;
  }

  function SettleTO(d: Counts): Counts {
    var k := Min(d.to, d.cio);
    d.(to := d.to - k - Min(d.to - k, d.tio + k), cio := d.cio - k, tio := d.tio + k)
  }

  lemma FromTO(d: Counts)
    ensures RunFixes(d, FROM_TO) == SettleTO(d)
  {
    var fixes := FROM_TO;
    assert fixes[0..] == fixes;
    var n0 := FixCounts(d, fixes[0]);
    assert n0 == var k := Min(d.to, d.cio);
                 d.(to := d.to - k, cio := d.cio - k, tio := d.tio + k);
    RunNext(d, fixes, 0);
    var n1 := FixCounts(n0, fixes[1]);
    assert n1 == n0.(to := n0.to - Min(n0.to, n0.tio));
    RunNext(n0, fixes, 1);
    assert RunFixes(n1, fixes[2..]) == n1;
  }

  function SettleCIO(d: Counts): Counts {
    d.(cio := d.cio - Min(d.cio, d.tio))
  }

  lemma FromCIO(d: Counts)
    ensures RunFixes(d, FROM_CIO) == SettleCIO(d)
  {
    var fixes := FROM_CIO;
    assert fixes[0..] == fixes;
    var n0 := FixCounts(d, fixes[0]);
    assert n0 == d.(cio := d.cio - Min(d.cio, d.tio));
    RunNext(d, fixes, 0);
    assert RunFixes(n0, fixes[1..]) == n0;
  }

  /** The calls before those with IO as first source. */
  function SettleFirst(d: Counts): Counts {
    SettleOutput(SettleInput(JoinInput(d)))
  }

  function SettleLast(d: Counts): Counts {
    SettleCIO(SettleTO(SettleCO(d)))
  }

  /** The whole run of calls, on an ID that is at most once in each list. */
  lemma RunIsSettle(d: Counts)
    requires Once(d)
    ensures RunFixes(d, Fixes()) == SettleLast(SettleIO(SettleFirst(d)))
  {
    var n0 := JoinInput(d);
    var n1 := SettleInput(n0);
    var n2 := SettleOutput(n1);
    var n3 := SettleIO(n2);
    var n4 := SettleCO(n3);
    var n5 := SettleTO(n4);
    JoinFromInput(d);
    FromInput(n0);
    FromOutput(n1);
    FromIO(n2);
    FromCO(n3);
    FromTO(n4);
    FromCIO(n5);
    RunFixesConcat(d, JOIN_INPUT, FROM_INPUT + (FROM_OUTPUT + (FROM_IO + (FROM_CO + (FROM_TO + FROM_CIO)))));
    RunFixesConcat(n0, FROM_INPUT, FROM_OUTPUT + (FROM_IO + (FROM_CO + (FROM_TO + FROM_CIO))));
    RunFixesConcat(n1, FROM_OUTPUT, FROM_IO + (FROM_CO + (FROM_TO + FROM_CIO)));
    RunFixesConcat(n2, FROM_IO, FROM_CO + (FROM_TO + FROM_CIO));
    RunFixesConcat(n3, FROM_CO, FROM_TO + FROM_CIO);
    RunFixesConcat(n4, FROM_TO, FROM_CIO);
  }

  /** What the calls from IO on must leave for the rest to separate. */
  predicate Separable(n: Counts) {
    if n.io > 0 then n.co == 0 && n.to == 0 && n.cio == 0 && n.tio == 0
    else !(n.to == 0 && n.cio > n.tio > 0)
  }

  lemma LastCalls(n: Counts)
    requires n.i == 0 && n.o == 0 && n.co <= 1 && n.to <= 1 && n.cio <= 2
    ensures Spread(SettleLast(n)) <= 1 <==> Separable(n)
  {
    var n1 := SettleCO(n);
    assert n1.co > 0 <==> n.co > 0 && n.to == 0 && n.cio == 0 && n.tio == 0;
    var n2 := SettleTO(n1);
    assert n.to == 0 ==> n2 == n1;
    assert n.to == 1 && n.cio == 0 ==> n2 == n1.(to := if n.tio > 0 then 0 else 1);
    assert n.to == 1 && n.cio > 0 ==> n2 == n1.(to := 0, cio := n.cio - 1, tio := n.tio + 1);
  }

  /** An ID that the first calls leave in Input or Output is nowhere else. */
  lemma FirstCallsAlone(d: Counts)
    requires Once(d) && SettleFirst(d).i + SettleFirst(d).o > 0
    ensures SettleFirst(d) == d && Spread(d) == 1
    ensures SettleLast(SettleIO(d)) == d
  {
  }

  lemma FirstCallsBound(d: Counts)
    requires Once(d) && SettleFirst(d).i + SettleFirst(d).o == 0
    ensures var n := SettleIO(SettleFirst(d));
            n.i == 0 && n.o == 0 && n.co <= 1 && n.to <= 1 && n.cio <= 2
  {
  }

  /** At most one element of each list has the ID. */
  predicate Once(d: Counts) {
    d.i <= 1 && d.o <= 1 && d.io <= 1 && d.co <= 1 && d.to <= 1 && d.cio <= 1 && d.tio <= 1
  }

  // The first calls, by what an ID in Input is joined with.

  lemma NoInput(d: Counts)
    requires Once(d) && d.i == 0
    ensures Separable(SettleIO(d.(o := 0))) <==> !Stuck(d)
  {
    IOOnce(d.(o := 0));
  }

  /** The calls from IO for an ID that is in it at most once. */
  lemma IOOnce(n: Counts)
    requires n.io <= 1
    ensures SettleIO(n) ==
            if n.io == 0 then n
            else if n.co > 0 then n.(io := 0, co := n.co - 1, cio := n.cio + 1)
            else if n.to > 0 then n.(io := 0, to := n.to - 1, tio := n.tio + 1)
            else if n.cio > 0 || n.tio > 0 then n.(io := 0)
            else n
  {
  }

  lemma InputWithOutput(d: Counts)
    requires Once(d) && d.i == 1 && d.o == 1
    ensures Separable(SettleIO(d.(i := 0, o := 0, io := d.io + 1))) <==> !Stuck(d)
  {
  }

  lemma InputWithCO(d: Counts)
    requires Once(d) && d.i == 1 && d.o == 0 && d.co == 1
    ensures Separable(SettleIO(d.(i := 0, co := 0, cio := d.cio + 1))) <==> !Stuck(d)
  {
  }

  lemma InputWithTO(d: Counts)
    requires Once(d) && d.i == 1 && d.o == 0 && d.co == 0 && d.to == 1
    ensures Separable(SettleIO(d.(i := 0, to := 0, tio := d.tio + 1))) <==> !Stuck(d)
  {
  }

  lemma InputAlone(d: Counts)
    requires Once(d) && d.i == 1 && d.o == 0 && d.co == 0 && d.to == 0
    ensures Separable(SettleIO(d.(i := 0))) <==> !Stuck(d)
  {
  }

  lemma FirstCalls(d: Counts)
    requires Once(d) && SettleFirst(d).i + SettleFirst(d).o == 0
    ensures Separable(SettleIO(SettleFirst(d))) <==> !Stuck(d)
  {
    if d.i == 0 {
      assert SettleFirst(d) == d.(o := 0);
      NoInput(d);
    } else if d.o > 0 {
      assert SettleFirst(d) == d.(i := 0, o := 0, io := d.io + 1);
      InputWithOutput(d);
    } else if d.co > 0 {
      assert SettleFirst(d) == d.(i := 0, co := 0, cio := d.cio + 1);
      InputWithCO(d);
    } else if d.to > 0 {
      assert SettleFirst(d) == d.(i := 0, to := 0, tio := d.tio + 1);
      InputWithTO(d);
    } else {
      assert SettleFirst(d) == d.(i := 0);
      InputAlone(d);
    }
  }

  lemma SettledSpread(d: Counts)
    requires Once(d)
    ensures Spread(SettleLast(SettleIO(SettleFirst(d)))) <= 1 <==> !Stuck(d)
  {
    var n := SettleFirst(d);
    if n.i + n.o > 0 {
      FirstCallsAlone(d);
    } else {
      FirstCalls(d);
      FirstCallsBound(d);
      LastCalls(SettleIO(n));
    }
  }

  lemma DedupKeepsSpread(n: Counts)
    ensures Spread(DedupCounts(n)) == Spread(n)
    ensures Stuck(DedupCounts(n)) <==> Stuck(n)
    ensures DedupCounts(DedupCounts(n)) == DedupCounts(n)
  {
  }

  /** The pass leaves an ID in at most one list exactly when it does not start from
      one of the stuck combinations. */
  lemma MergeSeparates(n: Counts)
    ensures Spread(MergeCounts(n)) <= 1 <==> !Stuck(n)
  {
    var d := DedupCounts(n);
    DedupKeepsSpread(n);
    DedupKeepsSpread(RunFixes(d, Fixes()));
    RunIsSettle(d);
    SettledSpread(d);
  }

  function StuckEnd(d: Counts): Counts {
    if d.co > 0 then Counts(0, 0, 0, 0, 0, 1, 1) else Counts(0, 0, 1, 0, 0, Indicator(d.cio), Indicator(d.tio))
  }

  // Where the first calls leave a stuck ID, by how often it is in Input and Output.

  lemma StuckNoInput(d: Counts)
    requires Once(d) && Stuck(d) && d.i == 0
    ensures SettleIO(SettleFirst(d)) == d.(o := 0, io := 0, co := 0, cio := 2)
  {
    assert SettleFirst(d) == d.(o := 0);
    IOOnce(d.(o := 0));
  }

  lemma StuckInput(d: Counts)
    requires Once(d) && Stuck(d) && d.i == 1 && d.o == 0
    ensures SettleIO(SettleFirst(d)) == d.(i := 0, io := 0, co := 0, to := 0, cio := 2, tio := 1)
  {
    var n := d.(i := 0, co := 0, cio := d.cio + 1);
    assert SettleFirst(d) == n;
    IOOnce(n);
  }

  lemma StuckBoth(d: Counts)
    requires Once(d) && Stuck(d) && d.i == 1 && d.o == 1
    ensures SettleIO(SettleFirst(d))
         == if d.co == 1 then d.(i := 0, o := 0, io := 0, co := 0, to := 0, cio := 2, tio := 1) else d.(i := 0, o := 0)
  {
    assert SettleFirst(d) == d.(i := 0, o := 0, io := d.io + 1);
  }

  lemma CalledWithNone(n: Counts)
    ensures n.co == 0 ==> SettleCO(n) == n
    ensures n.to == 0 ==> SettleTO(n) == n
    ensures SettleCIO(n) == n.(cio := n.cio - Min(n.cio, n.tio))
  {
  }

  lemma StuckLast(n: Counts)
    requires n.co == 0 && n.to == 0
    ensures SettleLast(n) == n.(cio := n.cio - Min(n.cio, n.tio))
  {
    CalledWithNone(n);
  }

  /** Where that is, and that the last calls end from there. */
  lemma StuckFirst(d: Counts) returns (n: Counts)
    requires Once(d) && Stuck(d)
    ensures n == SettleIO(SettleFirst(d)) && n.co == 0 && n.to == 0
    ensures n.(cio := n.cio - Min(n.cio, n.tio)) == StuckEnd(d)
  {
    if d.i == 0 {
      n := d.(o := 0, io := 0, co := 0, cio := 2);
      StuckNoInput(d);
    } else if d.o == 0 {
      n := d.(i := 0, io := 0, co := 0, to := 0, cio := 2, tio := 1);
      StuckInput(d);
    } else {
      n := if d.co == 1 then d.(i := 0, o := 0, io := 0, co := 0, to := 0, cio := 2, tio := 1) else d.(i := 0, o := 0);
      StuckBoth(d);
    }
  }

  lemma StuckSettles(d: Counts)
    requires Once(d) && Stuck(d)
    ensures SettleLast(SettleIO(SettleFirst(d))) == StuckEnd(d)
  {
    var n := StuckFirst(d);
    StuckLast(n);
  }

  lemma StuckEndDedups(n: Counts)
    requires Stuck(n)
    ensures DedupCounts(StuckEnd(DedupCounts(n))) == StuckEnd(n)
  {
  }

  lemma StuckEndIsTwo(n: Counts)
    requires Stuck(n)
    ensures Spread(StuckEnd(n)) == 2
  {
  }

  /** An ID that starts stuck ends in exactly two lists: in CIO and TIO if it was in
      CO, and otherwise in IO and the one of CIO and TIO that it was in. */
  lemma StuckEndsInTwo(n: Counts)
    requires Stuck(n)
    ensures MergeCounts(n) == StuckEnd(n) && Spread(MergeCounts(n)) == 2
  {
    var d := DedupCounts(n);
    DedupKeepsSpread(n);
    RunIsSettle(d);
    StuckSettles(d);
    StuckEndDedups(n);
    StuckEndIsTwo(n);
  }

  /** For example once each in I, O, IO and CIO, which ends in IO and CIO. */
  lemma StuckExample()
    ensures Stuck(Counts(1, 1, 1, 0, 0, 1, 0)) && MergeCounts(Counts(1, 1, 1, 0, 0, 1, 0)) == Counts(0, 0, 1, 0, 0, 1, 0)
  {
    StuckEndsInTwo(Counts(1, 1, 1, 0, 0, 1, 0));
  }

  /** Three lists are never too many. */
  lemma ThreeListsSeparate(n: Counts)
    requires Spread(n) <= 3
    ensures !Stuck(n)
  {
  }

  /** An ID that ends in one list ends in the list of its classes' join. */
  lemma SingleIsJoin(n: Counts, c: Class)
    requires !Stuck(n)
    ensures MergeCounts(n).Get(c) > 0 <==> JoinOf(n) == Some(c)
  {
    var m := MergeCounts(n);
    MergeSeparates(n);
    MergeKeepsJoin(n);
    if m.Get(c) > 0 {
      OnlyListIsJoin(m, c);
    } else if JoinOf(m).Some? {
      OnlyListIsJoin(m, SomeList(m));
    }
  }

  lemma OnlyListIsJoin(m: Counts, c: Class)
    requires Spread(m) <= 1 && m.Get(c) > 0
    ensures JoinOf(m) == Some(c)
  {
    HalvesDetermine(Some(c), JoinOf(m));
  }

  function SomeList(n: Counts): (c: Class)
    requires JoinOf(n).Some?
    ensures n.Get(c) > 0
  {
    if n.i > 0 then Input else if n.o > 0 then Output else if n.io > 0 then IO else if n.co > 0 then CO
    else if n.to > 0 then TO else if n.cio > 0 then CIO else TIO
  }

  // ---- All seven lists -----------------------------------------------------------------

  type Lists = map<Class, seq<Saved>>

  function Get(l: Lists, c: Class): seq<Saved> {
    if c in l then l[c] else []
  }

  function CountsIn(l: Lists, id: nat): Counts {
    Counts(IDs(Get(l, Input))[id], IDs(Get(l, Output))[id], IDs(Get(l, IO))[id], IDs(Get(l, CO))[id],
           IDs(Get(l, TO))[id], IDs(Get(l, CIO))[id], IDs(Get(l, TIO))[id])
  }

  function DedupLists(l: Lists): Lists {
    map c: Class | true :: Deduped(Get(l, c), {})
  }

  /** A list after one call, by the parts it plays in it. */
  function Place(m: Matched, own: seq<Saved>, isSrc1: bool, isSrc2: bool, isDst: bool): seq<Saved> {
    (if isSrc1 then m.rest1 else if isSrc2 then m.rest2 else own) + (if isDst then m.added else [])
  }

  lemma Placed(m: Matched, own: seq<Saved>, isSrc1: bool, isSrc2: bool, isDst: bool)
    ensures !isDst ==> Place(m, own, isSrc1, isSrc2, isDst) == if isSrc1 then m.rest1 else if isSrc2 then m.rest2 else own
  {
  }

  function FixList(l: Lists, f: Fix, c: Class): seq<Saved> {
    Place(Match(Get(l, f.src1), Get(l, f.src2)), Get(l, c), c == f.src1, c == f.src2, c == f.dst)
  }

  function FixLists(l: Lists, f: Fix): Lists {
    map c: Class | true :: FixList(l, f, c)
  }

  function RunFixLists(l: Lists, fixes: seq<Fix>): Lists
    decreases |fixes|
  {
    if fixes == [] then l else RunFixLists(FixLists(l, fixes[0]), fixes[1..])
  }

  lemma RunNextLists(l: Lists, fixes: seq<Fix>, k: nat)
    requires k < |fixes|
    ensures RunFixLists(l, fixes[k..]) == RunFixLists(FixLists(l, fixes[k]), fixes[k + 1..])
  {
  }

  lemma {:induction false} RunFixListsConcat(l: Lists, fixes: seq<Fix>, more: seq<Fix>)
    ensures RunFixLists(l, fixes + more) == RunFixLists(RunFixLists(l, fixes), more)
    decreases |fixes|
  {
    if fixes == [] {
      assert fixes + more == more;
    } else {
      assert (fixes + more)[1..] == fixes[1..] + more;
      RunFixListsConcat(FixLists(l, fixes[0]), fixes[1..], more);
    }
  }

  lemma RunFixListsGroups(l: Lists)
    ensures RunFixLists(RunFixLists(RunFixLists(RunFixLists(RunFixLists(RunFixLists(RunFixLists(l,
              JOIN_INPUT), FROM_INPUT), FROM_OUTPUT), FROM_IO), FROM_CO), FROM_TO), FROM_CIO)
         == RunFixLists(l, Fixes())
  {
    var l1 := RunFixLists(l, JOIN_INPUT);
    var l2 := RunFixLists(l1, FROM_INPUT);
    var l3 := RunFixLists(l2, FROM_OUTPUT);
    var l4 := RunFixLists(l3, FROM_IO);
    var l5 := RunFixLists(l4, FROM_CO);
    RunFixListsConcat(l, JOIN_INPUT, FROM_INPUT + (FROM_OUTPUT + (FROM_IO + (FROM_CO + (FROM_TO + FROM_CIO)))));
    RunFixListsConcat(l1, FROM_INPUT, FROM_OUTPUT + (FROM_IO + (FROM_CO + (FROM_TO + FROM_CIO))));
    RunFixListsConcat(l2, FROM_OUTPUT, FROM_IO + (FROM_CO + (FROM_TO + FROM_CIO)));
    RunFixListsConcat(l3, FROM_IO, FROM_CO + (FROM_TO + FROM_CIO));
    RunFixListsConcat(l4, FROM_CO, FROM_TO + FROM_CIO);
    RunFixListsConcat(l5, FROM_TO, FROM_CIO);
  }

  /** The whole report-time pass. */
  function MergeLists(l: Lists): Lists {
    DedupLists(RunFixLists(DedupLists(l), Fixes()))
  }

  lemma DedupListsCounts(l: Lists, id: nat)
    ensures CountsIn(DedupLists(l), id) == DedupCounts(CountsIn(l, id))
  {
    forall c ensures IDs(Get(DedupLists(l), c))[id] == Min(IDs(Get(l, c))[id], 1) {
      DedupedCounts(Get(l, c), {}, id);
    }
  }

  lemma CountsGet(l: Lists, id: nat, c: Class)
    ensures CountsIn(l, id).Get(c) == IDs(Get(l, c))[id]
  {
  }

  lemma PlaceCounts(s1: seq<Saved>, s2: seq<Saved>, own: seq<Saved>, isSrc1: bool, isSrc2: bool, isDst: bool, id: nat)
    requires (isSrc1 ==> own == s1 && !isSrc2) && (isSrc2 ==> own == s2)
    ensures var k := Min(IDs(s1)[id], IDs(s2)[id]);
            IDs(Place(Match(s1, s2), own, isSrc1, isSrc2, isDst))[id]
              == IDs(own)[id] - (if isSrc1 || isSrc2 then k else 0) + (if isDst then k else 0)
  {
    var m := Match(s1, s2);
    MatchCounts(s1, s2, id);
    IDsConcat(if isSrc1 then m.rest1 else if isSrc2 then m.rest2 else own, if isDst then m.added else []);
  }

  lemma FixListCounts(l: Lists, f: Fix, c: Class, id: nat)
    requires JoinFix(f)
    ensures IDs(FixList(l, f, c))[id] == Amount(CountsIn(l, id), f, c)
  {
    CountsGet(l, id, c);
    CountsGet(l, id, f.src1);
    CountsGet(l, id, f.src2);
    PlaceAmount(Get(l, f.src1), Get(l, f.src2), Get(l, c), CountsIn(l, id), f, c, id);
  }

  lemma PlaceAmount(s1: seq<Saved>, s2: seq<Saved>, own: seq<Saved>, n: Counts, f: Fix, c: Class, id: nat)
    requires f.src1 != f.src2 && (c == f.src1 ==> own == s1) && (c == f.src2 ==> own == s2)
    requires n.Get(f.src1) == IDs(s1)[id] && n.Get(f.src2) == IDs(s2)[id] && n.Get(c) == IDs(own)[id]
    ensures IDs(Place(Match(s1, s2), own, c == f.src1, c == f.src2, c == f.dst))[id] == Amount(n, f, c)
  {
    PlaceCounts(s1, s2, own, c == f.src1, c == f.src2, c == f.dst, id);
  }

  lemma FixListsCounts(l: Lists, f: Fix, id: nat)
    requires JoinFix(f)
    ensures CountsIn(FixLists(l, f), id) == FixCounts(CountsIn(l, id), f)
  {
    forall c ensures IDs(Get(FixLists(l, f), c))[id] == Amount(CountsIn(l, id), f, c) {
      FixListCounts(l, f, c, id);
    }
  }

  lemma {:induction false} RunFixListsCounts(l: Lists, fixes: seq<Fix>, id: nat)
    requires forall i :: 0 <= i < |fixes| ==> JoinFix(fixes[i])
    ensures CountsIn(RunFixLists(l, fixes), id) == RunFixes(CountsIn(l, id), fixes)
    decreases |fixes|
  {
    if fixes == [] {
    } else {
      FixListsCounts(l, fixes[0], id);
      RunFixListsCounts(FixLists(l, fixes[0]), fixes[1..], id);
    }
  }

  /** What the pass does to the lists is, for each ID, what it does to the ID. */
  lemma MergeListsCounts(l: Lists, id: nat)
    ensures CountsIn(MergeLists(l), id) == MergeCounts(CountsIn(l, id))
  {
    var fixes := Fixes();
    forall i | 0 <= i < |fixes| ensures JoinFix(fixes[i]) {
      FixesJoin(i);
    }
    DedupListsCounts(l, id);
    RunFixListsCounts(DedupLists(l), fixes, id);
    DedupListsCounts(RunFixLists(DedupLists(l), fixes), id);
  }

  /** Two lists have an ID in common. */
  ghost predicate ShareIDs(s: seq<Saved>, t: seq<Saved>) {
    exists id :: IDs(s)[id] > 0 && IDs(t)[id] > 0
  }

  ghost predicate Share(l: Lists, c: Class, d: Class) {
    ShareIDs(Get(l, c), Get(l, d))
  }

  /** No ID is in two lists. */
  ghost predicate Disjoint(l: Lists) {
    forall c: Class, d: Class :: c != d ==> !Share(l, c, d)
  }

  lemma DisjointPairs(l: Lists)
    ensures !Disjoint(l) <==>
      (Share(l, Input, Output) || Share(l, Input, IO) || Share(l, Input, CO) || Share(l, Input, TO) || Share(l, Input, CIO) || Share(l, Input, TIO) ||
       Share(l, Output, IO) || Share(l, Output, CO) || Share(l, Output, TO) || Share(l, Output, CIO) || Share(l, Output, TIO) ||
       Share(l, IO, CO) || Share(l, IO, TO) || Share(l, IO, CIO) || Share(l, IO, TIO) ||
       Share(l, CO, TO) || Share(l, CO, CIO) || Share(l, CO, TIO) ||
       Share(l, TO, CIO) || Share(l, TO, TIO) ||
       Share(l, CIO, TIO))
  {
    forall c: Class, d: Class ensures Share(l, c, d) == Share(l, d, c) {
    }
  }

  lemma OneList(n: Counts, c: Class, d: Class)
    requires Spread(n) <= 1 && c != d
    ensures n.Get(c) == 0 || n.Get(d) == 0
  {
  }

  lemma DisjointIsSpread(l: Lists)
    ensures Disjoint(l) <==> forall id :: Spread(CountsIn(l, id)) <= 1
  {
    if Disjoint(l) {
      forall id ensures Spread(CountsIn(l, id)) <= 1 {
        SpreadPair(l, id);
      }
    } else {
      var c: Class, d: Class :| c != d && Share(l, c, d);
      var id :| IDs(Get(l, c))[id] > 0 && IDs(Get(l, d))[id] > 0;
      CountsGet(l, id, c);
      CountsGet(l, id, d);
      if Spread(CountsIn(l, id)) <= 1 {
        OneList(CountsIn(l, id), c, d);
      }
    }
  }

  lemma SpreadPair(l: Lists, id: nat)
    requires Disjoint(l)
    ensures Spread(CountsIn(l, id)) <= 1
  {
    if Spread(CountsIn(l, id)) > 1 {
      var c, d := TwoLists(CountsIn(l, id));
      CountsGet(l, id, c);
      CountsGet(l, id, d);
      assert Share(l, c, d);
    }
  }

  lemma TwoLists(n: Counts) returns (c: Class, d: Class)
    requires Spread(n) > 1
    ensures c != d && n.Get(c) > 0 && n.Get(d) > 0
  {
    c := if n.i > 0 then Input else if n.o > 0 then Output else if n.io > 0 then IO else if n.co > 0 then CO
         else if n.to > 0 then TO else CIO;
    d := if n.tio > 0 then TIO else if n.cio > 0 then CIO else if n.to > 0 then TO else if n.co > 0 then CO
         else if n.io > 0 then IO else Output;
  }

  /** The pass leaves the lists pairwise disjoint exactly when no ID starts from a
      stuck combination. */
  lemma MergeDisjoint(l: Lists)
    ensures Disjoint(MergeLists(l)) <==> forall id :: !Stuck(CountsIn(l, id))
  {
    DisjointIsSpread(MergeLists(l));
    forall id ensures Spread(CountsIn(MergeLists(l), id)) <= 1 <==> !Stuck(CountsIn(l, id)) {
      MergeSeparatesIn(l, id);
    }
  }

  lemma MergeSeparatesIn(l: Lists, id: nat)
    ensures Spread(CountsIn(MergeLists(l), id)) <= 1 <==> !Stuck(CountsIn(l, id))
  {
    MergeListsCounts(l, id);
    MergeSeparates(CountsIn(l, id));
  }

  /** In particular when no ID is in more than three lists. */
  lemma MergeDisjointThree(l: Lists)
    requires forall id :: Spread(CountsIn(l, id)) <= 3
    ensures Disjoint(MergeLists(l))
  {
    forall id ensures !Stuck(CountsIn(l, id)) {
      ThreeListsSeparate(CountsIn(l, id));
    }
    MergeDisjoint(l);
  }

  /** After the pass an ID that no stuck combination held is in exactly the list of
      the join of the classes it came in. */
  lemma MergedInJoin(l: Lists, id: nat, c: Class)
    requires !Stuck(CountsIn(l, id))
    ensures IDs(Get(MergeLists(l), c))[id] > 0 <==> JoinOf(CountsIn(l, id)) == Some(c)
  {
    var n := CountsIn(l, id);
    MergeListsCounts(l, id);
    CountsGet(MergeLists(l), id, c);
    SingleIsJoin(n, c);
  }

  /** Every element after the pass was in some list before. */
  function Everything(l: Lists): set<Saved> {
    set c: Class, x | x in Get(l, c) :: x
  }

  lemma PlacedFrom(s1: seq<Saved>, s2: seq<Saved>, own: seq<Saved>, isSrc1: bool, isSrc2: bool, isDst: bool, x: Saved)
    requires x in Place(Match(s1, s2), own, isSrc1, isSrc2, isDst)
    ensures x in s1 || x in s2 || x in own
  {
    var m := Match(s1, s2);
    MatchContents(s1, s2);
    if x in m.rest1 || x in m.added {
      assert x in multiset(m.rest1) + multiset(m.added);
      assert x in multiset(s1);
    } else if x in m.rest2 {
      assert x in multiset(m.rest2);
      assert x in multiset(s2);
    }
  }

  lemma FixListsFrom(l: Lists, f: Fix)
    ensures Everything(FixLists(l, f)) <= Everything(l)
  {
    forall x | x in Everything(FixLists(l, f)) ensures x in Everything(l) {
      var c: Class :| x in Get(FixLists(l, f), c);
      PlacedFrom(Get(l, f.src1), Get(l, f.src2), Get(l, c), c == f.src1, c == f.src2, c == f.dst, x);
    }
  }

  lemma {:induction false} DedupedFrom(s: seq<Saved>, met: set<nat>, x: Saved)
    requires x in Deduped(s, met)
    ensures x in s
    decreases |s|
  {
    if s[0].uniqueID in met {
      DedupedFrom(s[1..], met, x);
    } else if x != s[0] {
      DedupedFrom(s[1..], met + {s[0].uniqueID}, x);
    }
  }

  lemma DedupListsFrom(l: Lists)
    ensures Everything(DedupLists(l)) <= Everything(l)
  {
    forall x | x in Everything(DedupLists(l)) ensures x in Everything(l) {
      var c: Class :| x in Get(DedupLists(l), c);
      DedupedFrom(Get(l, c), {}, x);
    }
  }

  lemma {:induction false} RunFixListsFrom(l: Lists, fixes: seq<Fix>)
    ensures Everything(RunFixLists(l, fixes)) <= Everything(l)
    decreases |fixes|
  {
    if fixes == [] {
    } else {
      FixListsFrom(l, fixes[0]);
      RunFixListsFrom(FixLists(l, fixes[0]), fixes[1..]);
    }
  }

  /** The pass makes nothing up. */
  lemma MergeFrom(l: Lists)
    ensures Everything(MergeLists(l)) <= Everything(l)
  {
    DedupListsFrom(l);
    RunFixListsFrom(DedupLists(l), Fixes());
    DedupListsFrom(RunFixLists(DedupLists(l), Fixes()));
  }
}
