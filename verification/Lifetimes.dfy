/** The processing pass told by its entries alone: which block an address is in, which
    facts an allocation still holds, and which have been handed over or made final. */
module Lifetimes {
  import opened Classes
  import opened Processing
  import B = Blocks
  import L = Ledger

  // ---- Blocks ----------------------------------------------------------------------------

  /** Entry `i` placed a block that is still there before entry `n`: no free since has
      had its start. */
  ghost predicate Standing(es: seq<Entry>, n: nat, i: nat) {
    i < n <= |es| && es[i].AddAlloc? && forall j :: i < j < n ==> !(es[j].FreeAlloc? && es[j].ptr == es[i].ptr)
  }

  /** ... and the address lies in it. */
  ghost predicate Hits(es: seq<Entry>, n: nat, i: nat, ptr: nat) {
    Standing(es, n, i) && (ptr == es[i].ptr || es[i].ptr <= ptr < es[i].ptr + es[i].size)
  }

  /** A standing block is in the table for its origin's allocation, which has the
      place, the length and the region that the entry gave it. */
  ghost predicate PlacedAs(m: Memory, e: Entry) {
    && e.AddAlloc? && e.ptr in m.owner && m.owner[e.ptr] == e.origin && e.origin in m.allocs
    && var a := m.allocs[e.origin]; a.pointer == e.ptr && a.length == e.size && a.affiliated == e.affiliated
  }

  /** The table is told by the entries. */
  ghost predicate Told(es: seq<Entry>, n: nat, m: Memory) {
    && (forall i: nat :: Standing(es, n, i) ==> PlacedAs(m, es[i]))
    && (forall s: nat :: s in m.owner ==> exists i: nat :: Standing(es, n, i) && es[i].ptr == s)
  }

  lemma StandingStep(es: seq<Entry>, n: nat, i: nat)
    requires n < |es|
    ensures Standing(es, n + 1, i) <==>
            || (i == n && es[n].AddAlloc?)
            || (Standing(es, n, i) && !(es[n].FreeAlloc? && es[n].ptr == es[i].ptr))
  {
  }

  lemma ToldByAdd(p: Parents, cycles: bool, es: seq<Entry>, n: nat, m: Memory)
    requires n < |es| && Told(es, n, m) && Sound(p, m) && Permitted(p, cycles, m, es[n]) && es[n].AddAlloc?
    ensures Told(es, n + 1, Processed(p, cycles, m, es[n]))
  {
    var e, r := es[n], Processed(p, cycles, m, es[n]);
    AddAllocInserts(p, cycles, m, e);
    forall i: nat | Standing(es, n + 1, i) ensures PlacedAs(r, es[i]) {
      StandingStep(es, n, i);
      if i != n {
        assert m.owner[es[i].ptr] in m.owner.Values;
      }
    }
    forall s: nat | s in r.owner ensures exists i: nat :: Standing(es, n + 1, i) && es[i].ptr == s {
      StandingStep(es, n, n);
      if s != e.ptr {
        var i: nat :| Standing(es, n, i) && es[i].ptr == s;
        StandingStep(es, n, i);
      }
    }
  }

  /** What other entries leave of the allocations and their places. */
  lemma OtherKeeps(p: Parents, cycles: bool, m: Memory, e: Entry) returns (r: Memory)
    requires Sound(p, m) && Permitted(p, cycles, m, e) && !e.AddAlloc?
    ensures r == Processed(p, cycles, m, e)
    ensures r.owner == if e.FreeAlloc? then m.owner - {e.ptr} else m.owner
    ensures r.allocs.Keys == m.allocs.Keys
    ensures forall o :: o in m.allocs ==> SamePlace(m.allocs[o], r.allocs[o])
  {
    r := Processed(p, cycles, m, e);
    if e.FreeAlloc? {
      LocatedIsLive(p, m, e.ptr);
      assert e.ptr in m.owner ==> B.Covers(m.table, e.ptr, e.ptr);
      assert e.ptr !in m.owner ==> m.owner - {e.ptr} == m.owner;
    }
  }

  predicate SamePlace(a: Alloc, b: Alloc) {
    a.pointer == b.pointer && a.length == b.length && a.affiliated == b.affiliated
  }

  lemma ToldByOther(p: Parents, cycles: bool, es: seq<Entry>, n: nat, m: Memory)
    requires n < |es| && Told(es, n, m) && Sound(p, m) && Permitted(p, cycles, m, es[n]) && !es[n].AddAlloc?
    ensures Told(es, n + 1, Processed(p, cycles, m, es[n]))
  {
    var r := OtherKeeps(p, cycles, m, es[n]);
    forall i: nat | Standing(es, n + 1, i) ensures PlacedAs(r, es[i]) {
      StandingStep(es, n, i);
    }
    forall s: nat | s in r.owner ensures exists i: nat :: Standing(es, n + 1, i) && es[i].ptr == s {
      var i: nat :| Standing(es, n, i) && es[i].ptr == s;
      StandingStep(es, n, i);
    }
  }

  /** After any run, each entry that placed a block which still stands gave the
      allocation its place and its region, and there is no other block. */
  lemma {:induction false} RunTold(p: Parents, cycles: bool, es: seq<Entry>, n: nat, m: Memory)
    requires n <= |es| && After(p, cycles, es[..n]) == Some(m)
    ensures Told(es, n, m) && Sound(p, m)
    decreases n
  {
    RunIsSound(p, cycles, es[..n]);
    if n == 0 {
    } else {
      assert es[..n][..n - 1] == es[..n - 1];
      var before := After(p, cycles, es[..n - 1]).value;
      RunTold(p, cycles, es, n - 1, before);
      if es[n - 1].AddAlloc? {
        ToldByAdd(p, cycles, es, n - 1, before);
      } else {
        ToldByOther(p, cycles, es, n - 1, before);
      }
    }
  }

  /** The allocation with an address is the one whose standing block has it. */
  lemma LocatedTold(p: Parents, es: seq<Entry>, n: nat, m: Memory, ptr: nat)
    requires Told(es, n, m) && Sound(p, m) && ptr < B.SENTINEL
    ensures Located(m, ptr).None? ==> forall i: nat :: !Hits(es, n, i, ptr)
    ensures Located(m, ptr).Some? ==> exists i: nat :: Hits(es, n, i, ptr) && es[i].origin == Located(m, ptr).value
    ensures forall i: nat :: Hits(es, n, i, ptr) ==> Located(m, ptr) == Some(es[i].origin) && PlacedAs(m, es[i])
  {
    LocatedIsLive(p, m, ptr);
    forall i: nat | Hits(es, n, i, ptr) ensures Located(m, ptr) == Some(es[i].origin) && PlacedAs(m, es[i]) {
      HitIsLocated(p, es, n, m, ptr, i);
    }
    if Located(m, ptr).Some? {
      var a := m.allocs[Located(m, ptr).value];
      var i: nat :| Standing(es, n, i) && es[i].ptr == a.pointer;
      assert Hits(es, n, i, ptr);
    }
  }

  lemma HitIsLocated(p: Parents, es: seq<Entry>, n: nat, m: Memory, ptr: nat, i: nat)
    requires Told(es, n, m) && Sound(p, m) && ptr < B.SENTINEL && Hits(es, n, i, ptr)
    ensures Located(m, ptr) == Some(es[i].origin) && PlacedAs(m, es[i])
  {
    assert PlacedAs(m, es[i]);
    assert B.Covers(m.table, es[i].ptr, ptr);
    B.OneCovers(m.table, ptr, es[i].ptr, BlockAt(m.table, ptr).value);
  }

  // ---- Facts -----------------------------------------------------------------------------

  /** A region is another one or above it. */
  ghost predicate Above(p: Parents, t: nat, s: Option<nat>) {
    Rooted(p) && (s.Some? ==> s.value in p) && t in Chain(p, s)
  }

  ghost predicate ClosedUpwards(p: Parents, c: set<nat>) {
    forall t :: t in c && t in p && p[t].Some? ==> p[t].value in c
  }

  /** The chain is the least set that has the region and every parent of its members. */
  lemma {:induction false} ChainIsLeast(p: Parents, s: Option<nat>, c: set<nat>)
    requires Rooted(p) && (s.Some? ==> s.value in p)
    ensures (s.Some? ==> s.value in Chain(p, s)) && ClosedUpwards(p, Chain(p, s))
    ensures (s.Some? ==> s.value in c) && ClosedUpwards(p, c) ==> Chain(p, s) <= c
    decreases if s.Some? then s.value + 1 else 0
  {
    if s.None? {
    } else {
      ChainIsLeast(p, p[s.value], c);
    }
  }

  /** Entry `k` records the fact: an access with its class, in its region or one below
      it, at its offset in the block of its allocation. */
  ghost predicate Notes(p: Parents, es: seq<Entry>, k: nat, f: Fact) {
    && k < |es| && es[k].AddTo? && es[k].cls == Some(f.cls) && Above(p, f.state, Some(es[k].state))
    && exists i: nat :: Hits(es, k, i, es[k].ptr) && es[i].origin == f.alloc && f.offset == es[k].ptr - es[i].ptr
  }

  /** Entry `k` frees, by any of its addresses, the allocation that entry `i` placed. */
  ghost predicate Frees(es: seq<Entry>, k: nat, i: nat) {
    k < |es| && es[k].FreeAlloc? && Hits(es, k, i, es[k].ptr)
  }

  /** The region is on the chains both of the region that entry `k` frees in and of the
      one that entry `i` placed the block in. */
  ghost predicate OnBoth(p: Parents, es: seq<Entry>, k: nat, i: nat, s: nat)
    requires k < |es| && i < |es| && es[k].FreeAlloc? && es[i].AddAlloc?
  {
    Above(p, s, es[k].affiliated) && Above(p, s, es[i].affiliated)
  }

  /** Entry `k` makes the allocation forget the fact: it frees it, and the region is on
      both chains. */
  ghost predicate Forgets(p: Parents, es: seq<Entry>, k: nat, f: Fact) {
    exists i: nat :: Frees(es, k, i) && es[i].origin == f.alloc && OnBoth(p, es, k, i, f.state)
  }

  /** Entry `k` makes the allocation hand the fact to its region: it frees it, and the
      region is not on both chains, or it is a commit and the allocation's block stands. */
  ghost predicate Hands(p: Parents, es: seq<Entry>, k: nat, f: Fact) {
    || (exists i: nat :: Frees(es, k, i) && es[i].origin == f.alloc && !OnBoth(p, es, k, i, f.state))
    || (k < |es| && es[k].Commit? && exists i: nat :: Standing(es, k, i) && es[i].origin == f.alloc)
  }

  ghost predicate Leaves(p: Parents, es: seq<Entry>, k: nat, f: Fact) {
    Forgets(p, es, k, f) || Hands(p, es, k, f)
  }

  /** The fact was noted at `k`, and is held since. */
  ghost predicate HeldSince(p: Parents, es: seq<Entry>, k: nat, n: nat, f: Fact) {
    k < n && Notes(p, es, k, f) && forall j: nat :: k < j < n ==> !Leaves(p, es, j, f)
  }

  /** Noted before entry `n`, and neither forgotten nor handed over since. */
  ghost predicate Held(p: Parents, es: seq<Entry>, n: nat, f: Fact) {
    exists k: nat :: HeldSince(p, es, k, n, f)
  }

  /** Held when an entry before `n` handed it over. */
  ghost predicate Handed(p: Parents, es: seq<Entry>, n: nat, f: Fact) {
    exists k: nat :: k < n && Held(p, es, k, f) && Hands(p, es, k, f)
  }

  /** Its region was committed before entry `n`, by then or later. */
  ghost predicate Final(p: Parents, es: seq<Entry>, n: nat, f: Fact) {
    exists c: nat :: c < n <= |es| && es[c] == Commit(f.state) && Handed(p, es, c + 1, f)
  }

  lemma HeldSinceStep(p: Parents, es: seq<Entry>, k: nat, n: nat, f: Fact)
    ensures HeldSince(p, es, k, n + 1, f) <==>
            (k == n && Notes(p, es, n, f)) || (HeldSince(p, es, k, n, f) && !Leaves(p, es, n, f))
  {
  }

  lemma HeldStep(p: Parents, es: seq<Entry>, n: nat, f: Fact)
    ensures Held(p, es, n + 1, f) <==> Notes(p, es, n, f) || (Held(p, es, n, f) && !Leaves(p, es, n, f))
  {
    var next := n + 1;
    if k: nat :| HeldSince(p, es, k, next, f) {
      HeldSinceStep(p, es, k, n, f);
    }
    if Notes(p, es, n, f) {
      assert HeldSince(p, es, n, n + 1, f);
    }
    if Held(p, es, n, f) && !Leaves(p, es, n, f) {
      var k: nat :| HeldSince(p, es, k, n, f);
      HeldSinceStep(p, es, k, n, f);
    }
  }

  lemma HandedStep(p: Parents, es: seq<Entry>, n: nat, f: Fact)
    ensures Handed(p, es, n + 1, f) <==> Handed(p, es, n, f) || (Held(p, es, n, f) && Hands(p, es, n, f))
  {
  }

  lemma FinalStep(p: Parents, es: seq<Entry>, n: nat, f: Fact)
    requires n < |es|
    ensures Final(p, es, n + 1, f) <==> Final(p, es, n, f) || (es[n] == Commit(f.state) && Handed(p, es, n + 1, f))
  {
  }

  /** One entry, as the books see it and as the entries tell it. */
  lemma EntryTold(p: Parents, cycles: bool, es: seq<Entry>, n: nat, m: Memory, f: Fact)
    requires n < |es| && Told(es, n, m) && Sound(p, m) && Permitted(p, cycles, m, es[n])
    ensures var b, r := m.books, Processed(p, cycles, m, es[n]).books;
            && (f in r.pending <==> Notes(p, es, n, f) || (f in b.pending && !Forgets(p, es, n, f) && !Hands(p, es, n, f)))
            && (f in r.current + r.final <==> f in b.current + b.final || (f in b.pending && Hands(p, es, n, f)))
            && (f in r.final <==> f in b.final || (es[n] == Commit(f.state) && f in r.current + r.final))
  {
    match es[n]
    case AddAlloc(_, _, _, _) => AddAllocInserts(p, cycles, m, es[n]);
    case AddTo(_, _, _) => AccessTold(p, cycles, es, n, m, f);
    case FreeAlloc(_, _) => FreeTold(p, cycles, es, n, m, f);
    case Commit(_) => CommitTold(p, cycles, es, n, m, f);
    case Redundant =>
  }

  lemma AccessTold(p: Parents, cycles: bool, es: seq<Entry>, n: nat, m: Memory, f: Fact)
    requires n < |es| && Told(es, n, m) && Sound(p, m) && Permitted(p, cycles, m, es[n]) && es[n].AddTo?
    ensures var b, r := m.books, Processed(p, cycles, m, es[n]).books;
            && (f in r.pending <==> f in b.pending || Notes(p, es, n, f))
            && r.current == b.current && r.final == b.final
  {
    var e := es[n];
    LocatedIsLive(p, m, e.ptr);
    LocatedTold(p, es, n, m, e.ptr);
    var moves := MovesOf(p, m, e);
    if moves != [] {
      L.RunOne(m.books, moves[0]);
    }
  }

  lemma FreeTold(p: Parents, cycles: bool, es: seq<Entry>, n: nat, m: Memory, f: Fact)
    requires n < |es| && Told(es, n, m) && Sound(p, m) && Permitted(p, cycles, m, es[n]) && es[n].FreeAlloc?
    ensures var b, r := m.books, Processed(p, cycles, m, es[n]).books;
            && (f in r.pending <==> f in b.pending && !Forgets(p, es, n, f) && !Hands(p, es, n, f))
            && (f in r.current <==> f in b.current || (f in b.pending && Hands(p, es, n, f)))
            && r.final == b.final
  {
    var e := es[n];
    LocatedIsLive(p, m, e.ptr);
    LocatedTold(p, es, n, m, e.ptr);
    var moves := MovesOf(p, m, e);
    if moves != [] {
      L.RunOne(m.books, moves[0]);
    }
  }

  lemma CommitTold(p: Parents, cycles: bool, es: seq<Entry>, n: nat, m: Memory, f: Fact)
    requires n < |es| && Told(es, n, m) && Sound(p, m) && Permitted(p, cycles, m, es[n]) && es[n].Commit?
    ensures var b, r := m.books, Processed(p, cycles, m, es[n]).books;
            && (f in r.pending <==> f in b.pending && !Hands(p, es, n, f))
            && (f in r.current + r.final <==> f in b.current + b.final || (f in b.pending && Hands(p, es, n, f)))
            && (f in r.final <==> f in b.final || (es[n] == Commit(f.state) && f in r.current + r.final))
  {
    L.RunTwo(m.books, L.Settle(Live(m)), L.Commit(es[n].state));
    if f.alloc in Live(m) {
      var s: nat :| s in m.owner && m.owner[s] == f.alloc;
      var i: nat :| Standing(es, n, i) && es[i].ptr == s;
      assert PlacedAs(m, es[i]);
    }
    forall i: nat | Standing(es, n, i) ensures es[i].origin in Live(m) {
      assert PlacedAs(m, es[i]);
    }
  }

  /** After any run, the books are what the entries tell. */
  lemma {:induction false} BooksTold(p: Parents, cycles: bool, es: seq<Entry>, n: nat, m: Memory, f: Fact)
    requires n <= |es| && After(p, cycles, es[..n]) == Some(m)
    ensures f in m.books.pending <==> Held(p, es, n, f)
    ensures f in m.books.current + m.books.final <==> Handed(p, es, n, f)
    ensures f in m.books.final <==> Final(p, es, n, f)
    decreases n
  {
    if n == 0 {
    } else {
      assert es[..n][..n - 1] == es[..n - 1];
      var before := After(p, cycles, es[..n - 1]).value;
      BooksTold(p, cycles, es, n - 1, before, f);
      RunTold(p, cycles, es, n - 1, before);
      EntryTold(p, cycles, es, n - 1, before, f);
      HeldStep(p, es, n - 1, f);
      HandedStep(p, es, n - 1, f);
      FinalStep(p, es, n - 1, f);
    }
  }

  /** Every fact is accounted for by the entries: in the books are those that are held,
      and those that have been handed over. */
  lemma FactsTold(p: Parents, cycles: bool, es: seq<Entry>, m: Memory, f: Fact)
    requires After(p, cycles, es) == Some(m)
    ensures f in m.books.Total() <==> Held(p, es, |es|, f) || Handed(p, es, |es|, f)
  {
    assert es[..|es|] == es;
    BooksTold(p, cycles, es, |es|, m, f);
  }

  /** A free of the allocation that entry `i` placed takes a fact it holds out of the
      books exactly when the region is on the chains both of the region it is freed in
      and of the one it was placed in. */
  lemma FreeForgetsIff(p: Parents, cycles: bool, es: seq<Entry>, ptr: nat, affiliated: Option<nat>, m: Memory, r: Memory, i: nat, f: Fact)
    requires After(p, cycles, es) == Some(m) && After(p, cycles, es + [FreeAlloc(ptr, affiliated)]) == Some(r)
    requires Hits(es, |es|, i, ptr) && f in m.books.pending && f.alloc == es[i].origin
    requires f !in m.books.current + m.books.final
    ensures f !in r.books.pending
    ensures f in r.books.Total() <==> !(Above(p, f.state, affiliated) && Above(p, f.state, es[i].affiliated))
  {
    var all := es + [FreeAlloc(ptr, affiliated)];
    assert all[..|es|] == es && all[..|all|] == all;
    RunTold(p, cycles, all, |es|, m);
    EntryTold(p, cycles, all, |es|, m, f);
    assert forall k: nat :: Standing(all, |es|, k) <==> Standing(es, |es|, k);
    LocatedTold(p, all, |es|, m, ptr);
    assert Frees(all, |es|, i);
  }

  // ---- Which entries may come ----------------------------------------------------------------

  ghost predicate IsRegion(p: Parents, s: Option<nat>) {
    s.Some? ==> s.value in p
  }

  /** What is asked of entry `n`: addresses are below the sentinel and regions known; a
      new block lies apart from those that stand, and its origin has none standing; an
      access has a class unless cycles are tracked. */
  ghost predicate MayCome(p: Parents, cycles: bool, es: seq<Entry>, n: nat)
    requires n < |es|
  {
    Rooted(p) &&
    match es[n]
    case AddAlloc(ptr, size, origin, affiliated) =>
      && IsRegion(p, affiliated) && ptr < B.SENTINEL && ptr + size <= B.SENTINEL
      && forall i: nat :: Standing(es, n, i) ==>
           es[i].origin != origin && ((es[i].ptr < ptr && es[i].ptr + es[i].size <= ptr) || (ptr < es[i].ptr && ptr + size <= es[i].ptr))
    case AddTo(ptr, cls, state) => state in p && ptr < B.SENTINEL && (cycles || cls.Some?)
    case FreeAlloc(ptr, affiliated) => IsRegion(p, affiliated) && ptr < B.SENTINEL
    case Commit(state) => state in p
    case Redundant => true
  }

  lemma FitsTold(p: Parents, es: seq<Entry>, n: nat, m: Memory)
    requires n < |es| && Told(es, n, m) && Sound(p, m) && m.table.lengths == {} && es[n].AddAlloc?
    ensures B.Fits(m.table, es[n].ptr, es[n].size) && es[n].origin !in Live(m) <==>
            && es[n].ptr < B.SENTINEL && es[n].ptr + es[n].size <= B.SENTINEL
            && forall i: nat :: Standing(es, n, i) ==>
                 && es[i].origin != es[n].origin
                 && ((es[i].ptr < es[n].ptr && es[i].ptr + es[i].size <= es[n].ptr)
                     || (es[n].ptr < es[i].ptr && es[n].ptr + es[n].size <= es[i].ptr))
  {
    forall i: nat | Standing(es, n, i)
      ensures es[i].origin in Live(m) && B.IsBlock(m.table, es[i].ptr) && B.Length(m.table, es[i].ptr) == es[i].size
    {
      assert PlacedAs(m, es[i]);
    }
    forall s: nat | B.IsBlock(m.table, s) && s != B.SENTINEL
      ensures exists i: nat :: Standing(es, n, i) && es[i].ptr == s
    {
      assert s in m.owner;
    }
    forall o | o in Live(m) ensures exists i: nat :: Standing(es, n, i) && es[i].origin == o {
      var s: nat :| s in m.owner && m.owner[s] == o;
      var i: nat :| Standing(es, n, i) && es[i].ptr == s;
      assert PlacedAs(m, es[i]);
    }
  }

  lemma {:induction false} NoLengths(p: Parents, cycles: bool, es: seq<Entry>)
    requires After(p, cycles, es).Some?
    ensures After(p, cycles, es).value.table.lengths == {}
    decreases |es|
  {
    if es == [] {
    } else {
      NoLengths(p, cycles, es[..|es| - 1]);
    }
  }

  lemma PermittedTold(p: Parents, cycles: bool, es: seq<Entry>, n: nat, m: Memory)
    requires n < |es| && After(p, cycles, es[..n]) == Some(m)
    ensures Permitted(p, cycles, m, es[n]) <==> MayCome(p, cycles, es, n)
  {
    RunTold(p, cycles, es, n, m);
    NoLengths(p, cycles, es[..n]);
    if es[n].AddAlloc? {
      FitsTold(p, es, n, m);
    }
  }

  /** The pass can take a run of entries exactly when each of them may come. */
  lemma {:induction false} RunsIff(p: Parents, cycles: bool, es: seq<Entry>, n: nat)
    requires n <= |es|
    ensures After(p, cycles, es[..n]).Some? <==> forall k: nat :: k < n ==> MayCome(p, cycles, es, k)
    decreases n
  {
    if n == 0 {
    } else {
      RunsIff(p, cycles, es, n - 1);
      assert es[..n][..n - 1] == es[..n - 1];
      if After(p, cycles, es[..n - 1]).Some? {
        PermittedTold(p, cycles, es, n - 1, After(p, cycles, es[..n - 1]).value);
      }
    }
  }

  // ---- Freshness ---------------------------------------------------------------------------

  ghost predicate BelowSetter(m: Memory) {
    m.setter > 0 && forall o :: o in m.allocs ==> m.allocs[o].freshness < m.setter
  }

  lemma {:induction false} StaysBelowSetter(p: Parents, cycles: bool, es: seq<Entry>)
    requires After(p, cycles, es).Some?
    ensures BelowSetter(After(p, cycles, es).value)
    decreases |es|
  {
    if es == [] {
    } else {
      StaysBelowSetter(p, cycles, es[..|es| - 1]);
    }
  }

  /** When cycles are tracked, the allocation that was accessed last is the freshest. */
  lemma AccessedIsFreshest(p: Parents, es: seq<Entry>, e: Entry, r: Memory, i: nat, o: nat)
    requires e.AddTo? && After(p, true, es + [e]) == Some(r)
    requires Hits(es, |es|, i, e.ptr) && o in r.allocs && o != es[i].origin
    ensures es[i].origin in r.allocs && r.allocs[o].freshness < r.allocs[es[i].origin].freshness
  {
    var all := es + [e];
    assert all[..|es|] == es && all[..|all| - 1] == es;
    var m := After(p, true, es).value;
    StaysBelowSetter(p, true, es);
    RunTold(p, true, all, |es|, m);
    assert Hits(all, |es|, i, e.ptr);
    LocatedTold(p, all, |es|, m, e.ptr);
  }

  /** Nothing else changes how fresh an allocation is; a new one starts at 0, and an
      origin that comes again keeps what it had. */
  lemma OnlyAccessesFreshen(p: Parents, cycles: bool, es: seq<Entry>, e: Entry, m: Memory, r: Memory, o: nat)
    requires After(p, cycles, es) == Some(m) && After(p, cycles, es + [e]) == Some(r) && o in r.allocs
    requires !cycles || !(e.AddTo? && exists i: nat :: Hits(es, |es|, i, e.ptr) && es[i].origin == o)
    ensures r.allocs[o].freshness == if o in m.allocs then m.allocs[o].freshness else 0
  {
    var all := es + [e];
    assert all[..|es|] == es && all[..|all| - 1] == es;
    RunTold(p, cycles, all, |es|, m);
    if e.AddTo? {
      LocatedTold(p, all, |es|, m, e.ptr);
      assert forall i: nat :: Hits(all, |es|, i, e.ptr) <==> Hits(es, |es|, i, e.ptr);
    }
    FreshnessStays(p, cycles, m, e, o);
  }

  lemma FreshnessStays(p: Parents, cycles: bool, m: Memory, e: Entry, o: nat)
    requires Sound(p, m) && Permitted(p, cycles, m, e) && o in Processed(p, cycles, m, e).allocs
    requires !cycles || !e.AddTo? || Located(m, e.ptr) != Some(o)
    ensures Processed(p, cycles, m, e).allocs[o].freshness == if o in m.allocs then m.allocs[o].freshness else 0
  {
  }
}
