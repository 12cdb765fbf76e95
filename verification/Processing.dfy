/** What the processing pass does with the entries of cleaned batches: allocations
    come and go in the table, offsets are recorded for regions, and regions are
    committed. Regions and allocations are named by number: a region by its id, an
    allocation by its origin, of which there is one object. */
module Processing {
  import opened Classes
  import B = Blocks
  import L = Ledger

  type Fact = L.Fact<nat, nat>

  type Move = L.Move<nat, nat>

  /** The parent of every region. */
  type Parents = map<nat, Option<nat>>

  datatype Alloc = Alloc(pointer: nat, length: nat, affiliated: Option<nat>, freshness: nat)

  /** `AddTo` without a class is an access that the cleaning pass did not label. */
  datatype Entry = AddAlloc(ptr: nat, size: nat, origin: nat, affiliated: Option<nat>)
                 | AddTo(ptr: nat, cls: Option<Class>, state: nat)
                 | FreeAlloc(ptr: nat, affiliated: Option<nat>)
                 | Commit(state: nat)
                 | Redundant

  /** The table with the origin of each block, the allocation of each origin, and
      the facts. */
  datatype Memory = Memory(table: B.Table, owner: map<nat, nat>, allocs: map<nat, Alloc>, setter: nat, books: L.Books<nat, nat>)

  const START: Memory := Memory(B.Table(map[B.SENTINEL := 0], map[], {}), map[], map[], 1, L.Empty())

  // ---- Regions -----------------------------------------------------------------------

  /** Every parent is a region that was made before its child. */
  ghost predicate Rooted(p: Parents) {
    forall s :: s in p && p[s].Some? ==> p[s].value in p && p[s].value < s
  }

  /** A region, its parent, its parent's parent, and so on. */
  ghost function Chain(p: Parents, s: Option<nat>): (r: set<nat>)
    requires Rooted(p) && (s.Some? ==> s.value in p)
    ensures forall t :: t in r ==> t in p && s.Some? && t <= s.value
    decreases if s.Some? then s.value + 1 else 0
  {
    if s.None? then {} else {s.value} + Chain(p, p[s.value])
  }

  ghost function Depth(p: Parents, s: Option<nat>): (r: nat)
    requires Rooted(p) && (s.Some? ==> s.value in p)
    ensures r == |Chain(p, s)|
    decreases if s.Some? then s.value + 1 else 0
  {
    if s.None? then 0 else
      var above := Chain(p, p[s.value]);
      assert s.value !in above;
      1 + Depth(p, p[s.value])
  }

  // ---- What an entry does ------------------------------------------------------------

  /** The start of the block with an address, by a scan of all blocks. */
  ghost function BlockAt(t: B.Table, ptr: nat): (r: Option<nat>)
    ensures if r.Some? then B.Covers(t, r.value, ptr) else forall s :: !B.Covers(t, s, ptr)
  {
    if exists s :: B.Covers(t, s, ptr) then
      var s :| B.Covers(t, s, ptr);
      Some(s)
    else None
  }

  /** The allocation with an address. */
  ghost function Located(m: Memory, ptr: nat): Option<nat> {
    var s := BlockAt(m.table, ptr);
    if s.Some? && s.value in m.owner then Some(m.owner[s.value]) else None
  }

  ghost function Live(m: Memory): set<nat> {
    m.owner.Values
  }

  /** What an entry does to the facts. */
  ghost function MovesOf(p: Parents, m: Memory, e: Entry): seq<Move>
    requires Known(p, m, e)
  {
    match e
    case AddTo(ptr, cls, state) =>
      var o := Located(m, ptr);
      if o.None? || o.value !in m.allocs || cls.None? then []
      else [L.Record(o.value, Chain(p, Some(state)), cls.value, B.GetOffset(m.allocs[o.value].pointer, ptr))]
    case FreeAlloc(ptr, affiliated) =>
      var o := Located(m, ptr);
      if o.None? || o.value !in m.allocs then []
      else [L.Free(o.value, Chain(p, affiliated) * Chain(p, m.allocs[o.value].affiliated))]
    case Commit(state) => [L.Settle(Live(m)), L.Commit(state)]
    case _ => []
  }

  /** The allocations' regions, and an entry's, are regions. */
  ghost predicate Known(p: Parents, m: Memory, e: Entry) {
    && Rooted(p)
    && (forall o :: o in m.allocs ==> m.allocs[o].affiliated.Some? ==> m.allocs[o].affiliated.value in p)
    && (e.AddTo? ==> e.state in p)
    && (e.Commit? ==> e.state in p)
    && ((e.AddAlloc? || e.FreeAlloc?) && e.affiliated.Some? ==> e.affiliated.value in p)
  }

  ghost function Touched(a: Alloc, setter: nat, levels: nat): Alloc {
    if levels == 0 then a else a.(freshness := setter + levels - 1)
  }

  /** The object of an origin is made on its first use and reused later. */
  function AddedAlloc(allocs: map<nat, Alloc>, ptr: nat, size: nat, origin: nat, affiliated: Option<nat>): map<nat, Alloc> {
    allocs[origin := Alloc(ptr, size, affiliated, if origin in allocs then allocs[origin].freshness else 0)]
  }

  /** The state after an entry; `cycles` says whether cycles are tracked. */
  ghost function Processed(p: Parents, cycles: bool, m: Memory, e: Entry): Memory
    requires Known(p, m, e)
  {
    var books := L.Run(m.books, MovesOf(p, m, e));
    match e
    case AddAlloc(ptr, size, origin, affiliated) =>
      m.(table := B.Insert(m.table, ptr, size), owner := m.owner[ptr := origin],
         allocs := AddedAlloc(m.allocs, ptr, size, origin, affiliated), books := books)
    case AddTo(ptr, cls, state) =>
      var o := Located(m, ptr);
      if o.None? || o.value !in m.allocs then m else
        var levels := if !cycles then 0 else if cls.None? then 1 else Depth(p, Some(state));
        m.(allocs := m.allocs[o.value := Touched(m.allocs[o.value], m.setter, levels)], setter := m.setter + levels,
           books := books)
    case FreeAlloc(ptr, affiliated) =>
      if Located(m, ptr).None? then m
      else m.(table := B.Delete(m.table, ptr), owner := m.owner - {ptr}, books := books)
    case Commit(_) => m.(books := books)
    case Redundant => m
  }

  // ---- The invariant -----------------------------------------------------------------

  /** Every block but the sentinel has one allocation, whose pointer and length it
      has; only those allocations hold facts, and the offsets lie within them. */
  ghost predicate Sound(p: Parents, m: Memory) {
    && B.WellFormed(m.table) && m.table.sorted[B.SENTINEL] == 0
    && (forall s: nat :: s in m.owner <==> B.IsBlock(m.table, s) && s != B.SENTINEL)
    && (forall s :: s in m.owner ==> m.owner[s] in m.allocs && m.allocs[m.owner[s]].pointer == s
                                     && m.allocs[m.owner[s]].length == B.Length(m.table, s))
    && (forall f :: f in m.books.pending ==> Holds(m, f))
    && (forall f :: f in m.books.pending + m.books.current ==> f.state in p)
    && (forall o :: o in m.allocs ==> m.allocs[o].affiliated.Some? ==> m.allocs[o].affiliated.value in p)
  }

  /** The fact's allocation is live, and its offset is inside or the start. */
  ghost predicate Holds(m: Memory, f: Fact) {
    && f.alloc in m.allocs
    && var a := m.allocs[f.alloc];
       a.pointer in m.owner && m.owner[a.pointer] == f.alloc && (f.offset < a.length || f.offset == 0)
  }

  /** What the program promises: addresses lie below the sentinel, a new block
      overlaps no live one, and the last allocation of its origin is gone; and what
      the cleaning pass promises: it leaves an access unlabelled only when cycles
      are tracked. */
  ghost predicate Permitted(p: Parents, cycles: bool, m: Memory, e: Entry) {
    && Known(p, m, e)
    && match e
       case AddAlloc(ptr, size, origin, _) => B.Fits(m.table, ptr, size) && origin !in Live(m)
       case AddTo(ptr, cls, _) => ptr < B.SENTINEL && (cycles || cls.Some?)
       case FreeAlloc(ptr, _) => ptr < B.SENTINEL
       case _ => true
  }

  lemma LocatedIsLive(p: Parents, m: Memory, ptr: nat)
    requires Sound(p, m) && ptr < B.SENTINEL
    ensures var o := Located(m, ptr);
            if o.None? then forall s :: !B.Covers(m.table, s, ptr)
            else && o.value in m.allocs
                 && var a := m.allocs[o.value];
                    && BlockAt(m.table, ptr) == Some(a.pointer) && a.pointer in m.owner && m.owner[a.pointer] == o.value
                    && a.pointer <= ptr && B.GetOffset(a.pointer, ptr) == ptr - a.pointer
                    && (ptr - a.pointer < a.length || ptr == a.pointer)
  {
  }

  /** The lookup in the table gives the same allocation as the scan. */
  lemma LookupLocates(p: Parents, m: Memory, ptr: nat, start: Option<nat>)
    requires Sound(p, m) && ptr < B.SENTINEL && B.Finds(m.table, ptr, start)
    ensures if start.None? then Located(m, ptr) == None
            else start.value in m.owner && Located(m, ptr) == Some(m.owner[start.value]) && m.owner[start.value] in m.allocs
  {
    B.FindAgreesWithScan(m.table, ptr, start);
    if start.Some? {
      B.OneCovers(m.table, ptr, start.value, BlockAt(m.table, ptr).value);
    }
  }

  lemma AddAllocInserts(p: Parents, cycles: bool, m: Memory, e: Entry)
    requires Sound(p, m) && Permitted(p, cycles, m, e) && e.AddAlloc?
    ensures e.ptr != B.SENTINEL && !B.IsBlock(m.table, e.ptr)
    ensures Processed(p, cycles, m, e) == Memory(B.Insert(m.table, e.ptr, e.size), m.owner[e.ptr := e.origin],
                                                 AddedAlloc(m.allocs, e.ptr, e.size, e.origin, e.affiliated), m.setter, m.books)
  {
  }

  lemma AddAllocKeeps(p: Parents, cycles: bool, m: Memory, e: Entry)
    requires Sound(p, m) && Permitted(p, cycles, m, e) && e.AddAlloc?
    ensures Sound(p, Processed(p, cycles, m, e))
  {
    var m' := Processed(p, cycles, m, e);
    B.InsertBlocks(m.table, e.ptr, e.size);
    B.InsertKeeps(m.table, e.ptr, e.size);
    assert !B.IsBlock(m.table, e.ptr);
    forall s | s in m.owner ensures m.owner[s] != e.origin {
      assert m.owner[s] in m.owner.Values;
    }
    forall f | f in m'.books.pending ensures Holds(m', f) {
      assert Holds(m, f);
    }
  }

  lemma AddToKeeps(p: Parents, cycles: bool, m: Memory, e: Entry)
    requires Sound(p, m) && Permitted(p, cycles, m, e) && e.AddTo?
    ensures Sound(p, Processed(p, cycles, m, e))
  {
    var m' := Processed(p, cycles, m, e);
    LocatedIsLive(p, m, e.ptr);
    var moves := MovesOf(p, m, e);
    if moves != [] {
      L.RunOne(m.books, moves[0]);
    }
    forall f | f in m'.books.pending ensures Holds(m', f) {
      if f in m.books.pending {
        assert Holds(m, f);
      }
    }
  }

  lemma FreeKeeps(p: Parents, cycles: bool, m: Memory, e: Entry)
    requires Sound(p, m) && Permitted(p, cycles, m, e) && e.FreeAlloc?
    ensures Sound(p, Processed(p, cycles, m, e))
  {
    var m' := Processed(p, cycles, m, e);
    LocatedIsLive(p, m, e.ptr);
    B.DeleteBlocks(m.table, e.ptr);
    B.DeleteKeeps(m.table, e.ptr);
    var moves := MovesOf(p, m, e);
    if moves != [] {
      L.RunOne(m.books, moves[0]);
      forall f | f in m'.books.pending ensures Holds(m', f) {
        assert Holds(m, f);
      }
    }
  }

  lemma CommitKeeps(p: Parents, cycles: bool, m: Memory, e: Entry)
    requires Sound(p, m) && Permitted(p, cycles, m, e) && e.Commit?
    ensures Sound(p, Processed(p, cycles, m, e))
    ensures Processed(p, cycles, m, e).books.pending == {}
  {
    L.RunTwo(m.books, L.Settle(Live(m)), L.Commit(e.state));
    forall f | f in m.books.pending ensures f.alloc in Live(m) {
      assert Holds(m, f);
    }
  }

  /** Every permitted entry keeps the table and the facts sound. */
  lemma ProcessedKeeps(p: Parents, cycles: bool, m: Memory, e: Entry)
    requires Sound(p, m) && Permitted(p, cycles, m, e)
    ensures Sound(p, Processed(p, cycles, m, e))
  {
    match e
    case AddAlloc(_, _, _, _) => AddAllocKeeps(p, cycles, m, e);
    case AddTo(_, _, _) => AddToKeeps(p, cycles, m, e);
    case FreeAlloc(_, _) => FreeKeeps(p, cycles, m, e);
    case Commit(_) => CommitKeeps(p, cycles, m, e);
    case Redundant =>
  }

  // ---- Runs ----------------------------------------------------------------------------

  ghost function Next(p: Parents, cycles: bool, m: Option<Memory>, e: Entry): Option<Memory> {
    if m.None? || !Permitted(p, cycles, m.value, e) then None else Some(Processed(p, cycles, m.value, e))
  }

  /** The state after a run of permitted entries; none when an entry was not. */
  ghost function After(p: Parents, cycles: bool, es: seq<Entry>): Option<Memory> {
    if es == [] then Some(START) else Next(p, cycles, After(p, cycles, es[..|es| - 1]), es[|es| - 1])
  }

  /** What a run did to the facts. */
  ghost function MovesDone(p: Parents, cycles: bool, es: seq<Entry>): seq<Move>
    requires After(p, cycles, es).Some?
  {
    if es == [] then [] else
      var before := es[..|es| - 1];
      MovesDone(p, cycles, before) + MovesOf(p, After(p, cycles, before).value, es[|es| - 1])
  }

  lemma {:induction false} PrefixRuns(p: Parents, cycles: bool, es: seq<Entry>, n: nat)
    requires n <= |es| && After(p, cycles, es).Some?
    ensures After(p, cycles, es[..n]).Some?
    decreases |es|
  {
    if n == |es| {
      assert es[..n] == es;
    } else {
      assert es[..|es| - 1][..n] == es[..n];
      PrefixRuns(p, cycles, es[..|es| - 1], n);
    }
  }

  /** Over any run of the pass the table and the facts are sound, and the facts are
      those of the moves that the entries made. */
  lemma {:induction false} RunIsSound(p: Parents, cycles: bool, es: seq<Entry>)
    requires After(p, cycles, es).Some?
    ensures var m := After(p, cycles, es).value;
            Sound(p, m) && m.books == L.Run(L.Empty(), MovesDone(p, cycles, es))
  {
    if es == [] {
    } else {
      var before := es[..|es| - 1];
      RunIsSound(p, cycles, before);
      var m, e := After(p, cycles, before).value, es[|es| - 1];
      ProcessedKeeps(p, cycles, m, e);
      BooksOfProcessed(p, cycles, m, e);
      L.RunConcat(L.Empty(), MovesDone(p, cycles, before), MovesOf(p, m, e));
    }
  }

  /** Within a run, every entry comes to a sound state, and is permitted there. */
  lemma NextEntry(p: Parents, cycles: bool, es: seq<Entry>, n: nat) returns (m: Memory)
    requires n < |es| && After(p, cycles, es).Some?
    ensures After(p, cycles, es[..n]) == Some(m) && Sound(p, m) && Permitted(p, cycles, m, es[n])
    ensures After(p, cycles, es[..n + 1]) == Next(p, cycles, Some(m), es[n])
  {
    PrefixRuns(p, cycles, es, n + 1);
    PrefixRuns(p, cycles, es, n);
    assert es[..n + 1][..n] == es[..n];
    RunIsSound(p, cycles, es[..n]);
    m := After(p, cycles, es[..n]).value;
  }

  /** An entry is permitted in one sound state and comes to another. */
  ghost predicate Comes(p: Parents, cycles: bool, m: Memory, e: Entry, r: Memory) {
    Sound(p, m) && Permitted(p, cycles, m, e) && Processed(p, cycles, m, e) == r
  }

  lemma BatchSplits<T>(past: seq<T>, batch: seq<T>)
    requires batch != []
    ensures var run, n := past + batch, |past|;
            run[..n] == past && run[n] == batch[0] && run[..n + 1] == past + [batch[0]]
    ensures past + [batch[0]] + batch[1..] == past + batch
  {
  }

  lemma OneMoreEntry(p: Parents, cycles: bool, past: seq<Entry>, batch: seq<Entry>) returns (m: Memory, r: Memory)
    requires batch != [] && After(p, cycles, past + batch).Some?
    ensures After(p, cycles, past) == Some(m) && Comes(p, cycles, m, batch[0], r)
    ensures After(p, cycles, past + [batch[0]]) == Some(r) && past + [batch[0]] + batch[1..] == past + batch
  {
    BatchSplits(past, batch);
    m := NextEntry(p, cycles, past + batch, |past|);
    r := Processed(p, cycles, m, batch[0]);
  }

  lemma CameMore(p: Parents, cycles: bool, batch: seq<Entry>, m: Memory, rest: seq<Memory>)
    requires batch != [] && |rest| == |batch| && Comes(p, cycles, m, batch[0], rest[0])
    requires forall i :: 0 <= i < |batch| - 1 ==> Comes(p, cycles, rest[i], batch[1..][i], rest[i + 1])
    ensures forall i :: 0 <= i < |batch| ==> Comes(p, cycles, ([m] + rest)[i], batch[i], ([m] + rest)[i + 1])
  {
    forall i | 0 <= i < |batch| ensures Comes(p, cycles, ([m] + rest)[i], batch[i], ([m] + rest)[i + 1]) {
      if i > 0 {
        assert Comes(p, cycles, rest[i - 1], batch[1..][i - 1], rest[i - 1 + 1]);
      }
    }
  }

  /** The states that the entries of a batch come to. */
  lemma {:induction false} StatesOf(p: Parents, cycles: bool, past: seq<Entry>, batch: seq<Entry>) returns (mem: seq<Memory>)
    requires After(p, cycles, past + batch).Some?
    ensures |mem| == |batch| + 1 && After(p, cycles, past) == Some(mem[0])
    ensures After(p, cycles, past + batch) == Some(mem[|batch|])
    ensures forall i :: 0 <= i < |batch| ==> Comes(p, cycles, mem[i], batch[i], mem[i + 1])
    decreases |batch|
  {
    if batch == [] {
      assert past + batch == past;
      mem := [After(p, cycles, past).value];
    } else {
      var m, r := OneMoreEntry(p, cycles, past, batch);
      var rest := StatesOf(p, cycles, past + [batch[0]], batch[1..]);
      CameMore(p, cycles, batch, m, rest);
      mem := [m] + rest;
    }
  }

  /** Every offset is accounted for: after any run the facts of an allocation, of
      the working sets and of the final sets together are those recorded for a
      region or for one of its descendants, less those a free dropped. */
  lemma RunConserves(p: Parents, cycles: bool, es: seq<Entry>, f: Fact)
    requires After(p, cycles, es).Some?
    ensures f in After(p, cycles, es).value.books.Total() <==> L.Survives(MovesDone(p, cycles, es), f)
  {
    RunIsSound(p, cycles, es);
    L.Conservation(MovesDone(p, cycles, es), f);
  }

  /** The lookup gives one block for an address, and no other. */
  ghost predicate FindsOnly(t: B.Table, key: nat, s: nat) {
    forall start: Option<nat> :: B.Finds(t, key, start) <==> start == Some(s)
  }

  /** A fact is pending after a run only while its block is in the table, under its
      allocation's pointer, and the block is the one the lookup gives for it. */
  lemma PendingIsFound(p: Parents, cycles: bool, es: seq<Entry>, m: Memory, f: Fact)
    requires After(p, cycles, es) == Some(m) && f in m.books.pending
    ensures Holds(m, f) && FindsOnly(m.table, m.allocs[f.alloc].pointer + f.offset, m.allocs[f.alloc].pointer)
  {
    RunIsSound(p, cycles, es);
    HoldsIsFound(p, m, f);
  }

  lemma HoldsIsFound(p: Parents, m: Memory, f: Fact)
    requires Sound(p, m) && Holds(m, f)
    ensures FindsOnly(m.table, m.allocs[f.alloc].pointer + f.offset, m.allocs[f.alloc].pointer)
  {
    var a := m.allocs[f.alloc];
    var key := a.pointer + f.offset;
    assert B.Covers(m.table, a.pointer, key);
    BlockBelow(m.table, a.pointer, key);
    forall start ensures B.Finds(m.table, key, start) <==> start == Some(a.pointer) {
      FindsTheOne(m.table, key, a.pointer, start);
    }
  }

  lemma BlockBelow(t: B.Table, s: nat, key: nat)
    requires B.WellFormed(t) && s != B.SENTINEL && B.Covers(t, s, key)
    ensures key < B.SENTINEL
  {
  }

  lemma FindsTheOne(t: B.Table, key: nat, s: nat, start: Option<nat>)
    requires B.WellFormed(t) && key < B.SENTINEL && B.Covers(t, s, key)
    ensures B.Finds(t, key, start) <==> start == Some(s)
  {
    B.FindAgreesWithScan(t, key, start);
    if start.Some? && B.Covers(t, start.value, key) {
      B.OneCovers(t, key, s, start.value);
    }
  }

  lemma BooksOfProcessed(p: Parents, cycles: bool, m: Memory, e: Entry)
    requires Sound(p, m) && Permitted(p, cycles, m, e)
    ensures Processed(p, cycles, m, e).books == L.Run(m.books, MovesOf(p, m, e))
  {
    if e.AddTo? || e.FreeAlloc? {
      LocatedIsLive(p, m, e.ptr);
    }
  }

  // ---- An access, one level of regions at a time -----------------------------------

  /** An allocation is touched, and a fact about it recorded. */
  ghost function Recorded(cycles: bool, m: Memory, o: nat, fs: set<Fact>, levels: nat): Memory
    requires o in m.allocs
  {
    var n := if cycles then levels else 0;
    m.(allocs := m.allocs[o := Touched(m.allocs[o], m.setter, n)], setter := m.setter + n,
       books := m.books.(pending := m.books.pending + fs))
  }

  ghost function FactAt(m: Memory, o: nat, ptr: nat, cls: Class, state: nat): Fact
    requires o in m.allocs
  {
    L.Fact(state, cls, o, B.GetOffset(m.allocs[o].pointer, ptr))
  }

  ghost function OneLevel(cycles: bool, m: Memory, ptr: nat, cls: Option<Class>, state: nat): Memory {
    var o := Located(m, ptr);
    if o.None? || o.value !in m.allocs then m
    else Recorded(cycles, m, o.value, if cls.Some? then {FactAt(m, o.value, ptr, cls.value, state)} else {}, 1)
  }

  ghost function AllLevels(p: Parents, cycles: bool, m: Memory, ptr: nat, cls: Option<Class>, s: Option<nat>): Memory
    requires Rooted(p) && (s.Some? ==> s.value in p)
    decreases if s.Some? then s.value + 1 else 0
  {
    if s.None? then m
    else
      var n := OneLevel(cycles, m, ptr, cls, s.value);
      if Located(m, ptr).None? || (cycles && cls.None?) then n
      else AllLevels(p, cycles, n, ptr, cls, p[s.value])
  }

  lemma OneLevelKeeps(p: Parents, cycles: bool, m: Memory, ptr: nat, cls: Option<Class>, state: nat)
    requires Sound(p, m) && ptr < B.SENTINEL && state in p
    ensures Sound(p, OneLevel(cycles, m, ptr, cls, state))
    ensures Located(OneLevel(cycles, m, ptr, cls, state), ptr) == Located(m, ptr)
  {
    LocatedIsLive(p, m, ptr);
    var n := OneLevel(cycles, m, ptr, cls, state);
    forall f | f in n.books.pending ensures Holds(n, f) {
      if f in m.books.pending {
        assert Holds(m, f);
      }
    }
  }

  ghost function FactsOn(p: Parents, s: Option<nat>, c: Class, o: nat, offset: nat): set<Fact>
    requires Rooted(p) && (s.Some? ==> s.value in p)
  {
    set t | t in Chain(p, s) :: L.Fact(t, c, o, offset)
  }

  lemma RecordedTwice(cycles: bool, m: Memory, n: Memory, o: nat, f: Fact, gs: set<Fact>, hs: set<Fact>, levels: nat)
    requires o in m.allocs && n == Recorded(cycles, m, o, {f}, 1) && hs == {f} + gs
    ensures Recorded(cycles, n, o, gs, levels) == Recorded(cycles, m, o, hs, levels + 1)
  {
    assert m.books.pending + {f} + gs == m.books.pending + hs;
    assert m.allocs[o := n.allocs[o]][o := Touched(n.allocs[o], n.setter, if cycles then levels else 0)]
        == m.allocs[o := Touched(n.allocs[o], n.setter, if cycles then levels else 0)];
  }

  lemma RecordedNothing(cycles: bool, m: Memory, o: nat)
    requires o in m.allocs
    ensures Recorded(cycles, m, o, {}, 0) == m
  {
    assert m.allocs[o := m.allocs[o]] == m.allocs;
    assert m.books.pending + {} == m.books.pending;
  }

  lemma FactsOnUp(p: Parents, s: nat, c: Class, o: nat, offset: nat)
    requires Rooted(p) && s in p
    ensures FactsOn(p, Some(s), c, o, offset) == {L.Fact(s, c, o, offset)} + FactsOn(p, p[s], c, o, offset)
    ensures Depth(p, Some(s)) == Depth(p, p[s]) + 1
  {
    assert Chain(p, Some(s)) == {s} + Chain(p, p[s]);
  }

  /** One level, for an address in an allocation. */
  lemma LevelRecords(p: Parents, cycles: bool, m: Memory, ptr: nat, cls: Class, s: nat, o: nat, offset: nat)
    returns (n: Memory)
    requires Rooted(p) && s in p && Sound(p, m) && ptr < B.SENTINEL && Located(m, ptr) == Some(o) && o in m.allocs
    requires offset == B.GetOffset(m.allocs[o].pointer, ptr)
    ensures n == Recorded(cycles, m, o, {L.Fact(s, cls, o, offset)}, 1)
    ensures Sound(p, n) && Located(n, ptr) == Some(o) && o in n.allocs && n.allocs[o].pointer == m.allocs[o].pointer
    ensures AllLevels(p, cycles, m, ptr, Some(cls), Some(s)) == AllLevels(p, cycles, n, ptr, Some(cls), p[s])
  {
    n := OneLevel(cycles, m, ptr, Some(cls), s);
    OneLevelKeeps(p, cycles, m, ptr, Some(cls), s);
  }

  lemma RecordedUp(p: Parents, cycles: bool, m: Memory, n: Memory, c: Class, s: nat, o: nat, offset: nat)
    requires Rooted(p) && s in p && o in m.allocs && n == Recorded(cycles, m, o, {L.Fact(s, c, o, offset)}, 1)
    ensures Recorded(cycles, n, o, FactsOn(p, p[s], c, o, offset), Depth(p, p[s]))
         == Recorded(cycles, m, o, FactsOn(p, Some(s), c, o, offset), Depth(p, Some(s)))
  {
    FactsOnUp(p, s, c, o, offset);
    RecordedTwice(cycles, m, n, o, L.Fact(s, c, o, offset), FactsOn(p, p[s], c, o, offset),
                  FactsOn(p, Some(s), c, o, offset), Depth(p, p[s]));
  }

  /** All the levels together record the offset for the region and its ancestors. */
  lemma {:induction false} LevelsRecord(p: Parents, cycles: bool, m: Memory, ptr: nat, cls: Class,
                                        s: Option<nat>, o: nat, offset: nat)
    requires Rooted(p) && (s.Some? ==> s.value in p)
    requires Sound(p, m) && ptr < B.SENTINEL && Located(m, ptr) == Some(o) && o in m.allocs
    requires offset == B.GetOffset(m.allocs[o].pointer, ptr)
    ensures AllLevels(p, cycles, m, ptr, Some(cls), s) == Recorded(cycles, m, o, FactsOn(p, s, cls, o, offset), Depth(p, s))
    decreases if s.Some? then s.value + 1 else 0
  {
    if s.None? {
      assert FactsOn(p, s, cls, o, offset) == {};
      RecordedNothing(cycles, m, o);
    } else {
      var n := LevelRecords(p, cycles, m, ptr, cls, s.value, o, offset);
      LevelsRecord(p, cycles, n, ptr, cls, p[s.value], o, offset);
      RecordedUp(p, cycles, m, n, cls, s.value, o, offset);
    }
  }

  lemma LevelsAreProcessed(p: Parents, cycles: bool, m: Memory, e: Entry)
    requires Sound(p, m) && e.AddTo? && Permitted(p, cycles, m, e)
    ensures AllLevels(p, cycles, m, e.ptr, e.cls, Some(e.state)) == Processed(p, cycles, m, e)
  {
    LocatedIsLive(p, m, e.ptr);
    if Located(m, e.ptr).Some? && e.cls.Some? {
      var o := Located(m, e.ptr).value;
      LevelsRecord(p, cycles, m, e.ptr, e.cls.value, Some(e.state), o, B.GetOffset(m.allocs[o].pointer, e.ptr));
      ProcessedRecords(p, cycles, m, e, o);
    }
  }

  lemma ProcessedRecords(p: Parents, cycles: bool, m: Memory, e: Entry, o: nat)
    requires Known(p, m, e) && e.AddTo? && e.cls.Some? && Located(m, e.ptr) == Some(o) && o in m.allocs
    ensures Processed(p, cycles, m, e)
         == Recorded(cycles, m, o, FactsOn(p, Some(e.state), e.cls.value, o, B.GetOffset(m.allocs[o].pointer, e.ptr)),
                     Depth(p, Some(e.state)))
  {
    L.RunOne(m.books, MovesOf(p, m, e)[0]);
  }

  /** Of the facts an allocation gives up, those that reach their regions. */
  function Passed(fs: set<Fact>, skip: set<nat>): set<Fact> {
    set f | f in fs && f.state !in skip
  }

  lemma PassedMore(fs: set<Fact>, f: Fact, skip: set<nat>)
    ensures Passed(fs + {f}, skip) == Passed(fs, skip) + if f.state in skip then {} else {f}
  {
  }

  /** One after the other, all its facts leave an allocation as a free makes them leave. */
  lemma PassedAll(b: L.Books<nat, nat>, o: nat, skip: set<nat>, fs: set<Fact>)
    requires fs == set f | f in b.pending && f.alloc == o
    ensures b.(pending := b.pending - fs, current := b.current + Passed(fs, skip)) == L.Step(b, L.Free(o, skip))
  {
    var r := L.Step(b, L.Free(o, skip));
    assert r.pending == b.pending - fs && r.current == b.current + Passed(fs, skip);
  }

  lemma LiveIsAlloc(p: Parents, m: Memory, o: nat)
    requires Sound(p, m) && o in Live(m)
    ensures o in m.allocs && (m.allocs[o].affiliated.Some? ==> m.allocs[o].affiliated.value in p)
  {
    var s :| s in m.owner && m.owner[s] == o;
  }

  function CommittedSet(b: L.Books<nat, nat>, s: nat, c: Class): L.Books<nat, nat> {
    b.(current := (set f | f in b.current && !(f.state == s && f.cls == c)),
       final := b.final + (set f | f in b.current && f.state == s && f.cls == c))
  }

  /** Committing the sets of all classes is committing the region. */
  lemma SevenSetsCommit(b: L.Books<nat, nat>, s: nat)
    ensures var b4 := CommittedSet(CommittedSet(CommittedSet(CommittedSet(b, s, Input), s, IO), s, CIO), s, TIO);
            CommittedSet(CommittedSet(CommittedSet(b4, s, Output), s, CO), s, TO) == L.Step(b, L.Commit(s))
  {
    var b4 := CommittedSet(CommittedSet(CommittedSet(CommittedSet(b, s, Input), s, IO), s, CIO), s, TIO);
    var e, r := CommittedSet(CommittedSet(CommittedSet(b4, s, Output), s, CO), s, TO), L.Step(b, L.Commit(s));
    forall f ensures (f in e.current <==> f in r.current) && (f in e.final <==> f in r.final) {
    }
    assert e.current == r.current && e.final == r.final;
  }

  /** Handing over for the live allocations leaves nothing pending. */
  lemma SettledAll(p: Parents, m: Memory)
    requires Sound(p, m)
    ensures var b := L.Step(m.books, L.Settle(Live(m)));
            && b.pending == {} && b.current + b.final == m.books.Total()
            && forall f :: f in b.current ==> f.state in p
  {
    forall f | f in m.books.pending ensures f.alloc in Live(m) {
      assert Holds(m, f);
    }
  }
}
