/** The processing pass over a cleaned batch, in place. */
module Shadow {
  import opened Classes
  import opened AllocationTables
  import opened Processing
  import opened Lifetimes
  import B = Blocks
  import L = Ledger

  class Shadow {
    const table: AllocationTable
    const parents: Parents
    const trackCycles: bool
    var allocs: map<nat, Alloc>
    var freshnessSetter: nat
    var books: L.Books<nat, nat>

    ghost function State(): Memory
      reads this, table
    {
      Memory(table.Shape(), table.Owner(), allocs, freshnessSetter, books)
    }

    /** Start-up: nothing but the sentinel in the table. */
    constructor (parents: Parents, trackCycles: bool)
      ensures fresh(table) && this.parents == parents && this.trackCycles == trackCycles
      ensures State() == START && Sound(parents, START)
    {
      var t := new AllocationTable();
      t.InsertAllocation(B.SENTINEL, Block(0, 0));
      table, this.parents, this.trackCycles := t, parents, trackCycles;
      allocs, freshnessSetter, books := map[], 1, L.Empty();
    }

    /** The allocation that the lookup gives for an address. */
    method Locate(ptr: nat) returns (o: Option<nat>)
      requires Sound(parents, State()) && ptr < B.SENTINEL
      ensures o == Located(State(), ptr)
      ensures o.Some? ==> o.value in allocs
    {
      var start, r := table.FindAllocation(ptr);
      LookupLocates(parents, State(), ptr, start);
      if r.None? {
        return None;
      }
      return Some(r.value.origin);
    }

    /** The object of the origin gets the new block and goes into the table. */
    method Place(ptr: nat, size: nat, origin: nat, affiliated: Option<nat>)
      requires ptr != B.SENTINEL && ptr !in table.sorted && ptr !in table.hashed
      modifies this`allocs, table
      ensures table.Shape() == B.Insert(old(table.Shape()), ptr, size)
      ensures table.Owner() == old(table.Owner())[ptr := origin]
      ensures allocs == AddedAlloc(old(allocs), ptr, size, origin, affiliated)
    {
      var newEntry := Alloc(ptr, size, None, 0);
      if origin in allocs {
        newEntry := allocs[origin].(pointer := ptr, length := size);
      }
      table.InsertAllocation(ptr, Block(origin, size));
      newEntry := newEntry.(affiliated := affiliated);
      allocs := allocs[origin := newEntry];
    }

    method ProcessAddAlloc(ptr: nat, size: nat, origin: nat, affiliated: Option<nat>)
      requires Sound(parents, State()) && Permitted(parents, trackCycles, State(), AddAlloc(ptr, size, origin, affiliated))
      modifies this`allocs, table
      ensures State() == Processed(parents, trackCycles, old(State()), AddAlloc(ptr, size, origin, affiliated))
    {
      AddAllocInserts(parents, trackCycles, State(), AddAlloc(ptr, size, origin, affiliated));
      Place(ptr, size, origin, affiliated);
    }

    /** The allocation becomes the freshest; an access that has a class is recorded. */
    method Touch(o: nat, ptr: nat, cls: Option<Class>, state: nat)
      requires o in allocs && (trackCycles || cls.Some?)
      modifies this`allocs, this`freshnessSetter, this`books
      ensures State() == Recorded(trackCycles, old(State()), o,
                                  if cls.Some? then {FactAt(old(State()), o, ptr, cls.value, state)} else {}, 1)
    {
      if trackCycles {
        allocs := allocs[o := allocs[o].(freshness := freshnessSetter)];
        freshnessSetter := freshnessSetter + 1;
        if cls.None? {
          assert books.pending + {} == books.pending;
          return;
        }
      } else {
        assert allocs[o := allocs[o]] == allocs;
      }
      var offset := B.GetOffset(allocs[o].pointer, ptr);
      books := books.(pending := books.pending + {L.Fact(state, cls.value, o, offset)});
    }

    /** One level of an access: the allocation is found again for every ancestor. */
    method RecordAt(ptr: nat, cls: Option<Class>, state: nat) returns (up: bool)
      requires Sound(parents, State()) && ptr < B.SENTINEL && (trackCycles || cls.Some?) && state in parents
      modifies this`allocs, this`freshnessSetter, this`books
      ensures Sound(parents, State())
      ensures State() == OneLevel(trackCycles, old(State()), ptr, cls, state)
      ensures up <==> Located(old(State()), ptr).Some? && !(trackCycles && cls.None?)
    {
      var o := Locate(ptr);
      OneLevelKeeps(parents, trackCycles, State(), ptr, cls, state);
      if o.None? {
        return false;
      }
      Touch(o.value, ptr, cls, state);
      return cls.Some?;
    }

    method ProcessAddToState(ptr: nat, cls: Option<Class>, state: nat)
      requires Sound(parents, State()) && Permitted(parents, trackCycles, State(), AddTo(ptr, cls, state))
      modifies this`allocs, this`freshnessSetter, this`books
      ensures State() == Processed(parents, trackCycles, old(State()), AddTo(ptr, cls, state))
    {
      ghost var m := State();
      var s := Some(state);
      var up := true;
      while s.Some? && up
        invariant s.Some? ==> s.value in parents
        invariant Sound(parents, State())
        invariant AllLevels(parents, trackCycles, State(), ptr, cls, if up then s else None)
               == AllLevels(parents, trackCycles, m, ptr, cls, Some(state))
        decreases if s.Some? then s.value + 1 else 0, up
      {
        up := RecordAt(ptr, cls, s.value);
        s := parents[s.value];
      }
      LevelsAreProcessed(parents, trackCycles, m, AddTo(ptr, cls, state));
    }

    /** A free: what the allocation with the address holds goes to its regions, less
        those that are on both chains; only an address that is a start is removed. */
    method ProcessFreeAllocation(ptr: nat, affiliated: Option<nat>)
      requires Sound(parents, State()) && Permitted(parents, trackCycles, State(), FreeAlloc(ptr, affiliated))
      modifies this`books, table
      ensures State() == Processed(parents, trackCycles, old(State()), FreeAlloc(ptr, affiliated))
      ensures var o := old(Located(State(), ptr)); o.Some? ==> forall f :: f in old(books.pending) && f.alloc == o.value ==>
                && f !in books.pending
                && (f in books.current <==>
                      || f in old(books.current)
                      || f.state !in Chain(parents, affiliated) || f.state !in Chain(parents, old(allocs)[o.value].affiliated))
    {
      var o := Locate(ptr);
      if o.None? {
        return;
      }
      L.RunOne(books, MovesOf(parents, State(), FreeAlloc(ptr, affiliated))[0]);
      CommitStateInfo(o.value, affiliated);
      assert table.sorted.Keys == table.Shape().sorted.Keys;
      table.DeleteAllocation(ptr);
    }

    method ChainOf(s: Option<nat>) returns (r: set<nat>)
      requires Rooted(parents) && (s.Some? ==> s.value in parents)
      ensures r == Chain(parents, s)
    {
      r := {};
      var temp := s;
      while temp.Some?
        invariant temp.Some? ==> temp.value in parents
        invariant r + Chain(parents, temp) == Chain(parents, s)
        decreases if temp.Some? then temp.value + 1 else 0
      {
        r := r + {temp.value};
        temp := parents[temp.value];
      }
    }

    /** What an allocation holds goes to its regions, fact by fact, less the regions
        on both chains. */
    method CommitStateInfo(o: nat, skipState: Option<nat>)
      requires o in allocs && Rooted(parents)
      requires skipState.Some? ==> skipState.value in parents
      requires allocs[o].affiliated.Some? ==> allocs[o].affiliated.value in parents
      modifies this`books
      ensures books == L.Step(old(books), L.Free(o, Chain(parents, skipState) * Chain(parents, allocs[o].affiliated)))
    {
      var skip := ChainOf(skipState);
      var affil := ChainOf(allocs[o].affiliated);
      ghost var before := books;
      var left := set f | f in books.pending && f.alloc == o;
      ghost var held, done: set<Fact> := left, {};
      while left != {}
        invariant left == held - done && done <= held
        invariant books == before.(pending := before.pending - done, current := before.current + Passed(done, skip * affil))
        decreases left
      {
        var f :| f in left;
        PassedMore(done, f, skip * affil);
        left := left - {f};
        done := done + {f};
        if f.state in skip && f.state in affil {
          books := books.(pending := books.pending - {f});
        } else {
          books := books.(pending := books.pending - {f}, current := books.current + {f});
        }
      }
      PassedAll(before, o, skip * affil, done);
    }

    /** Every live allocation hands over what it holds, with no region to skip: then
        nothing is pending, and nothing is lost. */
    method CommitStateInfoForAllocations()
      requires Sound(parents, State()) && Rooted(parents)
      modifies this`books
      ensures books == L.Step(old(books), L.Settle(Live(old(State()))))
      ensures books.pending == {} && books.Total() == old(books.Total())
    {
      ghost var m := State();
      var live := table.Live();
      var left := live;
      L.SettleNone(books);
      assert live - left == {};
      while left != {}
        invariant left <= live
        invariant books == L.Step(m.books, L.Settle(live - left))
        decreases left
      {
        var o :| o in left;
        LiveIsAlloc(parents, m, o);
        CommitStateInfo(o, None);
        L.SettleOneMore(m.books, live - left, o);
        assert live - left + {o} == live - (left - {o});
        assert {} * Chain(parents, allocs[o].affiliated) == {};
        left := left - {o};
      }
      assert live - left == live;
      SettledAll(parents, m);
    }

    /** The working facts of a region and a class become final, one by one. */
    method CommitAndCleanSet(s: nat, c: Class)
      modifies this`books
      ensures books == CommittedSet(old(books), s, c)
    {
      ghost var before := books;
      var left := set f | f in books.current && f.state == s && f.cls == c;
      while left != {}
        invariant forall f :: f in left <==> f in books.current && f.state == s && f.cls == c
        invariant books.pending == before.pending
        invariant books.current == left + set f | f in before.current && !(f.state == s && f.cls == c)
        invariant books.final == before.final + set f | f in before.current && f.state == s && f.cls == c && f !in left
        decreases left
      {
        var f :| f in left;
        left := left - {f};
        books := books.(current := books.current - {f}, final := books.final + {f});
      }
    }

    method CommitState(s: nat)
      modifies this`books
      ensures books == L.Step(old(books), L.Commit(s))
    {
      CommitAndCleanSet(s, Input);
      CommitAndCleanSet(s, IO);
      CommitAndCleanSet(s, CIO);
      CommitAndCleanSet(s, TIO);
      CommitAndCleanSet(s, Output);
      CommitAndCleanSet(s, CO);
      CommitAndCleanSet(s, TO);
      SevenSetsCommit(old(books), s);
    }

    method ProcessCommit(s: nat)
      requires Sound(parents, State()) && Permitted(parents, trackCycles, State(), Commit(s))
      modifies this`books
      ensures State() == Processed(parents, trackCycles, old(State()), Commit(s))
    {
      L.RunTwo(books, L.Settle(Live(State())), L.Commit(s));
      CommitStateInfoForAllocations();
      CommitState(s);
    }

    method ProcessEntry(e: Entry)
      requires Sound(parents, State()) && Permitted(parents, trackCycles, State(), e)
      modifies this, table
      ensures Next(parents, trackCycles, Some(old(State())), e) == Some(State())
    {
      match e
      case AddAlloc(ptr, size, origin, affiliated) => ProcessAddAlloc(ptr, size, origin, affiliated);
      case AddTo(ptr, cls, state) => ProcessAddToState(ptr, cls, state);
      case FreeAlloc(ptr, affiliated) => ProcessFreeAllocation(ptr, affiliated);
      case Commit(s) => ProcessCommit(s);
      case Redundant =>
    }

    /** A batch is processed, after the entries of all batches before it. */
    method ProcessBatch(batch: seq<Entry>, ghost past: seq<Entry>)
      requires After(parents, trackCycles, past) == Some(State())
      requires After(parents, trackCycles, past + batch).Some?
      modifies this, table
      ensures After(parents, trackCycles, past + batch) == Some(State())
    {
      ghost var mem := StatesOf(parents, trackCycles, past, batch);
      ProcessAll(batch, mem);
    }

    /** The loop over the entries, through the states that they come to. */
    method ProcessAll(batch: seq<Entry>, ghost mem: seq<Memory>)
      requires |mem| == |batch| + 1 && mem[0] == State()
      requires forall i :: 0 <= i < |batch| ==> Comes(parents, trackCycles, mem[i], batch[i], mem[i + 1])
      modifies this, table
      ensures State() == mem[|batch|]
    {
      for i := 0 to |batch|
        invariant State() == mem[i]
      {
        assert Comes(parents, trackCycles, mem[i], batch[i], mem[i + 1]);
        ProcessEntry(batch[i]);
      }
    }

    /** The end of the program: live allocations hand over what they hold and every
        region is committed. The final sets then hold what is held at the end and what
        was handed over before, as the entries tell. */
    method ReportStatistics(ghost past: seq<Entry>)
      requires Rooted(parents) && After(parents, trackCycles, past) == Some(State())
      modifies this`books
      ensures books.pending == {} && books.current == {}
      ensures forall f :: f in books.final <==> Held(parents, past, |past|, f) || Handed(parents, past, |past|, f)
    {
      RunIsSound(parents, trackCycles, past);
      forall f ensures f in books.Total() <==> Held(parents, past, |past|, f) || Handed(parents, past, |past|, f) {
        FactsTold(parents, trackCycles, past, State(), f);
      }
      SettledAll(parents, State());
      CommitStateInfoForAllocations();
      var left := parents.Keys;
      while left != {}
        invariant left <= parents.Keys
        invariant books.pending == {}
        invariant books.current + books.final == old(books.Total())
        invariant forall f :: f in books.current ==> f.state in left
        decreases left
      {
        var s :| s in left;
        CommitState(s);
        left := left - {s};
      }
      assert books.current == {};
    }
  }
}
