/** What the report holds for an offset, against the history of its address. */
module Outcome {
  import opened Classes
  import opened Cleaning
  import C = Classification
  import B = Blocks
  import L = Ledger
  import opened Processing

  /** The entries the processing pass gets from the labels of the cleaning pass: an
      access without a class is left out unless cycles are tracked. */
  function EntryOf(cycles: bool, l: Label<nat>): Entry {
    if l.NoAccess? || l.region.None? || (!cycles && l.cls.None?) then Redundant
    else AddTo(l.ptr, l.cls, l.region.value)
  }

  function EntriesOf(cycles: bool, ls: seq<Label<nat>>): seq<Entry> {
    if ls == [] then [] else EntriesOf(cycles, ls[..|ls| - 1]) + [EntryOf(cycles, ls[|ls| - 1])]
  }

  /** An allocation is live, and in the same place, from one state to another. */
  ghost predicate LiveAt(m: Memory, o: nat, pointer: nat, length: nat) {
    && o in m.allocs && m.allocs[o].pointer == pointer && m.allocs[o].length == length
    && pointer in m.owner && m.owner[pointer] == o
  }

  /** A label puts a fact about an offset of the allocation on record. */
  ghost predicate Notes(p: Parents, l: Label<nat>, pointer: nat, f: Fact)
    requires Rooted(p)
  {
    && l.Label? && l.region.Some? && l.region.value in p && l.ptr == pointer + f.offset && l.cls == Some(f.cls)
    && f.state in Chain(p, l.region)
  }

  lemma LocatedInside(p: Parents, m: Memory, o: nat, pointer: nat, length: nat, offset: nat)
    requires Sound(p, m) && LiveAt(m, o, pointer, length) && offset < length
    ensures pointer + offset < B.SENTINEL && Located(m, pointer + offset) == Some(o)
  {
    assert B.IsBlock(m.table, pointer) && B.Length(m.table, pointer) == length;
    assert B.Covers(m.table, pointer, pointer + offset);
    BlockBelow(m.table, pointer, pointer + offset);
    B.OneCovers(m.table, pointer + offset, pointer, BlockAt(m.table, pointer + offset).value);
  }

  lemma AddToKeepsLive(p: Parents, cycles: bool, m: Memory, e: Entry, o: nat, pointer: nat, length: nat)
    requires Known(p, m, e) && e.AddTo? && LiveAt(m, o, pointer, length)
    ensures LiveAt(Processed(p, cycles, m, e), o, pointer, length)
  {
  }

  /** Which facts an access records, by the allocation that the lookup gives for it. */
  lemma AddToTotal(p: Parents, cycles: bool, m: Memory, e: Entry, f: Fact)
    requires Sound(p, m) && Permitted(p, cycles, m, e) && e.AddTo?
    ensures f in Processed(p, cycles, m, e).books.Total() <==>
            f in m.books.Total() || RecordsFact(p, m, e, f)
  {
    LocatedIsLive(p, m, e.ptr);
    if Located(m, e.ptr).Some? && e.cls.Some? {
      ProcessedRecords(p, cycles, m, e, Located(m, e.ptr).value);
    } else {
      BooksOfProcessed(p, cycles, m, e);
    }
  }

  ghost predicate RecordsFact(p: Parents, m: Memory, e: Entry, f: Fact)
    requires Known(p, m, e) && e.AddTo?
  {
    && Located(m, e.ptr) == Some(f.alloc) && f.alloc in m.allocs && e.cls == Some(f.cls)
    && B.GetOffset(m.allocs[f.alloc].pointer, e.ptr) == f.offset && f.state in Chain(p, Some(e.state))
  }

  lemma OffsetDecides(p: Parents, m: Memory, ptr: nat, o: nat, pointer: nat, length: nat, offset: nat)
    requires Sound(p, m) && LiveAt(m, o, pointer, length) && offset < length && ptr < B.SENTINEL
    ensures Located(m, ptr) == Some(o) && B.GetOffset(pointer, ptr) == offset <==> ptr == pointer + offset
  {
    LocatedInside(p, m, o, pointer, length, offset);
    LocatedIsLive(p, m, ptr);
  }

  /** A labelled access adds the facts it notes and no others of the allocation. */
  lemma AddToAdds(p: Parents, cycles: bool, m: Memory, e: Entry, o: nat, pointer: nat, length: nat, f: Fact)
    requires Sound(p, m) && Permitted(p, cycles, m, e) && e.AddTo?
    requires LiveAt(m, o, pointer, length) && f.alloc == o && f.offset < length
    ensures RecordsFact(p, m, e, f) <==> e.ptr == pointer + f.offset && e.cls == Some(f.cls) && f.state in Chain(p, Some(e.state))
  {
    OffsetDecides(p, m, e.ptr, o, pointer, length, f.offset);
  }

  /** One more label. */
  lemma LabelAdds(p: Parents, cycles: bool, m: Memory, l: Label<nat>, o: nat, pointer: nat, length: nat, f: Fact)
    requires Sound(p, m) && Permitted(p, cycles, m, EntryOf(cycles, l))
    requires LiveAt(m, o, pointer, length) && f.alloc == o && f.offset < length
    ensures LiveAt(Processed(p, cycles, m, EntryOf(cycles, l)), o, pointer, length)
    ensures f in Processed(p, cycles, m, EntryOf(cycles, l)).books.Total() <==> f in m.books.Total() || Notes(p, l, pointer, f)
  {
    if EntryOf(cycles, l).AddTo? {
      AddToKeepsLive(p, cycles, m, EntryOf(cycles, l), o, pointer, length);
      AddToTotal(p, cycles, m, EntryOf(cycles, l), f);
      AddToAdds(p, cycles, m, EntryOf(cycles, l), o, pointer, length, f);
    }
  }

  ghost predicate NotedIn(p: Parents, ls: seq<Label<nat>>, pointer: nat, f: Fact)
    requires Rooted(p)
  {
    exists i :: 0 <= i < |ls| && Notes(p, ls[i], pointer, f)
  }

  lemma NotedOneMore(p: Parents, ls: seq<Label<nat>>, l: Label<nat>, pointer: nat, f: Fact)
    requires Rooted(p)
    ensures NotedIn(p, ls + [l], pointer, f) <==> NotedIn(p, ls, pointer, f) || Notes(p, l, pointer, f)
  {
    var more := ls + [l];
    forall i | 0 <= i < |ls| ensures more[i] == ls[i] {
    }
    assert more[|ls|] == l;
  }

  lemma AfterEntry(p: Parents, cycles: bool, pre: seq<Entry>, less: seq<Label<nat>>, l: Label<nat>)
    ensures After(p, cycles, pre + EntriesOf(cycles, less + [l]))
         == Next(p, cycles, After(p, cycles, pre + EntriesOf(cycles, less)), EntryOf(cycles, l))
  {
    var done, all := pre + EntriesOf(cycles, less), pre + EntriesOf(cycles, less + [l]);
    assert (less + [l])[..|less|] == less;
    assert all == done + [EntryOf(cycles, l)];
    assert all[..|all| - 1] == done;
  }

  lemma NextLabel(p: Parents, cycles: bool, pre: seq<Entry>, less: seq<Label<nat>>, l: Label<nat>)
    requires After(p, cycles, pre + EntriesOf(cycles, less + [l])).Some?
    ensures var m := After(p, cycles, pre + EntriesOf(cycles, less));
            && m.Some? && Sound(p, m.value) && Permitted(p, cycles, m.value, EntryOf(cycles, l))
            && After(p, cycles, pre + EntriesOf(cycles, less + [l])) == Some(Processed(p, cycles, m.value, EntryOf(cycles, l)))
  {
    var done, all := pre + EntriesOf(cycles, less), pre + EntriesOf(cycles, less + [l]);
    assert (less + [l])[..|less|] == less;
    assert all == done + [EntryOf(cycles, l)];
    assert all[..|all| - 1] == done;
    RunIsSound(p, cycles, done);
  }

  /** After some labels: the allocation is where it was, and a fact about it is on
      record if it was before or a label notes it. */
  ghost predicate Recorded(p: Parents, m0: Memory, m: Memory, ls: seq<Label<nat>>, o: nat, pointer: nat, length: nat, f: Fact)
    requires Rooted(p)
  {
    LiveAt(m, o, pointer, length) && (f in m.books.Total() <==> f in m0.books.Total() || NotedIn(p, ls, pointer, f))
  }

  lemma RecordsOneMore(p: Parents, cycles: bool, m0: Memory, m: Memory, less: seq<Label<nat>>, l: Label<nat>,
                       o: nat, pointer: nat, length: nat, f: Fact)
    requires Rooted(p) && Recorded(p, m0, m, less, o, pointer, length, f)
    requires Sound(p, m) && Permitted(p, cycles, m, EntryOf(cycles, l)) && f.alloc == o && f.offset < length
    ensures Recorded(p, m0, Processed(p, cycles, m, EntryOf(cycles, l)), less + [l], o, pointer, length, f)
  {
    NotedOneMore(p, less, l, pointer, f);
    LabelAdds(p, cycles, m, l, o, pointer, length, f);
  }

  /** The facts on record after the labels are those before and those they note. */
  lemma {:induction false} LabelsAreRecorded(p: Parents, cycles: bool, pre: seq<Entry>, ls: seq<Label<nat>>,
                                             m0: Memory, o: nat, pointer: nat, length: nat, f: Fact)
    requires Rooted(p)
    requires After(p, cycles, pre + EntriesOf(cycles, ls)).Some? && After(p, cycles, pre) == Some(m0)
    requires LiveAt(m0, o, pointer, length) && f.alloc == o && f.offset < length
    ensures Recorded(p, m0, After(p, cycles, pre + EntriesOf(cycles, ls)).value, ls, o, pointer, length, f)
    decreases |ls|
  {
    if ls == [] {
      assert pre + EntriesOf(cycles, ls) == pre;
    } else {
      var less, l := ls[..|ls| - 1], ls[|ls| - 1];
      assert ls == less + [l];
      NextLabel(p, cycles, pre, less, l);
      LabelsAreRecorded(p, cycles, pre, less, m0, o, pointer, length, f);
      RecordsOneMore(p, cycles, m0, After(p, cycles, pre + EntriesOf(cycles, less)).value, less, l, o, pointer, length, f);
    }
  }

  /** The label's region is one, and its address lies below the sentinel. */
  predicate InRange(p: Parents, l: Label<nat>) {
    l.Label? && l.region.Some? ==> l.region.value in p && l.ptr < B.SENTINEL
  }

  lemma LabelPermitted(p: Parents, cycles: bool, m: Memory, l: Label<nat>)
    requires Rooted(p) && Sound(p, m) && InRange(p, l)
    ensures Next(p, cycles, Some(m), EntryOf(cycles, l)).Some?
  {
  }

  /** Whatever the labels, the processing pass can take them, tracking cycles or not. */
  lemma {:induction false} LabelsArePermitted(p: Parents, cycles: bool, pre: seq<Entry>, ls: seq<Label<nat>>)
    requires Rooted(p) && After(p, cycles, pre).Some? && forall i :: 0 <= i < |ls| ==> InRange(p, ls[i])
    ensures After(p, cycles, pre + EntriesOf(cycles, ls)).Some?
    decreases |ls|
  {
    if ls == [] {
      assert pre + EntriesOf(cycles, ls) == pre;
    } else {
      var less, l := ls[..|ls| - 1], ls[|ls| - 1];
      assert ls == less + [l];
      LabelsArePermitted(p, cycles, pre, less);
      AfterEntry(p, cycles, pre, less, l);
      RunIsSound(p, cycles, pre + EntriesOf(cycles, less));
      LabelPermitted(p, cycles, After(p, cycles, pre + EntriesOf(cycles, less)).value, l);
    }
  }

  /** The join of the labels is the least class above all of them. */
  lemma {:induction false} JoinForIsLeast(ls: seq<Label<nat>>, s: nat, a: Addr, k: Option<Class>)
    ensures Leq(JoinFor(ls, s, a), k) <==>
            forall i :: 0 <= i < |ls| && ls[i].Label? && ls[i].region == Some(s) && ls[i].ptr == a ==> Leq(ls[i].cls, k)
    decreases |ls|
  {
    if ls == [] {
    } else {
      JoinForIsLeast(ls[1..], s, a, k);
      var mine := ls[0].Label? && ls[0].region == Some(s) && ls[0].ptr == a;
      var rest := JoinFor(ls[1..], s, a);
      if mine {
        JoinLeq(ls[0].cls, rest, k);
      }
      if forall i :: 0 <= i < |ls| && ls[i].Label? && ls[i].region == Some(s) && ls[i].ptr == a ==> Leq(ls[i].cls, k) {
        assert forall i :: 0 <= i < |ls[1..]| ==> ls[1..][i] == ls[i + 1];
      }
      if Leq(rest, k) {
        forall i | 0 < i < |ls| && ls[i].Label? && ls[i].region == Some(s) && ls[i].ptr == a ensures Leq(ls[i].cls, k) {
          assert ls[1..][i - 1] == ls[i];
        }
      }
    }
  }

  lemma JoinLeq(c: Option<Class>, d: Option<Class>, k: Option<Class>)
    ensures Leq(Join(c, d), k) <==> Leq(c, k) && Leq(d, k)
  {
  }

  /** Every class on record for an offset in a region is at most `k`. */
  ghost predicate Bounded(m: Memory, s: nat, o: nat, offset: nat, k: Option<Class>) {
    forall c: Class :: L.Fact(s, c, o, offset) in m.books.Total() ==> Leq(Some(c), k)
  }

  /** `top` is the join of the classes on record. */
  ghost predicate SavedJoinIs(m: Memory, s: nat, o: nat, offset: nat, top: Option<Class>) {
    forall k: Option<Class> :: Leq(top, k) <==> Bounded(m, s, o, offset, k)
  }

  /** `r` is the region `s` or one nested in it. */
  ghost predicate Within(p: Parents, r: nat, s: nat)
    requires Rooted(p)
  {
    r in p && s in Chain(p, Some(r))
  }

  /** Every label of the address, in the region or one nested in it, is at most `k`. */
  ghost predicate LabelsBounded(p: Parents, ls: seq<Label<nat>>, s: nat, a: Addr, k: Option<Class>)
    requires Rooted(p)
  {
    forall i :: 0 <= i < |ls| && ls[i].Label? && ls[i].region.Some? && Within(p, ls[i].region.value, s) && ls[i].ptr == a ==>
                  Leq(ls[i].cls, k)
  }

  /** Bounding the labels is bounding what they note. */
  lemma NotesAreLabels(p: Parents, ls: seq<Label<nat>>, pointer: nat, s: nat, o: nat, offset: nat, k: Option<Class>)
    requires Rooted(p)
    ensures LabelsBounded(p, ls, s, pointer + offset, k)
       <==> forall c: Class :: NotedIn(p, ls, pointer, L.Fact(s, c, o, offset)) ==> Leq(Some(c), k)
  {
    if forall c: Class :: NotedIn(p, ls, pointer, L.Fact(s, c, o, offset)) ==> Leq(Some(c), k) {
      forall i | 0 <= i < |ls| && ls[i].Label? && ls[i].region.Some? && Within(p, ls[i].region.value, s)
                 && ls[i].ptr == pointer + offset
        ensures Leq(ls[i].cls, k)
      {
        if ls[i].cls.Some? {
          assert Notes(p, ls[i], pointer, L.Fact(s, ls[i].cls.value, o, offset));
        }
      }
    }
  }

  /** ... and bounding the joins of all the regions' labels. */
  lemma LabelsBoundedByRegion(p: Parents, ls: seq<Label<nat>>, s: nat, a: Addr, k: Option<Class>)
    requires Rooted(p)
    ensures LabelsBounded(p, ls, s, a, k) <==> forall r :: Within(p, r, s) ==> Leq(JoinFor(ls, r, a), k)
  {
    forall r: nat | Within(p, r, s)
      ensures Leq(JoinFor(ls, r, a), k) <==>
              forall i :: 0 <= i < |ls| && ls[i].Label? && ls[i].region == Some(r) && ls[i].ptr == a ==> Leq(ls[i].cls, k)
    {
      JoinForIsLeast(ls, r, a, k);
    }
    if LabelsBounded(p, ls, s, a, k) {
      forall r: nat | Within(p, r, s) ensures Leq(JoinFor(ls, r, a), k) {
      }
    }
    if forall r :: Within(p, r, s) ==> Leq(JoinFor(ls, r, a), k) {
      forall i | 0 <= i < |ls| && ls[i].Label? && ls[i].region.Some? && Within(p, ls[i].region.value, s) && ls[i].ptr == a
        ensures Leq(ls[i].cls, k)
      {
        assert Leq(JoinFor(ls, ls[i].region.value, a), k);
      }
    }
  }

  /** The classes on record for a region are bounded exactly as the labels of the
      region and of all regions nested in it are. */
  lemma SavedBoundedIff(p: Parents, cycles: bool, pre: seq<Entry>, ls: seq<Label<nat>>, m0: Memory,
                        o: nat, pointer: nat, length: nat, s: nat, offset: nat, k: Option<Class>)
    requires Rooted(p)
    requires After(p, cycles, pre + EntriesOf(cycles, ls)).Some? && After(p, cycles, pre) == Some(m0)
    requires LiveAt(m0, o, pointer, length) && offset < length
    requires forall c: Class :: L.Fact(s, c, o, offset) !in m0.books.Total()
    ensures Bounded(After(p, cycles, pre + EntriesOf(cycles, ls)).value, s, o, offset, k)
       <==> forall r :: Within(p, r, s) ==> Leq(JoinFor(ls, r, pointer + offset), k)
  {
    var m := After(p, cycles, pre + EntriesOf(cycles, ls)).value;
    forall c: Class ensures L.Fact(s, c, o, offset) in m.books.Total() <==> NotedIn(p, ls, pointer, L.Fact(s, c, o, offset)) {
      LabelsAreRecorded(p, cycles, pre, ls, m0, o, pointer, length, L.Fact(s, c, o, offset));
    }
    BoundedAsNoted(p, ls, m, pointer, s, o, offset, k);
  }

  lemma BoundedAsNoted(p: Parents, ls: seq<Label<nat>>, m: Memory, pointer: nat, s: nat, o: nat, offset: nat, k: Option<Class>)
    requires Rooted(p)
    requires forall c: Class :: L.Fact(s, c, o, offset) in m.books.Total() <==> NotedIn(p, ls, pointer, L.Fact(s, c, o, offset))
    ensures Bounded(m, s, o, offset, k) <==> forall r :: Within(p, r, s) ==> Leq(JoinFor(ls, r, pointer + offset), k)
  {
    NotesAreLabels(p, ls, pointer, s, o, offset, k);
    LabelsBoundedByRegion(p, ls, s, pointer + offset, k);
  }

  /** The closed form of an address's history in a region, over all batches. */
  function HistoryClass(batches: seq<seq<Op<nat>>>, r: nat, a: Addr): Option<Class> {
    C.ClosedForm(C.ConcatIterations(Histories(batches, None, r, a)))
  }

  ghost predicate HistoriesBounded(p: Parents, batches: seq<seq<Op<nat>>>, s: nat, a: Addr, k: Option<Class>)
    requires Rooted(p)
  {
    forall r :: Within(p, r, s) ==> Leq(HistoryClass(batches, r, a), k)
  }

  /** When no batch is cut inside an iteration of a region or of one nested in it,
      the classes on record for an offset, of an allocation that lives throughout,
      join to the join of the closed forms of its address's histories in all of them. */
  lemma SavedIsHistory(p: Parents, cycles: bool, pre: seq<Entry>, batches: seq<seq<Op<nat>>>, m0: Memory, m: Memory,
                       o: nat, pointer: nat, length: nat, s: nat, offset: nat, k: Option<Class>)
    requires Rooted(p) && forall r :: Within(p, r, s) ==> CutBetween(batches, None, r)
    requires After(p, cycles, pre) == Some(m0)
    requires After(p, cycles, pre + EntriesOf(cycles, AllLabels(Initial(), batches))) == Some(m)
    requires LiveAt(m0, o, pointer, length) && offset < length
    requires forall c: Class :: L.Fact(s, c, o, offset) !in m0.books.Total()
    ensures Bounded(m, s, o, offset, k) <==> HistoriesBounded(p, batches, s, pointer + offset, k)
  {
    var ls := AllLabels(Initial(), batches);
    SavedBoundedIff(p, cycles, pre, ls, m0, o, pointer, length, s, offset, k);
    forall r: nat | Within(p, r, s) ensures JoinFor(ls, r, pointer + offset) == HistoryClass(batches, r, pointer + offset) {
      WholeIterationBatches(batches, r, pointer + offset);
    }
  }

  /** ... which is the region's own closed form exactly when those of the regions
      nested in it are not above it. */
  lemma SavedIsOwnHistoryIff(p: Parents, cycles: bool, pre: seq<Entry>, batches: seq<seq<Op<nat>>>, m0: Memory, m: Memory,
                             o: nat, pointer: nat, length: nat, s: nat, offset: nat)
    requires Rooted(p) && s in p && forall r :: Within(p, r, s) ==> CutBetween(batches, None, r)
    requires After(p, cycles, pre) == Some(m0)
    requires After(p, cycles, pre + EntriesOf(cycles, AllLabels(Initial(), batches))) == Some(m)
    requires LiveAt(m0, o, pointer, length) && offset < length
    requires forall c: Class :: L.Fact(s, c, o, offset) !in m0.books.Total()
    ensures var own := HistoryClass(batches, s, pointer + offset);
            SavedJoinIs(m, s, o, offset, own) <==> HistoriesBounded(p, batches, s, pointer + offset, own)
  {
    forall k: Option<Class> ensures Bounded(m, s, o, offset, k) <==> HistoriesBounded(p, batches, s, pointer + offset, k) {
      SavedIsHistory(p, cycles, pre, batches, m0, m, o, pointer, length, s, offset, k);
    }
    OwnIff(p, batches, m, s, o, offset, pointer + offset);
  }

  lemma OwnIff(p: Parents, batches: seq<seq<Op<nat>>>, m: Memory, s: nat, o: nat, offset: nat, a: Addr)
    requires Rooted(p) && s in p
    requires forall k: Option<Class> :: Bounded(m, s, o, offset, k) <==> HistoriesBounded(p, batches, s, a, k)
    ensures var own := HistoryClass(batches, s, a);
            SavedJoinIs(m, s, o, offset, own) <==> HistoriesBounded(p, batches, s, a, own)
  {
    var own := HistoryClass(batches, s, a);
    assert Within(p, s, s);
    if HistoriesBounded(p, batches, s, a, own) {
      forall k: Option<Class> ensures Leq(own, k) <==> HistoriesBounded(p, batches, s, a, k) {
        BoundedAbove(p, batches, s, a, own, k);
      }
    }
    if SavedJoinIs(m, s, o, offset, own) {
      assert Leq(own, own);
    }
  }

  lemma BoundedAbove(p: Parents, batches: seq<seq<Op<nat>>>, s: nat, a: Addr, own: Option<Class>, k: Option<Class>)
    requires Rooted(p) && s in p && own == HistoryClass(batches, s, a) && HistoriesBounded(p, batches, s, a, own)
    ensures Leq(own, k) <==> HistoriesBounded(p, batches, s, a, k)
  {
    assert Within(p, s, s);
    if Leq(own, k) {
      forall r: nat | Within(p, r, s) ensures Leq(HistoryClass(batches, r, a), k) {
        assert Leq(HistoryClass(batches, r, a), own);
      }
    }
  }

  /** In particular when no region of the stream is nested in it. */
  lemma InnermostIsOwnHistory(p: Parents, batches: seq<seq<Op<nat>>>, s: nat, a: Addr)
    requires Rooted(p) && forall r :: Within(p, r, s) && r != s ==> HistoryClass(batches, r, a).None?
    ensures HistoriesBounded(p, batches, s, a, HistoryClass(batches, s, a))
  {
  }
}
