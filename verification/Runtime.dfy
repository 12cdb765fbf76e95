/** The objects the runtime keeps: regions ("states"), allocations and the
    entries of a batch. */
module Runtime {
  import opened Classes
  import opened Cleaning
  import C = Classification
  import L = Ledger

  datatype Operation = Redundant
                     | AllocAdd
                     | AllocFree
                     | EscapeAdd
                     | AddRead
                     | AddWrite
                     | AddTo(cls: Class)
                     | StateBegin
                     | StateEnd
                     | RegionSet
                     | StateCommit
                     | DetectCycle

  /** The part of an entry that holds either a size or a region. */
  datatype Payload = Size(size: nat) | Region(state: State)

  datatype Entry = Entry(operation: Operation, ptr: Addr, payload: Payload, affiliated: State?, information: nat)

  /** Offsets by class and allocation. */
  type Offsets = map<(Class, Allocation), set<nat>>

  class State {
    const stateID: nat
    const parent: State?

    // The cleaning pass's maps.
    var ptrMap: map<Addr, Class>
    var iterMap: map<Addr, Class>
    var upgrades: set<Addr>

    // Working sets and final sets, one of each for each class.
    var current: Offsets
    var final: Offsets
    // Uses of each allocation.
    var allocationInfo: map<Allocation, set<nat>>

    constructor (stateID: nat, parent: State?)
      requires Rooted(parent) && (parent != null ==> parent.stateID < stateID)
      ensures this.stateID == stateID && this.parent == parent && Rooted(this)
      ensures Maps() == NO_MAPS && current == map[] && final == map[] && allocationInfo == map[]
    {
      this.stateID, this.parent := stateID, parent;
      ptrMap, iterMap, upgrades := map[], map[], {};
      current, final, allocationInfo := map[], map[], map[];
    }

    function Maps(): Cleaning.Maps
      reads this
    {
      Cleaning.Maps(ptrMap, iterMap, upgrades)
    }

    ghost function CurrentFacts(): set<L.Fact<State, Allocation>>
      reads this
    {
      FactsOf(this, current)
    }

    ghost function FinalFacts(): set<L.Fact<State, Allocation>>
      reads this
    {
      FactsOf(this, final)
    }

    /** An allocation's uses and offsets in this region join the region's sets. */
    method Inject(a: Allocation, info: CommitInfo)
      modifies this`current, this`allocationInfo
      ensures CurrentFacts() == old(CurrentFacts()) + InfoFacts(this, a, info.offsets)
      ensures allocationInfo == WithUses(old(allocationInfo), a, info.uses)
    {
      allocationInfo := allocationInfo[a := (if a in allocationInfo then allocationInfo[a] else {}) + info.uses];
      var left := info.offsets.Keys;
      ghost var done: map<Class, set<nat>> := map[];
      ghost var info0 := allocationInfo;
      while left != {}
        invariant left <= info.offsets.Keys
        invariant done == map c | c in info.offsets && c !in left :: info.offsets[c]
        invariant CurrentFacts() == old(CurrentFacts()) + InfoFacts(this, a, done)
        invariant allocationInfo == info0
        decreases left
      {
        var c :| c in left;
        AddFacts(this, current, c, a, info.offsets[c]);
        InfoFactsStep(this, a, done, c, info.offsets[c]);
        current := current[(c, a) := At(current, (c, a)) + info.offsets[c]];
        done := done[c := info.offsets[c]];
        left := left - {c};
      }
      assert done == info.offsets;
    }

    /** The working sets join the final ones, and the cleaning pass starts afresh. */
    method CommitState()
      modifies this
      ensures FinalFacts() == old(FinalFacts()) + old(CurrentFacts())
      ensures CurrentFacts() == {} && current == map[] && Maps() == NO_MAPS
      ensures allocationInfo == old(allocationInfo)
    {
      final := CommitAndCleanSet(current, final);
      MergedFacts(this, old(current), old(final));
      current := map[];
      ptrMap, iterMap, upgrades := map[], map[], {};
    }
  }

  function At(m: Offsets, k: (Class, Allocation)): set<nat> {
    if k in m then m[k] else {}
  }

  function Merged(tempSet: Offsets, finalSet: Offsets): Offsets {
    map k | k in tempSet.Keys + finalSet.Keys :: At(finalSet, k) + At(tempSet, k)
  }

  lemma MergedFacts(s: State, tempSet: Offsets, finalSet: Offsets)
    ensures FactsOf(s, Merged(tempSet, finalSet)) == FactsOf(s, finalSet) + FactsOf(s, tempSet)
  {
  }

  lemma MergedStep(done: Offsets, finalSet: Offsets, k: (Class, Allocation), offsets: set<nat>)
    requires k !in done
    ensures Merged(done[k := offsets], finalSet) == Merged(done, finalSet)[k := At(finalSet, k) + offsets]
    ensures At(Merged(done, finalSet), k) == At(finalSet, k) && (k in Merged(done, finalSet) <==> k in finalSet)
  {
  }

  lemma MergedNone(finalSet: Offsets)
    ensures Merged(map[], finalSet) == finalSet
  {
    assert forall k :: k in finalSet ==> finalSet[k] + {} == finalSet[k];
  }

  /** The working sets' offsets are added to the final sets', entry by entry. */
  method CommitAndCleanSet(tempSet: Offsets, finalSet: Offsets) returns (r: Offsets)
    ensures r == Merged(tempSet, finalSet)
  {
    r := finalSet;
    var left := tempSet.Keys;
    MergedNone(finalSet);
    assert tempSet - left == map[];
    while left != {}
      invariant left <= tempSet.Keys
      invariant r == Merged(tempSet - left, finalSet)
      decreases left
    {
      var k :| k in left;
      MergedStep(tempSet - left, finalSet, k, tempSet[k]);
      assert (tempSet - left)[k := tempSet[k]] == tempSet - (left - {k});
      if k in r {
        r := r[k := r[k] + tempSet[k]];
      } else {
        assert {} + tempSet[k] == tempSet[k];
        r := r[k := tempSet[k]];
      }
      left := left - {k};
    }
    assert tempSet - left == tempSet;
  }

  ghost function FactsOf(s: State, m: Offsets): set<L.Fact<State, Allocation>> {
    set k, o | k in m && o in m[k] :: L.Fact(s, k.0, k.1, o)
  }

  ghost function InfoFacts(s: State, a: Allocation, offsets: map<Class, set<nat>>): set<L.Fact<State, Allocation>> {
    set c, o | c in offsets && o in offsets[c] :: L.Fact(s, c, a, o)
  }

  ghost function OffsetFacts(s: State, c: Class, a: Allocation, offsets: set<nat>): set<L.Fact<State, Allocation>> {
    set o | o in offsets :: L.Fact(s, c, a, o)
  }

  lemma AddFacts(s: State, m: Offsets, c: Class, a: Allocation, offsets: set<nat>)
    ensures FactsOf(s, m[(c, a) := At(m, (c, a)) + offsets]) == FactsOf(s, m) + OffsetFacts(s, c, a, offsets)
  {
  }

  lemma InfoFactsStep(s: State, a: Allocation, done: map<Class, set<nat>>, c: Class, offsets: set<nat>)
    requires c !in done
    ensures InfoFacts(s, a, done[c := offsets]) == InfoFacts(s, a, done) + OffsetFacts(s, c, a, offsets)
  {
  }

  /** A region's parent was made before it. */
  ghost predicate Rooted(s: State?)
    decreases if s == null then 0 else s.stateID + 1
  {
    s == null || s.parent == null || (s.parent.stateID < s.stateID && Rooted(s.parent))
  }

  /** A region and its parent, its parent's parent, and so on. */
  function Chain(s: State?): set<State>
    requires Rooted(s)
    decreases if s == null then 0 else s.stateID + 1
  {
    if s == null then {} else {s} + Chain(s.parent)
  }

  ghost predicate ClosedUpwards(c: set<State>) {
    forall t :: t in c && t.parent != null ==> t.parent in c
  }

  /** The chain is the least set that has the region and every parent of its members. */
  lemma {:induction false} ChainIsLeast(s: State?, c: set<State>)
    requires Rooted(s)
    ensures (s != null ==> s in Chain(s)) && ClosedUpwards(Chain(s))
    ensures (s != null ==> s in c) && ClosedUpwards(c) ==> Chain(s) <= c
    decreases if s == null then 0 else s.stateID + 1
  {
    if s == null {
    } else {
      ChainIsLeast(s.parent, c);
    }
  }

  /** What an allocation holds for one region: uses, and offsets by class. */
  datatype CommitInfo = CommitInfo(uses: set<nat>, offsets: map<Class, set<nat>>)

  ghost function HeldBy(a: Allocation, m: map<State, CommitInfo>): set<L.Fact<State, Allocation>> {
    set s, f | s in m && f in InfoFacts(s, a, m[s].offsets) :: f
  }

  lemma NotedFacts(a: Allocation, m: map<State, CommitInfo>, s: State, info: CommitInfo, c: Class, offset: nat, uses: set<nat>)
    requires info == if s in m then m[s] else CommitInfo({}, map[])
    ensures var offsets := (if c in info.offsets then info.offsets[c] else {}) + {offset};
            HeldBy(a, m[s := CommitInfo(uses, info.offsets[c := offsets])]) == HeldBy(a, m) + {L.Fact(s, c, a, offset)}
  {
    var more := info.offsets[c := (if c in info.offsets then info.offsets[c] else {}) + {offset}];
    assert InfoFacts(s, a, more) == InfoFacts(s, a, info.offsets) + {L.Fact(s, c, a, offset)};
    assert s !in m ==> InfoFacts(s, a, info.offsets) == {};
    HeldMore(a, m, s, CommitInfo(uses, more), L.Fact(s, c, a, offset));
  }

  lemma HeldMore(a: Allocation, m: map<State, CommitInfo>, s: State, info: CommitInfo, f: L.Fact<State, Allocation>)
    requires InfoFacts(s, a, info.offsets) == (if s in m then InfoFacts(s, a, m[s].offsets) else {}) + {f}
    ensures HeldBy(a, m[s := info]) == HeldBy(a, m) + {f}
  {
    var n := m[s := info];
    assert f in HeldBy(a, n) by {
      assert s in n && f in InfoFacts(s, a, n[s].offsets);
    }
    forall g | g in HeldBy(a, m) ensures g in HeldBy(a, n) {
      var t: State :| t in m && g in InfoFacts(t, a, m[t].offsets);
      assert t in n && g in InfoFacts(t, a, n[t].offsets);
    }
  }

  class Allocation {
    const origin: nat
    var pointer: nat
    var length: nat
    var freshness: nat
    var affiliated: State?
    var commitInfo: map<State, CommitInfo>

    constructor (pointer: nat, length: nat, origin: nat)
      ensures this.pointer == pointer && this.length == length && this.origin == origin
      ensures affiliated == null && commitInfo == map[] && freshness == 0
    {
      this.pointer, this.length, this.origin := pointer, length, origin;
      freshness, affiliated, commitInfo := 0, null, map[];
    }

    /** What the allocation holds for one region. */
    ghost function PendingFor(s: State): set<L.Fact<State, Allocation>>
      reads this
    {
      if s in commitInfo then InfoFacts(s, this, commitInfo[s].offsets) else {}
    }

    /** The uses it holds for one region. */
    function UsesFor(s: State): set<nat>
      reads this
    {
      if s in commitInfo then commitInfo[s].uses else {}
    }

    ghost function PendingFacts(): set<L.Fact<State, Allocation>>
      reads this
    {
      HeldBy(this, commitInfo)
    }

    /** An offset is noted for a region, and a use if there is one. */
    method Note(s: State, c: Class, offset: nat, information: nat)
      modifies this`commitInfo
      ensures commitInfo.Keys == old(commitInfo.Keys) + {s}
      ensures PendingFacts() == old(PendingFacts()) + {L.Fact(s, c, this, offset)}
      ensures UsesFor(s) == old(UsesFor(s)) + if information != 0 then {information} else {}
      ensures forall t :: t in commitInfo && t != s ==> UsesFor(t) == old(UsesFor(t))
    {
      var info := if s in commitInfo then commitInfo[s] else CommitInfo({}, map[]);
      var uses := if information != 0 then info.uses + {information} else info.uses;
      var offsets := (if c in info.offsets then info.offsets[c] else {}) + {offset};
      NotedFacts(this, commitInfo, s, info, c, offset, uses);
      commitInfo := commitInfo[s := CommitInfo(uses, info.offsets[c := offsets])];
    }

    /** What the allocation holds goes to its regions, except for the regions that
        are on the chains both of the region it was made in and of `skipState`: to each
        its offsets and its uses. */
    method CommitStateInfo(skipState: State?, ghost states: set<State>) returns (modified: bool)
      requires Rooted(skipState) && Rooted(affiliated)
      requires commitInfo.Keys <= states
      modifies this`commitInfo, states`current, states`allocationInfo
      ensures commitInfo.Keys == old(commitInfo.Keys) - Chain(skipState) * Chain(old(affiliated))
      ensures PendingFacts() == {} && forall s :: s in commitInfo ==> UsesFor(s) == {}
      ensures forall s :: s in commitInfo ==>
                && s.CurrentFacts() == old(s.CurrentFacts()) + old(PendingFor(s))
                && s.allocationInfo == WithUses(old(s.allocationInfo), this, old(UsesFor(s)))
      ensures forall s :: s in states && s !in commitInfo ==>
                s.CurrentFacts() == old(s.CurrentFacts()) && s.allocationInfo == old(s.allocationInfo)
      ensures modified <==> commitInfo.Keys != {}
    {
      DropShared(skipState);
      modified := commitInfo.Keys != {};
      InjectAll(this, commitInfo, states);
      Clear();
    }

    method Clear()
      modifies this`commitInfo
      ensures commitInfo.Keys == old(commitInfo.Keys) && PendingFacts() == {}
      ensures forall s :: s in commitInfo ==> UsesFor(s) == {}
    {
      commitInfo := map s | s in commitInfo :: CommitInfo({}, map c | c in commitInfo[s].offsets :: {});
    }

    /** The chains of both regions, and the erasure of what is on both. */
    method DropShared(skipState: State?)
      requires Rooted(skipState) && Rooted(affiliated)
      modifies this`commitInfo
      ensures commitInfo == old(commitInfo) - (Chain(skipState) * Chain(affiliated))
    {
      var skipVec := ChainVector(skipState);
      var affilVec := ChainVector(affiliated);
      for i := 0 to |affilVec|
        invariant commitInfo == old(commitInfo) - (Chain(skipState) * set s | s in affilVec[..i])
      {
        var s1 := affilVec[i];
        assert affilVec[..i + 1] == affilVec[..i] + [s1];
        for j := 0 to |skipVec|
          invariant commitInfo == old(commitInfo) - (Chain(skipState) * set s | s in affilVec[..i])
                                  - (if s1 in skipVec[..j] then {s1} else {})
        {
          assert skipVec[..j + 1] == skipVec[..j] + [skipVec[j]];
          if s1 == skipVec[j] {
            commitInfo := commitInfo - {skipVec[j]};
          }
        }
        assert skipVec[..|skipVec|] == skipVec;
      }
      assert affilVec[..|affilVec|] == affilVec;
    }
  }

  /** The uses of each allocation in a region, with more of one allocation. */
  function WithUses(info: map<Allocation, set<nat>>, a: Allocation, uses: set<nat>): (r: map<Allocation, set<nat>>)
    ensures a in r && uses <= r[a] && (a in info ==> info[a] <= r[a])
    ensures forall u :: u in r[a] ==> u in uses || (a in info && u in info[a])
    ensures r - {a} == info - {a}
  {
    info[a := (if a in info then info[a] else {}) + uses]
  }

  /** What an allocation holds is handed to its regions, one after the other. */
  method InjectAll(a: Allocation, infos: map<State, CommitInfo>, ghost states: set<State>)
    requires infos.Keys <= states
    modifies states`current, states`allocationInfo
    ensures forall s :: s in infos ==>
              && s.CurrentFacts() == old(s.CurrentFacts()) + InfoFacts(s, a, infos[s].offsets)
              && s.allocationInfo == WithUses(old(s.allocationInfo), a, infos[s].uses)
    ensures forall s :: s in states && s !in infos ==>
              s.CurrentFacts() == old(s.CurrentFacts()) && s.allocationInfo == old(s.allocationInfo)
  {
    var left := infos.Keys;
    while left != {}
      invariant left <= infos.Keys
      invariant forall s :: s in infos && s !in left ==>
                  && s.CurrentFacts() == old(s.CurrentFacts()) + InfoFacts(s, a, infos[s].offsets)
                  && s.allocationInfo == WithUses(old(s.allocationInfo), a, infos[s].uses)
      invariant forall s :: s in states && (s in left || s !in infos) ==>
                  s.CurrentFacts() == old(s.CurrentFacts()) && s.allocationInfo == old(s.allocationInfo)
      decreases left
    {
      var s :| s in left;
      s.Inject(a, infos[s]);
      left := left - {s};
    }
  }

  /** The chain of a region as a vector. */
  method ChainVector(s: State?) returns (v: seq<State>)
    requires Rooted(s)
    ensures forall t :: t in v <==> t in Chain(s)
  {
    v := [];
    var temp := s;
    while temp != null
      invariant Rooted(temp)
      invariant forall t :: t in Chain(s) <==> t in v || t in Chain(temp)
      decreases if temp == null then 0 else temp.stateID + 1
    {
      v := v + [temp];
      temp := temp.parent;
    }
  }

  function AsOption(s: State?): Option<State> {
    if s == null then None else Some(s)
  }

  /** The entry as the cleaning pass sees it. */
  function OpOf(e: Entry): Op<State> {
    match e.operation
    case AddRead => Access(C.Read, e.ptr)
    case AddWrite => Access(C.Write, e.ptr)
    case StateBegin => if e.payload.Region? then BeginRegion(e.payload.state) else Other
    case StateEnd => if e.payload.Region? then EndRegion(e.payload.state, AsOption(e.payload.state.parent)) else Other
    case _ => Other
  }

  function Ops(es: seq<Entry>): (ops: seq<Op<State>>)
    ensures |ops| == |es|
    ensures forall i :: 0 <= i < |es| ==> ops[i] == OpOf(es[i])
  {
    seq(|es|, i requires 0 <= i < |es| => OpOf(es[i]))
  }
}
