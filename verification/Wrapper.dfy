/** The calls the instrumented program makes, as they update the runtime's globals. */
module Wrapper {
  import opened Classes
  import opened Cleaning
  import opened Instrumentation
  import C = Classification

  /** Where a region is in the program. */
  datatype Place = Place(functionName: string, lineNumber: nat)

  /** A region as it was made: its place, and its parent by number. */
  datatype State = State(place: Place, parent: Option<nat>)

  function PlaceOf(regions: map<nat, State>, id: Option<nat>): Option<Place> {
    if id.Some? && id.value in regions then Some(regions[id.value].place) else None
  }

  /** The regions are in different places, with their numbers in `ids`, below the next
      number; parents are regions, with their places in `parents`. */
  ghost predicate Known(regions: map<nat, State>, next: nat, ids: map<Place, nat>, parents: map<Place, Option<Place>>) {
    && parents.Keys == ids.Keys
    && (forall s :: s in ids ==> ids[s] in regions && regions[ids[s]].place == s && parents[s] == PlaceOf(regions, regions[ids[s]].parent))
    && (forall i :: i in regions ==> i < next && regions[i].place in ids && ids[regions[i].place] == i)
    && (forall i :: i in regions && regions[i].parent.Some? ==> regions[i].parent.value in regions)
  }

  function Larger(sizes: map<nat, nat>, id: nat, footprint: Option<nat>): nat {
    var size := if id in sizes then sizes[id] else 0;
    if footprint.Some? && footprint.value > size then footprint.value else size
  }

  /** The sizes after regions have been entered in turn, each with the live memory there. */
  function SizesAfter(sizes: map<nat, nat>, entered: seq<(nat, Option<nat>)>): map<nat, nat> {
    if entered == [] then sizes
    else
      var before, e := SizesAfter(sizes, entered[..|entered| - 1]), entered[|entered| - 1];
      before[e.0 := Larger(before, e.0, e.1)]
  }

  /** A region's size is the most memory that was live at its entrances. */
  lemma {:induction false} SizeIsMaximum(entered: seq<(nat, Option<nat>)>, id: nat)
    ensures var sizes := SizesAfter(map[], entered);
            && (id in sizes <==> exists k :: 0 <= k < |entered| && entered[k].0 == id)
            && (id in sizes ==>
                  && (forall k :: 0 <= k < |entered| && entered[k].0 == id && entered[k].1.Some? ==> entered[k].1.value <= sizes[id])
                  && (sizes[id] == 0 || (id, Some(sizes[id])) in entered))
    decreases |entered|
  {
    if entered == [] {
    } else {
      var n := |entered| - 1;
      SizeIsMaximum(entered[..n], id);
      assert entered == entered[..n] + [entered[n]];
    }
  }

  lemma KnownMore(regions: map<nat, State>, next: nat, ids: map<Place, nat>, parents: map<Place, Option<Place>>,
                  place: Place, active: Option<nat>)
    requires Known(regions, next, ids, parents) && place !in ids && (active.Some? ==> active.value in regions)
    ensures Known(regions[next := State(place, active)], next + 1, ids[place := next], parents[place := PlaceOf(regions, active)])
  {
  }

  class Wrapper {
    var activeState: Option<nat>
    var stateMap: map<nat, State>
    var currentStateID: nat
    // The most memory that was live when each region was entered.
    var naiveStateSize: map<nat, nat>
    // The number of the region in each place, and the place of its parent.
    ghost var ids: map<Place, nat>
    ghost var parents: map<Place, Option<Place>>
    var loads: set<Addr>
    var stores: set<Addr>
    // The entries put into slots so far.
    var stream: seq<Op<Place>>

    ghost predicate Valid()
      reads this
    {
      Known(stateMap, currentStateID, ids, parents) && (activeState.Some? ==> activeState.value in stateMap)
    }

    /** The regions as the producer of a stream over their places. */
    ghost function Globals(): (p: Producer<Place>)
      requires Valid()
      ensures p.Valid()
      reads this
    {
      var p := Producer(PlaceOf(stateMap, activeState), parents, loads, stores);
      assert forall s :: s in parents && parents[s].Some? ==> parents[s].value in parents;
      p
    }

    constructor ()
      ensures Valid() && Globals() == Start() && stream == []
    {
      activeState, stateMap, currentStateID, naiveStateSize, loads, stores, stream := None, map[], 0, map[], {}, {}, [];
      ids, parents := map[], map[];
    }

    method AddToState(allocPtr: Addr, kind: C.Kind)
      modifies this`stream
      ensures stream == old(stream) + if activeState.None? then [] else [Access(kind, allocPtr)]
    {
      if activeState.None? {
        return;
      }
      stream := stream + [Access(kind, allocPtr)];
    }

    /** The number of the region in a place, if there is one. */
    method FindState(funcName: string, lineNum: nat) returns (found: Option<nat>)
      ensures found.Some? ==> found.value in stateMap && stateMap[found.value].place == Place(funcName, lineNum)
      ensures found.None? ==> forall i :: i in stateMap ==> stateMap[i].place != Place(funcName, lineNum)
    {
      var left := stateMap.Keys;
      while left != {}
        invariant left <= stateMap.Keys
        invariant forall i :: i in stateMap && i !in left ==> stateMap[i].place != Place(funcName, lineNum)
        decreases left
      {
        var a :| a in left;
        if stateMap[a].place.functionName == funcName && stateMap[a].place.lineNumber == lineNum {
          return Some(a);
        }
        left := left - {a};
      }
      return None;
    }

    /** A new region has the next number, and the active region as its parent. */
    method MakeState(place: Place) returns (stateID: nat)
      requires Valid() && place !in ids
      modifies this`stateMap, this`currentStateID, this`ids, this`parents
      ensures Valid() && stateID == old(currentStateID)
      ensures stateMap == old(stateMap)[stateID := State(place, activeState)] && stateID !in old(stateMap)
      ensures ids == old(ids)[place := stateID]
      ensures parents == old(parents)[place := PlaceOf(old(stateMap), activeState)]
    {
      KnownMore(stateMap, currentStateID, ids, parents, place, activeState);
      stateID := currentStateID;
      ids, parents := ids[place := stateID], parents[place := PlaceOf(stateMap, activeState)];
      stateMap := stateMap[stateID := State(place, activeState)];
      currentStateID := currentStateID + 1;
    }

    /** The region in a place, which is made if there is none. */
    method Region(funcName: string, lineNum: nat) returns (stateID: nat)
      requires Valid()
      modifies this`stateMap, this`currentStateID, this`ids, this`parents
      ensures Valid() && stateID in stateMap && stateMap[stateID].place == Place(funcName, lineNum)
      ensures if stateID in old(stateMap) then stateMap == old(stateMap)
              else stateID == old(currentStateID) && stateMap == old(stateMap)[stateID := State(Place(funcName, lineNum), activeState)]
      ensures parents == Issue(old(Globals()), Enter(Place(funcName, lineNum)), true).0.parents
    {
      var found := FindState(funcName, lineNum);
      if found.Some? {
        stateID := found.value;
      } else {
        stateID := MakeState(Place(funcName, lineNum));
      }
    }

    /** A region becomes the active one, and begins. */
    method Begin(stateID: nat, footprint: Option<nat>)
      requires Valid() && stateID in stateMap
      modifies this`activeState, this`naiveStateSize, this`stream
      ensures activeState == Some(stateID)
      ensures stream == old(stream) + [BeginRegion(stateMap[stateID].place)]
      ensures naiveStateSize == old(naiveStateSize)[stateID := Larger(old(naiveStateSize), stateID, footprint)]
    {
      activeState := Some(stateID);
      naiveStateSize := naiveStateSize[stateID := Larger(naiveStateSize, stateID, footprint)];
      stream := stream + [BeginRegion(stateMap[stateID].place)];
    }

    /** A region is looked up by its place or made, and begun; `footprint` is the live
        memory, when it is asked for. */
    method GetState(funcName: string, lineNum: nat, footprint: Option<nat>) returns (stateID: nat)
      requires Valid()
      modifies this`activeState, this`stateMap, this`currentStateID, this`naiveStateSize, this`ids, this`parents, this`stream
      ensures Valid() && Globals() == Issue(old(Globals()), Enter(Place(funcName, lineNum)), true).0
      ensures stream == old(stream) + Issue(old(Globals()), Enter(Place(funcName, lineNum)), true).1
      ensures activeState == Some(stateID) && stateMap[stateID].place == Place(funcName, lineNum)
      ensures if stateID in old(stateMap) then stateMap == old(stateMap)
              else stateID == old(currentStateID) && stateMap == old(stateMap)[stateID := State(Place(funcName, lineNum), old(activeState))]
      ensures naiveStateSize == old(naiveStateSize)[stateID := Larger(old(naiveStateSize), stateID, footprint)]
    {
      stateID := Region(funcName, lineNum);
      Begin(stateID, footprint);
    }

    /** The active region ends, whatever number is given. */
    method EndState(stateID: nat) returns (code: nat)
      requires Valid()
      modifies this`activeState, this`stream
      ensures if old(activeState).Some? then
                var ended := stateMap[old(activeState).value];
                code == 0 && activeState == ended.parent && stream == old(stream) + [EndRegion(ended.place, PlaceOf(stateMap, ended.parent))]
              else code == 1 && activeState == None && stream == old(stream)
    {
      if activeState.Some? {
        var ended := stateMap[activeState.value];
        stream := stream + [EndRegion(ended.place, PlaceOf(stateMap, ended.parent))];
        activeState := ended.parent;
        return 0;
      }
      return 1;
    }

    method CaratReportStateWrapper(stateID: nat)
      requires Valid()
      modifies this`loads, this`stores, this`activeState, this`stream
      ensures Valid() && Globals() == Issue(old(Globals()), Exit, true).0
      ensures stream == old(stream) + Issue(old(Globals()), Exit, true).1
    {
      assert stream + [] == stream;
      loads := {};
      stores := {};
      var _ := EndState(stateID);
    }

    method TexasAddToStateLoad(ptr: Addr)
      requires Valid()
      modifies this`loads, this`stream
      ensures Valid() && Globals() == Issue(old(Globals()), Load(ptr), true).0
      ensures stream == old(stream) + Issue(old(Globals()), Load(ptr), true).1
    {
      assert stream + [] == stream;
      if activeState.None? {
        return;
      }
      if ptr in loads {
        return;
      }
      loads := loads + {ptr};
      AddToState(ptr, C.Read);
    }

    /** The loop over the elements of a store. */
    method AddElements(ptr: Addr, sizeInBytes: nat, sizeElementInBytes: nat)
      requires activeState.Some? && sizeElementInBytes > 0
      modifies this`stream
      ensures stream == old(stream) + Accesses(C.Write, Elements(ptr, sizeInBytes, sizeElementInBytes))
    {
      var i := 0;
      while i < sizeInBytes
        invariant stream + Accesses(C.Write, Elements(ptr + i, sizeInBytes - i, sizeElementInBytes))
               == old(stream) + Accesses(C.Write, Elements(ptr, sizeInBytes, sizeElementInBytes))
        decreases sizeInBytes - i
      {
        ElementsStep(ptr + i, sizeInBytes - i, sizeElementInBytes, stream);
        AddToState(ptr + i, C.Write);
        i := i + sizeElementInBytes;
      }
      assert Elements(ptr + i, sizeInBytes - i, sizeElementInBytes) == [];
    }

    /** A store is issued element by element. */
    method TexasAddToStateWithInfoWrapper(ptr: Addr, sizeInBytes: nat, sizeElementInBytes: nat)
      requires Valid() && sizeElementInBytes > 0
      modifies this`stores, this`stream
      ensures Valid() && Globals() == Issue(old(Globals()), Store(ptr, sizeInBytes, sizeElementInBytes), true).0
      ensures stream == old(stream) + Issue(old(Globals()), Store(ptr, sizeInBytes, sizeElementInBytes), true).1
    {
      assert stream + [] == stream;
      if activeState.None? {
        return;
      }
      if ptr in stores {
        return;
      }
      stores := stores + {ptr};
      AddElements(ptr, sizeInBytes, sizeElementInBytes);
    }

    static lemma ElementsStep(p: Addr, size: int, element: nat, stream: seq<Op<Place>>)
      requires size > 0 && element > 0
      ensures stream + Accesses(C.Write, Elements(p, size, element))
           == stream + [Access(C.Write, p)] + Accesses(C.Write, Elements(p + element, size - element, element))
    {
      var es := Elements(p, size, element);
      assert es[0] == p && es[1..] == Elements(p + element, size - element, element);
    }

    /** One call; a region is left under the number it was entered with last. */
    method Do(call: Call<Place>, footprint: Option<nat>, last: nat) returns (stateID: nat)
      requires Valid() && (call.Store? ==> call.element > 0)
      modifies this
      ensures Valid() && Globals() == Issue(old(Globals()), call, true).0
      ensures stream == old(stream) + Issue(old(Globals()), call, true).1
    {
      stateID := last;
      match call {
        case Enter(s) =>
          stateID := GetState(s.functionName, s.lineNumber, footprint);
        case Exit => CaratReportStateWrapper(stateID);
        case Load(ptr) => TexasAddToStateLoad(ptr);
        case Store(ptr, size, element) => TexasAddToStateWithInfoWrapper(ptr, size, element);
      }
    }

    /** The calls of a program, one after the other, put its stream into the slots. */
    method Play(calls: seq<Call<Place>>, footprints: seq<Option<nat>>)
      requires Valid() && WellFormed(calls) && |footprints| == |calls|
      modifies this
      ensures Valid()
      ensures stream == old(stream) + Stream(old(Globals()), calls, true)
      ensures Globals() == After(old(Globals()), calls, true)
    {
      var i: nat, stateID: nat := 0, 0;
      while i < |calls|
        invariant i <= |calls| && Valid()
        invariant stream + Stream(Globals(), calls[i..], true) == old(stream) + Stream(old(Globals()), calls, true)
        invariant After(Globals(), calls[i..], true) == After(old(Globals()), calls, true)
      {
        ghost var q, sofar := Globals(), stream;
        assert calls[i..][0] == calls[i] && calls[i..][1..] == calls[i + 1..];
        IssueValid(q, calls[i], true);
        stateID := Do(calls[i], footprints[i], stateID);
        ghost var rest := Stream(Globals(), calls[i + 1..], true);
        assert sofar + (Issue(q, calls[i], true).1 + rest) == stream + rest;
        i := i + 1;
      }
    }
  }
}
