/** The allocation table: the index over live allocations, with the allocation of
    each block. */
module AllocationTables {
  import opened Classes
  import B = Blocks

  /** An allocation, by its origin, and the length it has. */
  datatype Block = Block(origin: nat, length: nat)

  function LengthsOf(m: map<nat, Block>): map<nat, nat> {
    map k | k in m :: m[k].length
  }

  function OriginsOf(m: map<nat, Block>): map<nat, nat> {
    map k | k in m && k != B.SENTINEL :: m[k].origin
  }

  lemma Added(m: map<nat, Block>, key: nat, entry: Block)
    ensures LengthsOf(m[key := entry]) == LengthsOf(m)[key := entry.length]
    ensures OriginsOf(m[key := entry]) == if key == B.SENTINEL then OriginsOf(m) else OriginsOf(m)[key := entry.origin]
  {
  }

  function OwnerOf(sorted: map<nat, Block>, hashed: map<nat, Block>): map<nat, nat> {
    OriginsOf(sorted) + OriginsOf(hashed)
  }

  lemma OwnerAddedHashed(sorted: map<nat, Block>, hashed: map<nat, Block>, key: nat, entry: Block)
    ensures OwnerOf(sorted, hashed[key := entry])
         == if key == B.SENTINEL then OwnerOf(sorted, hashed) else OwnerOf(sorted, hashed)[key := entry.origin]
  {
    Added(hashed, key, entry);
  }

  lemma OwnerAddedSorted(sorted: map<nat, Block>, hashed: map<nat, Block>, key: nat, entry: Block)
    requires key !in hashed || key == B.SENTINEL
    ensures OwnerOf(sorted[key := entry], hashed)
         == if key == B.SENTINEL then OwnerOf(sorted, hashed) else OwnerOf(sorted, hashed)[key := entry.origin]
  {
    Added(sorted, key, entry);
  }

  lemma Removed(m: map<nat, Block>, key: nat)
    ensures LengthsOf(m - {key}) == LengthsOf(m) - {key}
    ensures OriginsOf(m - {key}) == OriginsOf(m) - {key}
    ensures key !in m ==> m - {key} == m
  {
  }

  lemma OwnerRemoved(sorted: map<nat, Block>, hashed: map<nat, Block>, key: nat)
    ensures OwnerOf(sorted - {key}, hashed - {key}) == OwnerOf(sorted, hashed) - {key}
  {
    Removed(sorted, key);
    Removed(hashed, key);
  }

  class AllocationTable {
    var sorted: map<nat, Block>
    var hashed: map<nat, Block>
    var lengths: set<nat>

    constructor ()
      ensures sorted == map[] && hashed == map[] && lengths == {}
    {
      sorted, hashed, lengths := map[], map[], {};
    }

    /** The blocks, without the allocations. */
    ghost function Shape(): B.Table
      reads this
    {
      B.Table(LengthsOf(sorted), LengthsOf(hashed), lengths)
    }

    /** The allocation of each block but the sentinel. */
    ghost function Owner(): map<nat, nat>
      reads this
    {
      OwnerOf(sorted, hashed)
    }

    /** The allocations in the table. */
    method Live() returns (r: set<nat>)
      ensures r == Owner().Values
    {
      var owner := OwnerOf(sorted, hashed);
      r := owner.Values;
    }

    /** Blocks of a length are looked up by hashing from now on. */
    method AddMaskForLength(length: nat)
      modifies this`lengths
      ensures lengths == old(lengths) + {length}
    {
      lengths := lengths + {length};
    }

    /** The lookup: the start and the allocation of a block that it may return. */
    method FindAllocation(key: nat) returns (start: Option<nat>, r: Option<Block>)
      ensures B.Finds(Shape(), key, start)
      ensures if start.None? then r == None
              else || (start.value in hashed && r == Some(hashed[start.value]))
                   || (start.value in sorted && r == Some(sorted[start.value]))
    {
      var left := lengths;
      while left != {}
        invariant left <= lengths
        invariant forall l :: l in lengths && l !in left ==> B.MaskKey(key, l) !in hashed
        decreases left
      {
        var l :| l in left;
        var masked := B.MaskKey(key, l);
        if masked in hashed {
          return Some(masked), Some(hashed[masked]);
        }
        left := left - {l};
      }
      var prospective := B.LowerBound(LengthsOf(sorted), key);
      if prospective.None? {
        return None, None;
      }
      if prospective.value == key {
        return prospective, Some(sorted[key]);
      }
      var before := B.Previous(LengthsOf(sorted), key);
      if before.None? {
        return None, None;
      }
      if B.DoesItAlias(before.value, sorted[before.value].length, key) == -1 {
        return None, None;
      }
      return before, Some(sorted[before.value]);
    }

    method InsertAllocation(key: nat, entry: Block)
      modifies this`sorted, this`hashed
      ensures Shape() == B.Insert(old(Shape()), key, entry.length)
      ensures if entry.length in lengths
              then sorted == old(sorted) && hashed == if key in old(hashed) then old(hashed) else old(hashed)[key := entry]
              else hashed == old(hashed) && sorted == if key in old(sorted) then old(sorted) else old(sorted)[key := entry]
      ensures key == B.SENTINEL ==> Owner() == old(Owner())
      ensures key != B.SENTINEL && key !in old(sorted) && key !in old(hashed) ==> Owner() == old(Owner())[key := entry.origin]
    {
      Added(sorted, key, entry);
      Added(hashed, key, entry);
      if entry.length in lengths {
        if key !in hashed {
          OwnerAddedHashed(sorted, hashed, key, entry);
          hashed := hashed[key := entry];
        }
      } else if key !in sorted {
        if key !in hashed || key == B.SENTINEL {
          OwnerAddedSorted(sorted, hashed, key, entry);
        }
        sorted := sorted[key := entry];
      }
    }

    method DeleteAllocation(key: nat)
      requires sorted.Keys !! hashed.Keys
      modifies this`sorted, this`hashed
      ensures Shape() == B.Delete(old(Shape()), key)
      ensures Owner() == old(Owner()) - {key}
    {
      Removed(sorted, key);
      Removed(hashed, key);
      OwnerRemoved(sorted, hashed, key);
      if key in hashed {
        hashed := hashed - {key};
      } else {
        sorted := sorted - {key};
      }
    }
  }
}
