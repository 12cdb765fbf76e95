/** The index over live allocations: blocks by start address in a sorted map,
    except that blocks of a registered length are in a hash map. */
module Blocks {
  import opened Arithmetic
  import opened Classes

  /** The start of the entry that no block lies above. */
  const SENTINEL: nat := 0xffff_ffff_ffff_ffff

  /** Starts and lengths of the blocks in each map, and the registered lengths. */
  datatype Table = Table(sorted: map<nat, nat>, hashed: map<nat, nat>, lengths: set<nat>)

  /** The place of an address in a block, or -1; the end wraps around. */
  function DoesItAlias(start: nat, length: nat, key: nat): int {
    if start <= key < (start + length) % WORD then key - start else -1
  }

  function GetOffset(base: nat, address: nat): nat {
    (address - base) % WORD
  }

  /** An address under the mask of a registered length, a power of two: the bits
      below the length are cleared, which rounds the address down. */
  function MaskKey(key: nat, length: nat): nat {
    if length == 0 then key else key - key % length
  }

  predicate IsFirst(s: set<nat>, key: nat, r: nat) {
    r in s && key <= r && forall k :: k in s && key <= k ==> r <= k
  }

  predicate IsLastBelow(s: set<nat>, key: nat, r: nat) {
    r in s && r < key && forall k :: k in s && k < key ==> k <= r
  }

  /** The first start not below a key. */
  function LowerBound<T>(m: map<nat, T>, key: nat): (r: Option<nat>)
    ensures r.Some? ==> IsFirst(m.Keys, key, r.value)
    ensures r.None? ==> forall k :: k in m ==> k < key
  {
    if exists k :: k in m && key <= k then
      LeastExists(m.Keys, key);
      var r :| r in m.Keys && IsFirst(m.Keys, key, r);
      Some(r)
    else None
  }

  /** The last start below a key. */
  function Previous<T>(m: map<nat, T>, key: nat): (r: Option<nat>)
    ensures r.Some? ==> IsLastBelow(m.Keys, key, r.value)
    ensures r.None? ==> forall k :: k in m ==> key <= k
  {
    if exists k :: k in m && k < key then
      GreatestExists(m.Keys, key);
      var r :| r in m.Keys && IsLastBelow(m.Keys, key, r);
      Some(r)
    else None
  }

  lemma {:induction false} Least(s: set<nat>, key: nat) returns (r: nat)
    requires exists k :: k in s && key <= k
    ensures IsFirst(s, key, r)
    decreases s
  {
    var q: nat :| q in s && key <= q;
    var t := s - {q};
    r := q;
    if exists j :: j in t && key <= j {
      var u := Least(t, key);
      r := if u < q then u else q;
    }
    forall k | k in s && key <= k ensures r <= k {
      assert k == q || k in t;
    }
  }

  lemma {:induction false} Greatest(s: set<nat>, key: nat) returns (r: nat)
    requires exists k :: k in s && k < key
    ensures IsLastBelow(s, key, r)
    decreases s
  {
    var q: nat :| q in s && q < key;
    var t := s - {q};
    r := q;
    if exists j :: j in t && j < key {
      var u := Greatest(t, key);
      r := if u > q then u else q;
    }
    forall k | k in s && k < key ensures k <= r {
      assert k == q || k in t;
    }
  }

  lemma LeastExists(s: set<nat>, key: nat)
    requires exists k :: k in s && key <= k
    ensures exists r :: r in s && IsFirst(s, key, r)
  {
    var r := Least(s, key);
  }

  lemma GreatestExists(s: set<nat>, key: nat)
    requires exists k :: k in s && k < key
    ensures exists r :: r in s && IsLastBelow(s, key, r)
  {
    var r := Greatest(s, key);
  }

  /** The lookup in the sorted map. */
  function FindSorted(sorted: map<nat, nat>, key: nat): Option<nat> {
    var prospective := LowerBound(sorted, key);
    if prospective.None? then None
    else if prospective.value == key then prospective
    else
      var before := Previous(sorted, key);
      if before.None? then None
      else if DoesItAlias(before.value, sorted[before.value], key) == -1 then None
      else before
  }

  /** The start of the block the lookup returns. The registered lengths are tried
      in any order, so the result is one of several when there are several. */
  ghost predicate Finds(t: Table, key: nat, r: Option<nat>) {
    || (exists len :: len in t.lengths && MaskKey(key, len) in t.hashed && r == Some(MaskKey(key, len)))
    || ((forall len :: len in t.lengths ==> MaskKey(key, len) !in t.hashed) && r == FindSorted(t.sorted, key))
  }

  // ---- Against a scan of all blocks ------------------------------------------------

  predicate IsBlock(t: Table, start: nat) {
    start in t.sorted || start in t.hashed
  }

  function Length(t: Table, start: nat): nat
    requires IsBlock(t, start)
  {
    if start in t.hashed then t.hashed[start] else t.sorted[start]
  }

  /** A block covers its addresses; an empty one is found at its start. */
  predicate Covers(t: Table, start: nat, key: nat) {
    IsBlock(t, start) && (start == key || start <= key < start + Length(t, start))
  }

  /** Blocks do not overlap, wrap around or reach the sentinel; only blocks of a
      registered length, aligned to it, are hashed. */
  ghost predicate Laid(t: Table) {
    && SENTINEL in t.sorted
    && t.sorted.Keys !! t.hashed.Keys
    && (forall s: nat :: IsBlock(t, s) && s != SENTINEL ==> s + Length(t, s) <= SENTINEL)
    && (forall s: nat :: IsBlock(t, s) ==> s <= SENTINEL)
    && (forall s: nat, u: nat :: IsBlock(t, s) && IsBlock(t, u) && s < u ==> s + Length(t, s) <= u)
    && (forall l :: l in t.lengths ==> l > 0)
    && (forall s :: s in t.hashed ==> t.hashed[s] in t.lengths && s % t.hashed[s] == 0)
  }

  /** A block at `start` that is hashed is not aligned to a registered length longer
      than its own, unless nothing lies behind it. */
  ghost predicate NoLongerMask(lengths: set<nat>, start: nat, length: nat) {
    start + length < SENTINEL ==> forall l :: l in lengths && l > 0 && start % l == 0 ==> l <= length
  }

  ghost predicate Unambiguous(t: Table) {
    forall s :: s in t.hashed ==> NoLongerMask(t.lengths, s, t.hashed[s])
  }

  ghost predicate WellFormed(t: Table) {
    Laid(t) && Unambiguous(t)
  }

  lemma MaskInBlock(key: nat, start: nat, length: nat)
    requires length > 0 && start % length == 0
    ensures MaskKey(key, length) == start <==> start <= key < start + length
  {
    var q, r, p := key / length, key % length, start / length;
    assert key == q * length + r;
    assert start == p * length;
    if start <= key < start + length {
      DivUnique(q, p, r, key - start, length);
    }
  }

  lemma MaskIsMultiple(key: nat, length: nat)
    requires length > 0
    ensures var m := MaskKey(key, length);
            m % length == 0 && m <= key < m + length
  {
    DivMod(key, length);
    ModUnique(MaskKey(key, length), key / length, 0, length);
  }

  lemma SortedAgrees(t: Table, key: nat)
    requires Laid(t) && key < SENTINEL
    ensures var r := FindSorted(t.sorted, key);
            && (r.Some? ==> r.value in t.sorted && Covers(t, r.value, key))
            && (r.None? ==> forall s :: s in t.sorted ==> !Covers(t, s, key))
  {
    var prospective := LowerBound(t.sorted, key);
    assert prospective.Some? && prospective.value <= SENTINEL;
    if prospective.value != key {
      var before := Previous(t.sorted, key);
      if before.Some? {
        var b: nat := before.value;
        assert IsBlock(t, b) && Length(t, b) == t.sorted[b];
        assert b + t.sorted[b] <= SENTINEL < WORD;
        forall s | s in t.sorted && Covers(t, s, key) ensures s == b {
          assert IsBlock(t, s) && s <= b;
        }
      }
    }
  }

  lemma OneCovers(t: Table, key: nat, s: nat, u: nat)
    requires Laid(t) && Covers(t, s, key) && Covers(t, u, key)
    ensures s == u
  {
  }

  /** Finding a hashed block under a mask finds one that covers the address. */
  lemma MaskCovers(t: Table, key: nat, l: nat)
    requires WellFormed(t) && key < SENTINEL && l in t.lengths && MaskKey(key, l) in t.hashed
    ensures Covers(t, MaskKey(key, l), key)
  {
    var s := MaskKey(key, l);
    MaskIsMultiple(key, l);
    assert NoLongerMask(t.lengths, s, t.hashed[s]);
  }

  /** An answer that a scan of all blocks would give. */
  ghost predicate Agrees(t: Table, key: nat, r: Option<nat>) {
    if r.Some? then Covers(t, r.value, key) else forall s :: !Covers(t, s, key)
  }

  /** The lookup agrees with a scan: it returns a block exactly when the block
      covers the address, and nothing when none does. */
  lemma FindAgreesWithScan(t: Table, key: nat, r: Option<nat>)
    requires WellFormed(t) && key < SENTINEL
    ensures Finds(t, key, r) <==> Agrees(t, key, r)
  {
    SortedAgrees(t, key);
    forall s | s in t.hashed ensures Covers(t, s, key) <==> MaskKey(key, t.hashed[s]) == s {
      MaskInBlock(key, s, t.hashed[s]);
    }
    forall l | l in t.lengths && MaskKey(key, l) in t.hashed ensures Covers(t, MaskKey(key, l), key) {
      MaskCovers(t, key, l);
    }
    forall s, u | Covers(t, s, key) && Covers(t, u, key) ensures s == u {
      OneCovers(t, key, s, u);
    }
  }

  /** Every answer the lookup may give is the scan's. */
  ghost predicate LookupIsRight(t: Table) {
    forall key: nat, r: Option<nat> :: key < SENTINEL && Finds(t, key, r) ==> Agrees(t, key, r)
  }

  lemma LongerMaskMisleads(t: Table, s: nat, l: nat)
    requires Laid(t) && s in t.hashed && l in t.lengths && s % l == 0
    requires t.hashed[s] < l && s + t.hashed[s] < SENTINEL
    ensures var key := s + t.hashed[s];
            Finds(t, key, Some(s)) && !Covers(t, s, key)
  {
    var key := s + t.hashed[s];
    MaskInBlock(key, s, l);
    assert MaskKey(key, l) == s;
  }

  /** However many lengths are registered, the lookup is right for every address
      exactly when no hashed block is aligned to a longer registered length. */
  lemma LookupIsRightIff(t: Table)
    requires Laid(t)
    ensures LookupIsRight(t) <==> Unambiguous(t)
  {
    if Unambiguous(t) {
      forall key: nat, r: Option<nat> | key < SENTINEL && Finds(t, key, r) ensures Agrees(t, key, r) {
        FindAgreesWithScan(t, key, r);
      }
    }
    if LookupIsRight(t) {
      forall s, l | s in t.hashed && s + t.hashed[s] < SENTINEL && l in t.lengths && l > 0 && s % l == 0
        ensures l <= t.hashed[s]
      {
        if t.hashed[s] < l {
          LongerMaskMisleads(t, s, l);
        }
      }
    }
  }

  /** With one registered length there is no longer one. */
  lemma OneLengthIsUnambiguous(t: Table, length: nat)
    requires Laid(t) && t.lengths <= {length}
    ensures Unambiguous(t)
  {
  }

  // ---- Without the sentinel --------------------------------------------------------------

  /** Blocks of the sorted map that do not overlap or wrap around, with the last. */
  ghost predicate SortedBlocks(sorted: map<nat, nat>, last: nat) {
    && last in sorted && (forall s :: s in sorted ==> s <= last && s + sorted[s] <= SENTINEL)
    && (forall s, u :: s in sorted && u in sorted && s < u ==> s + sorted[s] <= u)
  }

  predicate SortedCovers(sorted: map<nat, nat>, s: nat, key: nat) {
    s in sorted && (s == key || s <= key < s + sorted[s])
  }

  ghost predicate SortedRight(sorted: map<nat, nat>, key: nat) {
    var r := FindSorted(sorted, key);
    if r.Some? then SortedCovers(sorted, r.value, key) else forall s :: !SortedCovers(sorted, s, key)
  }

  /** Without the sentinel the lookup is right for an address exactly when it does
      not lie inside the last block, behind its start. */
  lemma NoSentinelIff(sorted: map<nat, nat>, last: nat, key: nat)
    requires SortedBlocks(sorted, last)
    ensures SortedRight(sorted, key) <==> !(last < key < last + sorted[last])
  {
    if key <= last {
      var prospective := LowerBound(sorted, key);
      if prospective.value != key {
        var before := Previous(sorted, key);
        forall s | SortedCovers(sorted, s, key) ensures before.Some? && s == before.value {
        }
      }
    } else {
      assert LowerBound(sorted, key).None?;
      if key < last + sorted[last] {
        assert SortedCovers(sorted, last, key);
      }
    }
  }

  /** With it the last block is found. */
  lemma SentinelFindsLast(sorted: map<nat, nat>, last: nat, key: nat)
    requires SortedBlocks(sorted, last) && last < key < last + sorted[last]
    ensures FindSorted(sorted, key) == None && FindSorted(sorted[SENTINEL := 0], key) == Some(last)
  {
    var m := sorted[SENTINEL := 0];
    assert SENTINEL in m && last in m && m[last] == sorted[last];
    assert Previous(m, key) == Some(last);
  }

  // ---- Adding and removing blocks -----------------------------------------------------

  /** A block goes to the map its length calls for; a start that is there stays as it is. */
  function Insert(t: Table, start: nat, length: nat): Table {
    if length in t.lengths then t.(hashed := if start in t.hashed then t.hashed else t.hashed[start := length])
    else t.(sorted := if start in t.sorted then t.sorted else t.sorted[start := length])
  }

  /** Where a block goes: into one map, by its length, unless that map has the start;
      the blocks that are there stay. */
  lemma InsertedWhere(t: Table, start: nat, length: nat)
    ensures var t' := Insert(t, start, length);
            && t'.lengths == t.lengths
            && (length in t.lengths ==> t'.sorted == t.sorted && t'.hashed.Keys == t.hashed.Keys + {start})
            && (length !in t.lengths ==> t'.hashed == t.hashed && t'.sorted.Keys == t.sorted.Keys + {start})
            && (forall s :: s in t.sorted ==> t'.sorted[s] == t.sorted[s])
            && (forall s :: s in t.hashed ==> t'.hashed[s] == t.hashed[s])
            && (start !in t.sorted && start !in t.hashed ==> Length(t', start) == length)
  {
  }

  /** Only a start is removed; any other address leaves the table alone. */
  function Delete(t: Table, key: nat): Table {
    if key in t.hashed then t.(hashed := t.hashed - {key}) else t.(sorted := t.sorted - {key})
  }

  /** A block that can be added: it lies below the sentinel and overlaps no other,
      and if its length is registered it is aligned to it and to no longer one. */
  ghost predicate Fits(t: Table, start: nat, length: nat) {
    && start < SENTINEL && start + length <= SENTINEL
    && (length in t.lengths ==> length > 0 && start % length == 0 && NoLongerMask(t.lengths, start, length))
    && (forall s: nat :: IsBlock(t, s) ==> (s < start && s + Length(t, s) <= start) || (start < s && start + length <= s))
  }

  lemma InsertBlocks(t: Table, start: nat, length: nat)
    requires WellFormed(t) && Fits(t, start, length)
    ensures var t' := Insert(t, start, length);
            forall s: nat :: IsBlock(t', s) <==> s == start || IsBlock(t, s)
    ensures var t' := Insert(t, start, length);
            forall s: nat :: IsBlock(t', s) ==> Length(t', s) == if s == start then length else Length(t, s)
  {
    assert !IsBlock(t, start);
  }

  lemma InsertKeeps(t: Table, start: nat, length: nat)
    requires WellFormed(t) && Fits(t, start, length)
    ensures WellFormed(Insert(t, start, length))
  {
    InsertBlocks(t, start, length);
    assert !IsBlock(t, start);
  }

  lemma DeleteBlocks(t: Table, key: nat)
    requires WellFormed(t)
    ensures var t' := Delete(t, key);
            forall s: nat :: IsBlock(t', s) <==> IsBlock(t, s) && s != key
    ensures var t' := Delete(t, key);
            forall s: nat :: IsBlock(t', s) ==> Length(t', s) == Length(t, s)
  {
  }

  lemma DeleteKeeps(t: Table, key: nat)
    requires WellFormed(t) && key != SENTINEL
    ensures WellFormed(Delete(t, key))
  {
    DeleteBlocks(t, key);
  }
}
