/** The packer: places for allocations, one after the other, that keep each within a
    cache line and a page where it fits. */
module Layout {
  import opened Arithmetic

  type Size = n: nat | n < WORD

  /** A size in bytes and the alignment asked for. */
  datatype Request = Request(length: Size, alignment: Size)

  /** What the packer was made with, once defaults have been filled in. */
  datatype Config = Config(minAlignment: Size, line: Size, page: Size)

  predicate Sensible(c: Config) {
    c.line > 0 && c.page > 0 && c.page % c.line == 0
  }

  function Max(m: nat, n: nat): nat {
    if m < n then n else m
  }

  function Alignment(c: Config, r: Request): (a: Size)
    ensures a > 0 && a >= r.alignment && a >= c.minAlignment
  {
    var a := if r.alignment > c.minAlignment then r.alignment else c.minAlignment;
    if a == 0 then 8 else a
  }

  /** An offset at which `length` bytes end beyond the block they start in moves to
      the next block, unless it starts one. */
  function Fitted(offset: nat, length: nat, block: nat): (r: nat)
    requires block > 0
    ensures r >= offset
  {
    var into := offset % block;
    if into != 0 && length + into > block then offset + (block - into) else offset
  }

  function Target(c: Config, offset: nat, r: Request): (t: nat)
    requires c.line > 0 && c.page > 0
    ensures t >= offset
  {
    Fitted(Fitted(offset + offset % Alignment(c, r), r.length, c.line), r.length, c.page)
  }

  /** Bytes that end in the block they start in. */
  predicate Within(offset: nat, length: nat, block: nat)
    requires block > 0
  {
    offset % block + length <= block
  }

  lemma NextBlock(offset: nat, block: nat)
    requires block > 0
    ensures (offset + (block - offset % block)) % block == 0
  {
    var q := offset / block;
    assert (q + 1) * block == q * block + block;
    ModUnique(offset + (block - offset % block), q + 1, 0, block);
  }

  lemma FittedIsWithin(offset: nat, length: nat, block: nat)
    requires block > 0 && length <= block
    ensures Within(Fitted(offset, length, block), length, block)
    ensures Fitted(offset, length, block) < offset + block
    ensures Fitted(offset, length, block) != offset ==> Fitted(offset, length, block) % block == 0
  {
    NextBlock(offset, block);
  }

  lemma FittedGrowth(offset: nat, length: nat, block: nat)
    requires block > 0
    ensures offset <= Fitted(offset, length, block) < offset + block
    ensures Fitted(offset, length, block) != offset ==> Fitted(offset, length, block) % block == 0
  {
    NextBlock(offset, block);
  }

  /** A place where the bytes may go: a block's start, or one from which they stay in
      the block. */
  predicate MayStart(offset: nat, length: nat, block: nat)
    requires block > 0
  {
    offset % block == 0 || Within(offset, length, block)
  }

  /** The first such place that is not below an offset. */
  ghost predicate FirstPlace(place: nat, offset: nat, length: nat, block: nat)
    requires block > 0
  {
    && place >= offset && MayStart(place, length, block)
    && forall x: nat :: offset <= x < place ==> !MayStart(x, length, block)
  }

  lemma Between(offset: nat, length: nat, block: nat, x: nat)
    requires block > 0 && length + offset % block > block && offset % block != 0
    requires offset <= x < offset + (block - offset % block)
    ensures !MayStart(x, length, block)
  {
    DivMod(offset, block);
    ModUnique(x, offset / block, offset % block + (x - offset), block);
  }

  /** An offset moves only when it must, and no further than it must. */
  lemma FittedIsFirst(offset: nat, length: nat, block: nat)
    requires block > 0
    ensures FirstPlace(Fitted(offset, length, block), offset, length, block)
    ensures Fitted(offset, length, block) == offset <==> MayStart(offset, length, block)
  {
    NextBlock(offset, block);
    forall x: nat | offset <= x < Fitted(offset, length, block) ensures !MayStart(x, length, block) {
      Between(offset, length, block, x);
    }
  }

  lemma MultipleOfMultiple(x: nat, line: nat, page: nat)
    requires line > 0 && page > 0 && page % line == 0 && x % page == 0
    ensures x % line == 0
  {
    var k, j := page / line, x / page;
    assert page == k * line && x == j * page;
    assert x == (j * k) * line by {
      assert j * (k * line) == (j * k) * line;
    }
    ModUnique(x, j * k, 0, line);
  }

  /** An allocation no longer than a line lies within a line, and one no longer than
      a page within a page. */
  lemma TargetIsWithin(c: Config, offset: nat, r: Request)
    requires Sensible(c)
    ensures r.length <= c.line ==> Within(Target(c, offset, r), r.length, c.line)
    ensures r.length <= c.page ==> Within(Target(c, offset, r), r.length, c.page)
  {
    var o1 := offset + offset % Alignment(c, r);
    var o2 := Fitted(o1, r.length, c.line);
    var o3 := Fitted(o2, r.length, c.page);
    FittedGrowth(o2, r.length, c.page);
    if r.length <= c.line {
      FittedIsWithin(o1, r.length, c.line);
      if o3 != o2 {
        MultipleOfMultiple(o3, c.line, c.page);
      }
    }
    if r.length <= c.page {
      FittedIsWithin(o2, r.length, c.page);
    }
  }

  /** The offset with the remainder added, of the larger alignment, or of 8 when
      neither is given. */
  function Stepped(c: Config, offset: nat, r: Request): nat {
    var larger := Max(c.minAlignment, r.alignment);
    offset + offset % (if larger > 0 then larger else 8)
  }

  /** The target is the first place in a line from there, and then the first in a
      page; so it is that offset itself exactly when the bytes may start there. */
  lemma TargetIsFirst(c: Config, offset: nat, r: Request) returns (m: nat)
    requires c.line > 0 && c.page > 0
    ensures FirstPlace(m, Stepped(c, offset, r), r.length, c.line)
    ensures FirstPlace(Target(c, offset, r), m, r.length, c.page)
    ensures Target(c, offset, r) == Stepped(c, offset, r) <==>
            MayStart(Stepped(c, offset, r), r.length, c.line) && MayStart(Stepped(c, offset, r), r.length, c.page)
  {
    var o := Stepped(c, offset, r);
    m := Fitted(o, r.length, c.line);
    assert Target(c, offset, r) == Fitted(m, r.length, c.page);
    FittedIsFirst(o, r.length, c.line);
    FittedIsFirst(m, r.length, c.page);
  }

  lemma TargetGrowth(c: Config, offset: nat, r: Request)
    requires c.line > 0 && c.page > 0
    ensures offset <= Target(c, offset, r) <= offset + (Alignment(c, r) - 1) + (c.line - 1) + (c.page - 1)
  {
    var o1 := offset + offset % Alignment(c, r);
    FittedGrowth(o1, r.length, c.line);
    FittedGrowth(Fitted(o1, r.length, c.line), r.length, c.page);
  }

  /** The step that should round up to the alignment does so exactly for offsets that
      are aligned or half way to it. */
  lemma AlignedIffHalfWay(offset: nat, alignment: nat)
    requires alignment > 0
    ensures var d := offset % alignment;
            (offset + d) % alignment == 0 <==> d == 0 || 2 * d == alignment
  {
    DivMod(offset, alignment);
    HalfWay(offset / alignment, offset % alignment, alignment);
  }

  lemma HalfWay(q: nat, d: nat, n: nat)
    requires d < n
    ensures (q * n + d + d) % n == 0 <==> d == 0 || 2 * d == n
  {
    var x := q * n + d + d;
    if 2 * d < n {
      ModUnique(x, q, 2 * d, n);
    } else {
      NextMultiple(q, n);
      ModUnique(x, q + 1, 2 * d - n, n);
    }
  }

  lemma NextMultiple(q: nat, n: nat)
    ensures (q + 1) * n == q * n + n
  {
  }

  // ---- A whole layout ----------------------------------------------------------------

  /** The offset after the allocations have been added in turn. */
  function EndOf(c: Config, rs: seq<Request>): nat
    requires c.line > 0 && c.page > 0
  {
    if rs == [] then 0
    else Target(c, EndOf(c, rs[..|rs| - 1]), rs[|rs| - 1]) + rs[|rs| - 1].length
  }

  function TargetOf(c: Config, rs: seq<Request>, i: nat): nat
    requires c.line > 0 && c.page > 0 && i < |rs|
  {
    Target(c, EndOf(c, rs[..i]), rs[i])
  }

  lemma {:induction false} EndsGrow(c: Config, rs: seq<Request>, n: nat)
    requires c.line > 0 && c.page > 0 && n <= |rs|
    ensures EndOf(c, rs[..n]) <= EndOf(c, rs)
    decreases |rs|
  {
    if n == |rs| {
      assert rs[..n] == rs;
    } else {
      assert rs[..|rs| - 1][..n] == rs[..n];
      EndsGrow(c, rs[..|rs| - 1], n);
    }
  }

  /** Allocations follow each other without overlap. */
  lemma PlacesAreDisjoint(c: Config, rs: seq<Request>, i: nat, j: nat)
    requires c.line > 0 && c.page > 0 && i < j < |rs|
    ensures TargetOf(c, rs, i) + rs[i].length <= TargetOf(c, rs, j)
  {
    assert rs[..j][..i + 1] == rs[..i + 1];
    assert rs[..i + 1][..i] == rs[..i];
    EndsGrow(c, rs[..j], i + 1);
  }

  /** The most room a layout can take. */
  function Room(c: Config, rs: seq<Request>): nat
    requires c.line > 0 && c.page > 0
  {
    if rs == [] then 0
    else Room(c, rs[..|rs| - 1]) + rs[|rs| - 1].length + (Alignment(c, rs[|rs| - 1]) - 1) + (c.line - 1) + (c.page - 1)
  }

  lemma {:induction false} EndIsBounded(c: Config, rs: seq<Request>)
    requires c.line > 0 && c.page > 0
    ensures EndOf(c, rs) <= Room(c, rs)
  {
    if rs == [] {
    } else {
      EndIsBounded(c, rs[..|rs| - 1]);
      TargetGrowth(c, EndOf(c, rs[..|rs| - 1]), rs[|rs| - 1]);
    }
  }

  // ---- Sums that wrap around at 64 bits -------------------------------------------------

  function FittedWord(offset: Size, length: Size, block: Size): Size
    requires block > 0
  {
    var into := offset % block;
    if into != 0 && (length + into) % WORD > block then (offset + (block - into)) % WORD else offset
  }

  function AlignedWord(offset: Size, alignment: Size): Size
    requires alignment > 0
  {
    (offset + offset % alignment) % WORD
  }

  function TargetWord(c: Config, offset: Size, r: Request): Size
    requires c.line > 0 && c.page > 0
  {
    FittedWord(FittedWord(AlignedWord(offset, Alignment(c, r)), r.length, c.line), r.length, c.page)
  }

  lemma SmallWord(n: nat)
    requires n < WORD
    ensures n % WORD == n
  {
  }

  lemma FittedWordIs(offset: Size, length: Size, block: Size)
    requires block > 0 && Fitted(offset, length, block) + length < WORD
    ensures FittedWord(offset, length, block) == Fitted(offset, length, block)
  {
    var into := offset % block;
    ModBelow(offset, block);
    SmallWord(length + into);
    if into != 0 && length + into > block {
      SmallWord(offset + (block - into));
    }
  }

  /** In words as well, unless the first place is too far. */
  lemma FittedWordIsFirst(offset: Size, length: Size, block: Size, place: nat)
    requires block > 0 && FirstPlace(place, offset, length, block) && place + length < WORD
    ensures FittedWord(offset, length, block) == place
  {
    FittedIsFirst(offset, length, block);
    assert place == Fitted(offset, length, block);
    FittedWordIs(offset, length, block);
  }

  lemma FitTwice(o: Size, length: Size, line: Size, page: Size)
    requires line > 0 && page > 0 && Fitted(Fitted(o, length, line), length, page) + length < WORD
    ensures FittedWord(FittedWord(o, length, line), length, page) == Fitted(Fitted(o, length, line), length, page)
  {
    FittedWordIs(o, length, line);
    FittedWordIs(Fitted(o, length, line), length, page);
  }

  lemma NoWrap(c: Config, offset: Size, r: Request, a: Size)
    requires c.line > 0 && c.page > 0 && a == Alignment(c, r)
    requires Target(c, offset, r) + r.length < WORD
    ensures TargetWord(c, offset, r) == Target(c, offset, r)
  {
    var o := offset + offset % a;
    NoWrapFrom(o, r.length, c.line, c.page);
  }

  lemma NoWrapFrom(o: nat, length: Size, line: Size, page: Size)
    requires line > 0 && page > 0 && Fitted(Fitted(o, length, line), length, page) + length < WORD
    ensures o < WORD && o % WORD == o
    ensures FittedWord(FittedWord(o, length, line), length, page) == Fitted(Fitted(o, length, line), length, page)
  {
    SmallWord(o);
    FitTwice(o, length, line, page);
  }

  lemma EndIff(target: nat, t: Size, length: Size)
    requires target + length < WORD ==> t == target
    ensures (t == target && (t + length) % WORD == target + length) <==> target + length < WORD
  {
  }

  /** The target and the next offset are those of the layout exactly when the
      allocation ends below the largest word. */
  lemma NoWrapIff(c: Config, offset: Size, r: Request)
    requires c.line > 0 && c.page > 0
    ensures var t, end := TargetWord(c, offset, r), Target(c, offset, r) + r.length;
            (t == Target(c, offset, r) && (t + r.length) % WORD == end) <==> end < WORD
  {
    if Target(c, offset, r) + r.length < WORD {
      NoWrap(c, offset, r, Alignment(c, r));
    }
    EndIff(Target(c, offset, r), TargetWord(c, offset, r), r.length);
  }

  // ---- The packer ------------------------------------------------------------------------

  class StatePacker {
    var cacheLineSize: Size
    var minAlignment: Size
    var currentOffset: Size
    var pageAlignment: Size

    constructor (minAlignment: Size, cacheLineSize: Size)
      ensures this.minAlignment == minAlignment && this.cacheLineSize == cacheLineSize
      ensures currentOffset == 0 && pageAlignment == 0
    {
      this.minAlignment, this.cacheLineSize := minAlignment, cacheLineSize;
      currentOffset, pageAlignment := 0, 0;
    }

    /** Sizes of zero stand for the defaults. */
    function Settings(): (c: Config)
      reads this
      ensures c.line > 0 && c.page > 0
    {
      Config(minAlignment, if cacheLineSize == 0 then 64 else cacheLineSize, if pageAlignment == 0 then 4096 else pageAlignment)
    }

    method Grow(n: Size)
      modifies this`currentOffset
      ensures currentOffset == (old(currentOffset) + n) % WORD
    {
      currentOffset := (currentOffset + n) % WORD;
    }

    method Align(alignment: Size)
      requires alignment > 0
      modifies this`currentOffset
      ensures currentOffset == AlignedWord(old(currentOffset), alignment)
    {
      Grow(currentOffset % alignment);
    }

    /** The offset moves to the first place where the bytes may go. */
    method Fit(length: Size, block: Size)
      requires block > 0
      modifies this`currentOffset
      ensures currentOffset == FittedWord(old(currentOffset), length, block)
      ensures forall place: nat :: FirstPlace(place, old(currentOffset), length, block) && place + length < WORD ==> currentOffset == place
    {
      forall place: nat | FirstPlace(place, currentOffset, length, block) && place + length < WORD
        ensures FittedWord(currentOffset, length, block) == place
      {
        FittedWordIsFirst(currentOffset, length, block, place);
      }
      var into := currentOffset % block;
      if into != 0 {
        if (length + into) % WORD > block {
          Grow(block - into);
        }
      }
    }
  }

  method StartLayout(state: StatePacker?) returns (code: nat)
    modifies state
    ensures if state == null then code == 1
            else code == 0 && state.currentOffset == 0 && state.Settings() == old(state.Settings())
  {
    if state == null {
      return 1;
    }
    state.currentOffset := 0;
    return 0;
  }

  /** An allocation is added at the target; the sums wrap around at 64 bits. */
  method AddAllocation(state: StatePacker?, r: Request) returns (code: nat, target: Size)
    modifies state
    ensures state == null ==> code == 1
    ensures state != null ==>
              && code == 0 && state.Settings() == old(state.Settings())
              && target == TargetWord(old(state.Settings()), old(state.currentOffset), r)
              && state.currentOffset == (target + r.length) % WORD
              && (Target(old(state.Settings()), old(state.currentOffset), r) + r.length < WORD ==>
                    target == Target(old(state.Settings()), old(state.currentOffset), r) && state.currentOffset == target + r.length)
  {
    if state == null {
      return 1, 0;
    }
    NoWrapIff(state.Settings(), state.currentOffset, r);
    var alignment := state.minAlignment;
    if r.alignment > alignment {
      alignment := r.alignment;
    }
    if alignment == 0 {
      alignment := 8;
    }
    state.Align(alignment);
    if state.cacheLineSize == 0 {
      state.cacheLineSize := 64;
    }
    state.Fit(r.length, state.cacheLineSize);
    if state.pageAlignment == 0 {
      state.pageAlignment := 4096;
    }
    state.Fit(r.length, state.pageAlignment);
    target := state.currentOffset;
    state.Grow(r.length);
    code := 0;
  }
}
