/** Call stacks as they are captured: return addresses, and their hash. */
module Traces {
  import opened Classes

  /** An unsigned 64-bit word, as the places of its one bits. */
  type Word = w: set<nat> | forall i :: i in w ==> i < 64

  /** `nptrs` is the length of the buffer. */
  datatype Trace = Trace(buffer: seq<Word>, hashPart1: Word) {
    function nptrs(): nat {
      |buffer|
    }
  }

  /** The bytes of the buffer, lowest first in each address. */
  function ByteAt(t: Trace, i: nat): set<nat>
    requires i < 8 * t.nptrs()
  {
    set bit | bit in t.buffer[i / 8] && bit / 8 == i % 8
  }

  /** The comparison that is made: as many bytes as there are addresses. */
  predicate TraceCompare(t: Trace, u: Trace) {
    t.nptrs() == u.nptrs() && forall i :: 0 <= i < t.nptrs() ==> ByteAt(t, i) == ByteAt(u, i)
  }

  lemma CompareIsEquivalence(t: Trace, u: Trace, v: Trace)
    ensures TraceCompare(t, t)
    ensures TraceCompare(t, u) <==> TraceCompare(u, t)
    ensures TraceCompare(t, u) && TraceCompare(u, v) ==> TraceCompare(t, v)
  {
  }

  // ---- The hash of a call stack ----------------------------------------------------

  /** Exclusive or. */
  function Xor(a: Word, b: Word): Word {
    (a - b) + (b - a)
  }

  lemma XorLaws(a: Word, b: Word, c: Word)
    ensures Xor(a, b) == Xor(b, a)
    ensures Xor(Xor(a, b), c) == Xor(a, Xor(b, c))
    ensures Xor(a, {}) == a
    ensures Xor(a, Xor(a, b)) == b
  {
  }

  /** The first operand can be cancelled. */
  lemma XorCancels(a: Word, b: Word, c: Word)
    requires Xor(a, b) == Xor(a, c)
    ensures b == c
  {
    XorLaws(a, b, c);
    XorLaws(a, c, b);
  }

  function XorAll(s: seq<Word>): Word {
    if s == [] then {} else Xor(XorAll(s[..|s| - 1]), s[|s| - 1])
  }

  /** The hash of a trace; an empty one aborts the program. */
  method MyHashPart1(buffer: seq<Word>) returns (r: Option<Word>)
    ensures r == if buffer == [] then None else Some(XorAll(buffer))
  {
    if |buffer| <= 0 {
      return None;
    }
    var accumulator: Word := {};
    for i := 0 to |buffer|
      invariant accumulator == XorAll(buffer[..i])
    {
      assert buffer[..i + 1][..i] == buffer[..i];
      accumulator := Xor(accumulator, buffer[i]);
    }
    assert buffer[..|buffer|] == buffer;
    return Some(accumulator);
  }

  function MyHashPart2(hashPart1: Word, hashOfID: Word): Word {
    Xor(hashPart1, hashOfID)
  }

  lemma {:induction false} XorConcat(s: seq<Word>, t: seq<Word>)
    ensures XorAll(s + t) == Xor(XorAll(s), XorAll(t))
    decreases |t|
  {
    if t == [] {
      assert s + t == s;
      XorLaws(XorAll(s), {}, {});
    } else {
      assert (s + t)[..|s + t| - 1] == s + t[..|t| - 1];
      XorConcat(s, t[..|t| - 1]);
      XorLaws(XorAll(s), XorAll(t[..|t| - 1]), t[|t| - 1]);
    }
  }

  /** How many of the addresses have a bit. */
  function Having(s: seq<Word>, bit: nat): nat {
    if s == [] then 0 else Having(s[..|s| - 1], bit) + if bit in s[|s| - 1] then 1 else 0
  }

  /** A bit of the hash says whether an odd number of addresses has it. */
  lemma {:induction false} HashIsParity(s: seq<Word>, bit: nat)
    ensures bit in XorAll(s) <==> Having(s, bit) % 2 == 1
    decreases |s|
  {
    if s == [] {
    } else {
      HashIsParity(s[..|s| - 1], bit);
    }
  }

  /** The hash does not see the order of the addresses. */
  lemma HashIgnoresOrder(s: seq<Word>, t: seq<Word>)
    ensures XorAll(s + t) == XorAll(t + s)
  {
    XorConcat(s, t);
    XorConcat(t, s);
    XorLaws(XorAll(s), XorAll(t), {});
  }

  predicate Captured(t: Trace) {
    t.buffer != [] && t.hashPart1 == XorAll(t.buffer)
  }

  // ---- What the comparison sees ------------------------------------------------------

  /** The lowest `k` bytes of a word. */
  function Low(w: Word, k: nat): set<nat> {
    set bit | bit in w && bit / 8 < k
  }

  /** The first addresses are compared whole, one in eight, then some bytes of the
      next. */
  predicate AgreeUpTo(t: Trace, u: Trace, n: nat)
    requires t.nptrs() == u.nptrs() == n
  {
    && t.buffer[..n / 8] == u.buffer[..n / 8]
    && (n > 0 ==> Low(t.buffer[n / 8], n % 8) == Low(u.buffer[n / 8], n % 8))
  }

  lemma BitSeen(t: Trace, u: Trace, j: nat, bit: nat)
    requires TraceCompare(t, u) && j < t.nptrs() && bit < 64 && 8 * j + bit / 8 < t.nptrs()
    ensures bit in t.buffer[j] <==> bit in u.buffer[j]
  {
    var i := 8 * j + bit / 8;
    assert i / 8 == j && i % 8 == bit / 8;
    assert bit in t.buffer[j] <==> bit in ByteAt(t, i);
    assert bit in u.buffer[j] <==> bit in ByteAt(u, i);
  }

  lemma CompareSees(t: Trace, u: Trace, n: nat)
    requires t.nptrs() == u.nptrs() == n && TraceCompare(t, u)
    ensures AgreeUpTo(t, u, n)
  {
    forall j | 0 <= j < n / 8 ensures t.buffer[j] == u.buffer[j] {
      forall bit | bit in t.buffer[j] + u.buffer[j] ensures bit in t.buffer[j] && bit in u.buffer[j] {
        BitSeen(t, u, j, bit);
      }
    }
    if n > 0 {
      forall bit | bit in t.buffer[n / 8] + u.buffer[n / 8] && bit / 8 < n % 8
        ensures bit in t.buffer[n / 8] && bit in u.buffer[n / 8]
      {
        BitSeen(t, u, n / 8, bit);
      }
    }
  }

  lemma ByteAgrees(t: Trace, u: Trace, n: nat, i: nat)
    requires t.nptrs() == u.nptrs() == n && AgreeUpTo(t, u, n) && i < n
    ensures ByteAt(t, i) == ByteAt(u, i)
  {
    var j := i / 8;
    if j < n / 8 {
      assert t.buffer[j] == t.buffer[..n / 8][j] == u.buffer[..n / 8][j] == u.buffer[j];
    } else {
      assert j == n / 8 && i % 8 < n % 8;
      forall bit | bit / 8 == i % 8 ensures bit in t.buffer[j] <==> bit in u.buffer[j] {
        assert bit in t.buffer[j] <==> bit in Low(t.buffer[j], n % 8);
        assert bit in u.buffer[j] <==> bit in Low(u.buffer[j], n % 8);
      }
    }
  }

  /** Exactly what two stacks must share to compare equal. */
  lemma CompareIff(t: Trace, u: Trace, n: nat)
    requires t.nptrs() == u.nptrs() == n
    ensures TraceCompare(t, u) <==> AgreeUpTo(t, u, n)
  {
    if TraceCompare(t, u) {
      CompareSees(t, u, n);
    }
    if AgreeUpTo(t, u, n) {
      forall i | 0 <= i < n ensures ByteAt(t, i) == ByteAt(u, i) {
        ByteAgrees(t, u, n, i);
      }
    }
  }

  /** What the comparison does not look at. */
  predicate AgreeFrom(t: Trace, u: Trace, n: nat)
    requires t.nptrs() == u.nptrs() == n
  {
    n > 0 ==>
      && t.buffer[n / 8] - Low(t.buffer[n / 8], n % 8) == u.buffer[n / 8] - Low(u.buffer[n / 8], n % 8)
      && t.buffer[n / 8 + 1..] == u.buffer[n / 8 + 1..]
  }

  /** Stacks that compare equal are equal exactly when the rest agrees as well. */
  lemma ComparedAreEqualIff(t: Trace, u: Trace, n: nat)
    requires t.nptrs() == u.nptrs() == n && TraceCompare(t, u)
    ensures t.buffer == u.buffer <==> AgreeFrom(t, u, n)
  {
    CompareIff(t, u, n);
    if n > 0 && AgreeFrom(t, u, n) {
      var k := n / 8;
      assert t.buffer[k] == Low(t.buffer[k], n % 8) + (t.buffer[k] - Low(t.buffer[k], n % 8));
      assert u.buffer[k] == Low(u.buffer[k], n % 8) + (u.buffer[k] - Low(u.buffer[k], n % 8));
      assert t.buffer == t.buffer[..k] + [t.buffer[k]] + t.buffer[k + 1..];
      assert u.buffer == u.buffer[..k] + [u.buffer[k]] + u.buffer[k + 1..];
    }
  }

  /** A buffer with bit 63 of one address flipped, which the comparison never sees
      from the address `n / 8` on. */
  function Flipped(s: seq<Word>, k: nat): seq<Word>
    requires k < |s|
  {
    s[k := Xor(s[k], {63})]
  }

  lemma FlipUnseen(s: seq<Word>, k: nat, h: Word, g: Word)
    requires |s| / 8 <= k < |s|
    ensures TraceCompare(Trace(s, h), Trace(Flipped(s, k), g)) && Flipped(s, k) != s
  {
    var t, u := Trace(s, h), Trace(Flipped(s, k), g);
    var n := |s|;
    if k == n / 8 {
      assert Low(u.buffer[k], n % 8) == Low(t.buffer[k], n % 8);
    }
    CompareIff(t, u, n);
    assert 63 in t.buffer[k] <==> 63 !in u.buffer[k];
  }

  /** Whatever its length, a stack compares equal to another one. */
  lemma EveryStackHasATwin(s: seq<Word>)
    requires s != []
    ensures var r := Flipped(s, |s| / 8);
            r != s && Captured(Trace(r, XorAll(r))) && TraceCompare(Trace(s, XorAll(s)), Trace(r, XorAll(r)))
  {
    var k := |s| / 8;
    FlipUnseen(s, k, XorAll(s), XorAll(Flipped(s, k)));
  }

  lemma UpdateSplits<T>(s: seq<T>, k: nat, x: T)
    requires k < |s|
    ensures s[k := x] == s[..k] + ([x] + s[k + 1..])
    ensures s == s[..k] + ([s[k]] + s[k + 1..])
  {
  }

  lemma FlippedHash(s: seq<Word>, k: nat)
    requires k < |s|
    ensures XorAll(Flipped(s, k)) == Xor(XorAll(s), {63})
  {
    UpdateSplits(s, k, Xor(s[k], {63}));
    FlippedBetween(s[..k], s[k], s[k + 1..]);
  }

  lemma FlippedBetween(a: seq<Word>, x: Word, b: seq<Word>)
    ensures XorAll(a + ([Xor(x, {63})] + b)) == Xor(XorAll(a + ([x] + b)), {63})
  {
    XorAround(a, x, b);
    XorAround(a, Xor(x, {63}), b);
    XorSwap(x, {63}, Xor(XorAll(a), XorAll(b)));
  }

  lemma XorSwap(x: Word, e: Word, r: Word)
    ensures Xor(Xor(x, e), r) == Xor(Xor(x, r), e)
  {
  }

  lemma XorOne(w: Word)
    ensures XorAll([w]) == w
  {
    assert [w][..0] == [];
    XorLaws({}, w, {});
  }

  lemma XorAround(a: seq<Word>, x: Word, b: seq<Word>)
    ensures XorAll(a + ([x] + b)) == Xor(x, Xor(XorAll(a), XorAll(b)))
  {
    XorConcat(a, [x] + b);
    XorConcat([x], b);
    XorOne(x);
    XorLaws(XorAll(a), x, XorAll(b));
    XorLaws(x, XorAll(a), XorAll(b));
  }

  /** From two frames on, the twin can hash alike too: two flips cancel. */
  lemma LongerStacksHashAlike(s: seq<Word>)
    requires |s| >= 2
    ensures var r := Flipped(Flipped(s, |s| / 8), |s| - 1);
            r != s && XorAll(r) == XorAll(s) && TraceCompare(Trace(s, XorAll(s)), Trace(r, XorAll(r)))
  {
    var k := |s| / 8;
    var m := Flipped(s, k);
    var r := Flipped(m, |s| - 1);
    FlipUnseen(s, k, XorAll(s), XorAll(r));
    FlipUnseen(m, |s| - 1, XorAll(r), XorAll(r));
    CompareIsEquivalence(Trace(s, XorAll(s)), Trace(m, XorAll(r)), Trace(r, XorAll(r)));
    FlippedHash(s, k);
    FlippedHash(m, |s| - 1);
    XorLaws(XorAll(s), {63}, {63});
    assert Xor({63}, {63}) == {};
    assert r[k] == m[k] != s[k];
  }

  /** Comparison and hash together tell captured stacks of a length apart exactly
      when the length is one. */
  lemma HashTellsOneFrameApart(n: nat)
    requires n > 0
    ensures (forall t, u :: AlikeCaptured(t, u, n) ==> t.buffer == u.buffer) <==> n == 1
  {
    if n == 1 {
      forall t, u | AlikeCaptured(t, u, n) ensures t.buffer == u.buffer {
        XorOne(t.buffer[0]);
        XorOne(u.buffer[0]);
        assert t.buffer == [t.buffer[0]] && u.buffer == [u.buffer[0]];
      }
    } else {
      var s: seq<Word> := seq(n, _ => {});
      LongerStacksHashAlike(s);
      var r := Flipped(Flipped(s, n / 8), n - 1);
      assert AlikeCaptured(Trace(s, XorAll(s)), Trace(r, XorAll(r)), n);
    }
  }

  ghost predicate AlikeCaptured(t: Trace, u: Trace, n: nat) {
    t.nptrs() == u.nptrs() == n && Captured(t) && Captured(u) && TraceCompare(t, u) && t.hashPart1 == u.hashPart1
  }
}
