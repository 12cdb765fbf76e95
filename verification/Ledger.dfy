/** Where the facts "this region touched this offset of this allocation, in this
    class" are kept on their way to the final sets, and what a free drops. */
module Ledger {
  import opened Classes

  datatype Fact<+S, +A> = Fact(state: S, cls: Class, alloc: A, offset: nat)

  /** Facts an allocation holds, facts in its regions' working sets, facts in their
      final sets. */
  datatype Books<S(==), A(==)> = Books(pending: set<Fact<S, A>>, current: set<Fact<S, A>>, final: set<Fact<S, A>>) {
    function Total(): set<Fact<S, A>> {
      pending + current + final
    }
  }

  /** What happens to facts: an offset is recorded for a region and its ancestors;
      an allocation is freed, with the regions whose facts it drops; the facts of
      live allocations are handed to their regions; a region's are made final. */
  datatype Move<S(==), A(==)> = Record(alloc: A, chain: set<S>, cls: Class, offset: nat)
                              | Free(alloc: A, skip: set<S>)
                              | Settle(live: set<A>)
                              | Commit(state: S)

  function Step<S(==), A(==)>(b: Books<S, A>, m: Move<S, A>): Books<S, A> {
    match m
    case Record(a, chain, c, o) => b.(pending := b.pending + (set s | s in chain :: Fact(s, c, a, o)))
    case Free(a, skip) =>
      b.(pending := (set f | f in b.pending && f.alloc != a),
         current := b.current + (set f | f in b.pending && f.alloc == a && f.state !in skip))
    case Settle(live) =>
      b.(pending := (set f | f in b.pending && f.alloc !in live),
         current := b.current + (set f | f in b.pending && f.alloc in live))
    case Commit(s) =>
      b.(current := (set f | f in b.current && f.state != s),
         final := b.final + (set f | f in b.current && f.state == s))
  }

  function Run<S(==), A(==)>(b: Books<S, A>, moves: seq<Move<S, A>>): Books<S, A> {
    if moves == [] then b else Step(Run(b, moves[..|moves| - 1]), moves[|moves| - 1])
  }

  function Empty<S(==), A(==)>(): Books<S, A> {
    Books({}, {}, {})
  }

  lemma RunOne<S, A>(b: Books<S, A>, m: Move<S, A>)
    ensures Run(b, [m]) == Step(b, m)
  {
    assert [m][..0] == [];
  }

  lemma RunTwo<S, A>(b: Books<S, A>, m: Move<S, A>, n: Move<S, A>)
    ensures Run(b, [m, n]) == Step(Step(b, m), n)
  {
    assert [m, n][..1] == [m];
    RunOne(b, m);
  }

  lemma {:induction false} RunConcat<S, A>(b: Books<S, A>, m: seq<Move<S, A>>, n: seq<Move<S, A>>)
    ensures Run(b, m + n) == Run(Run(b, m), n)
    decreases |n|
  {
    if n == [] {
      assert m + n == m;
    } else {
      assert (m + n)[..|m + n| - 1] == m + n[..|n| - 1];
      RunConcat(b, m, n[..|n| - 1]);
    }
  }

  /** Freeing with nothing to drop, one allocation after the other, is handing over. */
  lemma SettleOneMore<S, A>(b: Books<S, A>, done: set<A>, a: A)
    ensures Step(Step(b, Settle(done)), Free(a, {})) == Step(b, Settle(done + {a}))
  {
    var one, all := Step(Step(b, Settle(done)), Free(a, {})), Step(b, Settle(done + {a}));
    assert one.pending == all.pending && one.current == all.current;
  }

  lemma SettleNone<S, A>(b: Books<S, A>)
    ensures Step(b, Settle({})) == b
  {
    assert Step(b, Settle({})).pending == b.pending;
    assert Step(b, Settle({})).current == b.current;
  }

  // ---- One fact ----------------------------------------------------------------------

  predicate Records<S(==), A(==)>(m: Move<S, A>, f: Fact<S, A>) {
    m.Record? && f.state in m.chain && f == Fact(f.state, m.cls, m.alloc, m.offset)
  }

  predicate Drops<S(==), A(==)>(m: Move<S, A>, f: Fact<S, A>) {
    m.Free? && f.alloc == m.alloc && f.state in m.skip
  }

  predicate Settles<S(==), A(==)>(m: Move<S, A>, f: Fact<S, A>) {
    || (m.Free? && f.alloc == m.alloc && f.state !in m.skip)
    || (m.Settle? && f.alloc in m.live)
  }

  predicate Commits<S(==), A(==)>(m: Move<S, A>, f: Fact<S, A>) {
    m.Commit? && m.state == f.state
  }

  /** A fact is recorded at `i` and not dropped before `n`. */
  predicate HeldFrom<S(==), A(==)>(moves: seq<Move<S, A>>, f: Fact<S, A>, i: nat, n: nat) {
    i < n <= |moves| && Records(moves[i], f) && forall j :: i < j < n ==> !Drops(moves[j], f)
  }

  /** ... and is handed to its region at `k`. */
  predicate SettledAt<S(==), A(==)>(moves: seq<Move<S, A>>, f: Fact<S, A>, i: nat, k: nat) {
    k < |moves| && HeldFrom(moves, f, i, k) && Settles(moves[k], f)
  }

  /** The fact's whole history: it is in the books exactly when it was recorded
      and never dropped since, or had been handed over before any drop. */
  predicate Survives<S(==), A(==)>(moves: seq<Move<S, A>>, f: Fact<S, A>) {
    || (exists i :: 0 <= i < |moves| && HeldFrom(moves, f, i, |moves|))
    || (exists i, k :: 0 <= i < k < |moves| && SettledAt(moves, f, i, k))
  }

  predicate IsPending<S(==), A(==)>(moves: seq<Move<S, A>>, f: Fact<S, A>) {
    exists i :: 0 <= i < |moves| && HeldFrom(moves, f, i, |moves|)
      && forall j :: i < j < |moves| ==> !Settles(moves[j], f)
  }

  /** Made final: handed over, and its region committed later. */
  predicate IsFinal<S(==), A(==)>(moves: seq<Move<S, A>>, f: Fact<S, A>) {
    exists i, k, c :: 0 <= i < k < c < |moves| && SettledAt(moves, f, i, k) && Commits(moves[c], f)
  }

  lemma StepOnFact<S, A>(b: Books<S, A>, m: Move<S, A>, f: Fact<S, A>)
    ensures var b' := Step(b, m);
            && (f in b'.pending <==> Records(m, f) || (f in b.pending && !Drops(m, f) && !Settles(m, f)))
            && (f in b'.current + b'.final <==> f in b.current + b.final || (f in b.pending && Settles(m, f)))
            && (f in b'.final <==> f in b.final || (f in b.current && Commits(m, f)))
  {
  }

  /** The last move decides who holds a fact. */
  lemma PendingStep<S, A>(moves: seq<Move<S, A>>, f: Fact<S, A>)
    requires moves != []
    ensures var n := |moves| - 1;
            IsPending(moves, f) <==>
            Records(moves[n], f) || (IsPending(moves[..n], f) && !Drops(moves[n], f) && !Settles(moves[n], f))
  {
    var n := |moves| - 1;
    var before := moves[..n];
    if IsPending(moves, f) {
      var i :| 0 <= i < |moves| && HeldFrom(moves, f, i, |moves|) && forall j :: i < j < |moves| ==> !Settles(moves[j], f);
      if i < n {
        assert HeldFrom(before, f, i, n);
      }
    }
    if Records(moves[n], f) {
      assert HeldFrom(moves, f, n, |moves|);
    }
    if IsPending(before, f) && !Drops(moves[n], f) && !Settles(moves[n], f) {
      var i :| 0 <= i < n && HeldFrom(before, f, i, n) && forall j :: i < j < n ==> !Settles(before[j], f);
      assert HeldFrom(moves, f, i, |moves|);
    }
  }

  predicate IsSettled<S(==), A(==)>(moves: seq<Move<S, A>>, f: Fact<S, A>) {
    exists i, k :: 0 <= i < k < |moves| && SettledAt(moves, f, i, k)
  }

  lemma SettledPrefix<S, A>(moves: seq<Move<S, A>>, n: nat, f: Fact<S, A>, i: nat, k: nat)
    requires n <= |moves| && i < k < n
    ensures SettledAt(moves[..n], f, i, k) <==> SettledAt(moves, f, i, k)
  {
  }

  /** Handing over at the last move takes a fact that was pending. */
  lemma {:induction false} SettledNow<S, A>(moves: seq<Move<S, A>>, f: Fact<S, A>, i: nat)
    requires moves != [] && i < |moves| - 1 && SettledAt(moves, f, i, |moves| - 1)
    ensures IsPending(moves[..|moves| - 1], f) || IsSettled(moves[..|moves| - 1], f)
  {
    var n := |moves| - 1;
    var before := moves[..n];
    if j :| i < j < n && Settles(before[j], f) {
      // The first hand-over after `i` is the one that took it.
      var k := i + 1;
      while !Settles(before[k], f)
        invariant i < k <= j
        invariant forall t :: i < t < k ==> !Settles(before[t], f)
        decreases j - k
      {
        k := k + 1;
      }
      assert SettledAt(before, f, i, k);
    } else {
      assert HeldFrom(before, f, i, n);
    }
  }

  lemma SettledStep<S, A>(moves: seq<Move<S, A>>, f: Fact<S, A>)
    requires moves != []
    ensures var n := |moves| - 1;
            IsSettled(moves, f) <==> IsSettled(moves[..n], f) || (IsPending(moves[..n], f) && Settles(moves[n], f))
  {
    var n := |moves| - 1;
    var before := moves[..n];
    if IsSettled(moves, f) {
      var i, k :| 0 <= i < k < |moves| && SettledAt(moves, f, i, k);
      if k < n {
        SettledPrefix(moves, n, f, i, k);
      } else {
        SettledNow(moves, f, i);
      }
    }
    if IsSettled(before, f) {
      var i, k :| 0 <= i < k < n && SettledAt(before, f, i, k);
      SettledPrefix(moves, n, f, i, k);
    }
    if IsPending(before, f) && Settles(moves[n], f) {
      var i :| 0 <= i < n && HeldFrom(before, f, i, n) && forall j :: i < j < n ==> !Settles(before[j], f);
      assert SettledAt(moves, f, i, n);
    }
  }

  lemma FinalStep<S, A>(moves: seq<Move<S, A>>, f: Fact<S, A>)
    requires moves != []
    ensures var n := |moves| - 1;
            IsFinal(moves, f) <==> IsFinal(moves[..n], f) || (IsSettled(moves[..n], f) && Commits(moves[n], f))
  {
    var n := |moves| - 1;
    var before := moves[..n];
    if IsFinal(moves, f) {
      var i, k, c :| 0 <= i < k < c < |moves| && SettledAt(moves, f, i, k) && Commits(moves[c], f);
      SettledPrefix(moves, n, f, i, k);
      if c < n {
        assert Commits(before[c], f);
      }
    }
    if IsFinal(before, f) {
      var i, k, c :| 0 <= i < k < c < n && SettledAt(before, f, i, k) && Commits(before[c], f);
      SettledPrefix(moves, n, f, i, k);
      assert Commits(moves[c], f);
    }
    if IsSettled(before, f) && Commits(moves[n], f) {
      var i, k :| 0 <= i < k < n && SettledAt(before, f, i, k);
      SettledPrefix(moves, n, f, i, k);
    }
  }

  /** Where a fact is after any run of moves, by its history alone. */
  lemma {:induction false} BooksAreHistory<S, A>(moves: seq<Move<S, A>>, f: Fact<S, A>)
    ensures var b := Run(Empty(), moves);
            && (f in b.pending <==> IsPending(moves, f))
            && (f in b.current + b.final <==> IsSettled(moves, f))
            && (f in b.final <==> IsFinal(moves, f))
    decreases |moves|
  {
    if moves == [] {
    } else {
      var n := |moves| - 1;
      BooksAreHistory(moves[..n], f);
      StepOnFact(Run(Empty(), moves[..n]), moves[n], f);
      PendingStep(moves, f);
      SettledStep(moves, f);
      FinalStep(moves, f);
      FinalIsSettled(moves[..n], f);
    }
  }

  lemma FinalIsSettled<S, A>(moves: seq<Move<S, A>>, f: Fact<S, A>)
    ensures IsFinal(moves, f) ==> IsSettled(moves, f)
  {
  }

  /** Nothing is lost and nothing appears: the books hold exactly the facts that
      were recorded for a region and not dropped by a free before they were
      handed over. */
  lemma Conservation<S, A>(moves: seq<Move<S, A>>, f: Fact<S, A>)
    ensures f in Run(Empty(), moves).Total() <==> Survives(moves, f)
  {
    BooksAreHistory(moves, f);
    if Survives(moves, f) && !IsSettled(moves, f) {
      var i :| 0 <= i < |moves| && HeldFrom(moves, f, i, |moves|);
      if j :| i < j < |moves| && Settles(moves[j], f) {
        assert SettledAt(moves, f, i, j);
      }
    }
  }

  /** At the end of the program every live allocation's facts are handed over and
      every region is committed: the final sets then hold all there is. */
  lemma {:induction false} CommitAll<S, A>(b: Books<S, A>, states: seq<S>)
    requires b.pending == {}
    requires forall f :: f in b.current ==> f.state in states
    ensures var e := RunAll(b, states);
            e.pending == {} && e.current == {} && e.final == b.Total()
    decreases |states|
  {
    if states == [] {
    } else {
      var b' := Step(b, Commit(states[0]));
      forall f | f in b'.current ensures f.state in states[1..] {
        assert f in b.current;
      }
      CommitAll(b', states[1..]);
      assert b'.Total() == b.Total();
    }
  }

  function RunAll<S(==), A(==)>(b: Books<S, A>, states: seq<S>): Books<S, A>
    decreases |states|
  {
    if states == [] then b else RunAll(Step(b, Commit(states[0])), states[1..])
  }
}
