/** The hand-off of entries from the program's thread to the cleaning thread:
    a fixed set of buffers, a queue of filled batches and a queue of free buffers,
    as steps that the two threads interleave in any order. */
module Handoff {
  import opened Classes
  import opened Cleaning

  type Buffer = nat

  datatype Batch = NewBatch(buffer: Buffer, numEntries: nat, number: nat) | KillBatch

  /** Where the program's thread is: writing entries into its buffer, waiting for a
      free one, or waiting for the other thread to end. */
  datatype Producer = Filling(buffer: Buffer) | Waiting | Joining

  /** Where the cleaning thread is: polling, working on a batch, or ended. */
  datatype Consumer = Polling | Working(batch: Batch) | Ended

  datatype Protocol<T> = Protocol(
    window: nat,                // entries a buffer holds
    contents: map<Buffer, seq<T>>,
    slotStart: nat,             // entries written to the program's buffer
    batchNumber: nat,
    producer: Producer,
    consumer: Consumer,
    work: seq<Batch>,           // filled batches, oldest first
    ready: seq<Buffer>,         // free buffers, oldest first
    issued: seq<T>,             // every entry the program has written
    cleaned: seq<seq<T>>)       // every batch the cleaning thread has finished

  datatype Step<T> = Write(entry: T)   // getFreeSlot with room, and the entry filled in
                   | Full              // getFreeSlot without room: hand the buffer over
                   | Flush             // hand over a partly filled buffer
                   | TakeBuffer        // the wait for a free buffer ends
                   | Report            // the last batch and the order to stop
                   | Pop               // the cleaning thread takes the oldest batch
                   | Clean             // ... and finishes it, freeing its buffer

  predicate Enabled<T>(p: Protocol<T>, s: Step<T>) {
    match s
    case Write(_) => p.producer.Filling? && p.slotStart < p.window
    case Full => p.producer.Filling? && p.slotStart >= p.window
    case Flush => p.producer.Filling?
    case TakeBuffer => p.producer.Waiting? && p.ready != []
    case Report => p.producer.Filling?
    case Pop => p.consumer.Polling? && p.work != []
    case Clean => p.consumer.Working? && p.consumer.batch.NewBatch?
  }

  /** The batch the program's thread hands over: a full one is counted by the
      window, any other by the entries written. */
  function Filled<T>(p: Protocol<T>, capacityFill: bool): Batch
    requires p.producer.Filling?
  {
    NewBatch(p.producer.buffer, if capacityFill then p.window else p.slotStart, p.batchNumber)
  }

  function At<T>(p: Protocol<T>, b: Buffer): seq<T> {
    if b in p.contents then p.contents[b] else []
  }

  /** The entries of a batch, as many as it says it has. */
  function Entries<T>(p: Protocol<T>, b: Batch): seq<T> {
    if b.NewBatch? && b.numEntries <= |At(p, b.buffer)| then At(p, b.buffer)[..b.numEntries] else []
  }

  /** Writing slot `i` of a buffer overwrites what an earlier use left there. */
  function WriteSlot<T>(es: seq<T>, i: nat, e: T): seq<T> {
    if i < |es| then es[i := e] else es + [e]
  }

  function Next<T>(p: Protocol<T>, s: Step<T>): Protocol<T>
    requires Enabled(p, s)
  {
    match s
    case Write(e) =>
      p.(contents := p.contents[p.producer.buffer := WriteSlot(At(p, p.producer.buffer), p.slotStart, e)],
         slotStart := p.slotStart + 1,
         issued := p.issued + [e])
    case Full =>
      p.(work := p.work + [Filled(p, true)], batchNumber := p.batchNumber + 1, slotStart := 0, producer := Waiting)
    case Flush =>
      p.(work := p.work + [Filled(p, false)], batchNumber := p.batchNumber + 1, slotStart := 0, producer := Waiting)
    case TakeBuffer => p.(producer := Filling(p.ready[0]), ready := p.ready[1..])
    case Report =>
      p.(work := p.work + [Filled(p, false), KillBatch], batchNumber := p.batchNumber + 1, producer := Joining)
    case Pop =>
      p.(consumer := if p.work[0].KillBatch? then Ended else Working(p.work[0]), work := p.work[1..])
    case Clean =>
      p.(consumer := Polling,
         ready := p.ready + [p.consumer.batch.buffer],
         cleaned := p.cleaned + [Entries(p, p.consumer.batch)])
  }

  /** Start-up: buffers 0 to n-1, the first of them the program's. */
  function Init<T>(buffers: nat, window: nat): Protocol<T>
    requires buffers > 0
  {
    Protocol(window, map[], 0, 0, Filling(0), Polling, [], seq(buffers - 1, i requires 0 <= i < buffers - 1 => i + 1), [], [])
  }

  // ---- Ownership ------------------------------------------------------------------

  function BuffersOf(work: seq<Batch>): seq<Buffer> {
    if work == [] then []
    else if work[0].NewBatch? then [work[0].buffer] + BuffersOf(work[1..])
    else BuffersOf(work[1..])
  }

  function Mine<T>(p: Protocol<T>): seq<Buffer> {
    if p.producer.Filling? then [p.producer.buffer] else []
  }

  function Held<T>(p: Protocol<T>): seq<Buffer> {
    if p.consumer.Working? && p.consumer.batch.NewBatch? then [p.consumer.batch.buffer] else []
  }

  /** Every place a buffer can be: the program's hand, the queue of batches, the
      cleaning thread's hand, the queue of free buffers. */
  function Owned<T>(p: Protocol<T>): multiset<Buffer> {
    multiset(Mine(p)) + multiset(BuffersOf(p.work)) + multiset(Held(p)) + multiset(p.ready)
  }

  function AllBuffers(n: nat): multiset<Buffer> {
    if n == 0 then multiset{} else AllBuffers(n - 1) + multiset{n - 1}
  }

  lemma {:induction false} AllBuffersOnce(n: nat, b: Buffer)
    ensures AllBuffers(n)[b] == if b < n then 1 else 0
  {
    if n == 0 {
    } else {
      AllBuffersOnce(n - 1, b);
    }
  }

  // ---- The order of entries -----------------------------------------------------------

  function EntriesOfWork<T>(p: Protocol<T>, work: seq<Batch>): seq<T> {
    if work == [] then [] else Entries(p, work[0]) + EntriesOfWork(p, work[1..])
  }

  function BeingCleaned<T>(p: Protocol<T>): seq<T> {
    if p.consumer.Working? then Entries(p, p.consumer.batch) else []
  }

  function BeingFilled<T>(p: Protocol<T>): seq<T> {
    if p.producer.Filling? && p.slotStart <= |At(p, p.producer.buffer)| then At(p, p.producer.buffer)[..p.slotStart] else []
  }

  /** Everything issued, by how far it has come. */
  function InOrder<T>(p: Protocol<T>): seq<T> {
    Flat(p.cleaned) + (BeingCleaned(p) + (EntriesOfWork(p, p.work) + BeingFilled(p)))
  }

  predicate Holds<T>(p: Protocol<T>, b: Batch) {
    b.NewBatch? ==> b.numEntries <= |At(p, b.buffer)|
  }

  /** Batches hold what they say they hold, and the order to stop is only ever last. */
  predicate WellOrdered<T>(p: Protocol<T>) {
    && p.slotStart <= p.window
    && (p.producer.Filling? ==> p.slotStart <= |At(p, p.producer.buffer)|)
    && (p.producer.Waiting? ==> p.slotStart == 0)
    && (p.consumer.Working? ==> p.consumer.batch.NewBatch? && Holds(p, p.consumer.batch))
    && (forall i :: 0 <= i < |p.work| ==> Holds(p, p.work[i]))
    && (forall i :: 0 <= i < |p.work| && p.work[i].KillBatch? ==> i == |p.work| - 1 && p.producer.Joining?)
    && (p.producer.Joining? ==> p.consumer.Ended? || (p.work != [] && p.work[|p.work| - 1].KillBatch?))
    && (p.consumer.Ended? ==> p.producer.Joining? && p.work == [])
  }

  ghost predicate Sound<T>(p: Protocol<T>, n: nat) {
    Owned(p) == AllBuffers(n) && WellOrdered(p) && InOrder(p) == p.issued
  }

  // ---- Every step keeps it ---------------------------------------------------------------

  lemma {:induction false} BuffersOfConcat(work: seq<Batch>, more: seq<Batch>)
    ensures BuffersOf(work + more) == BuffersOf(work) + BuffersOf(more)
    decreases |work|
  {
    if work == [] {
      assert work + more == more;
    } else {
      assert (work + more)[1..] == work[1..] + more;
      BuffersOfConcat(work[1..], more);
    }
  }

  lemma {:induction false} EntriesOfWorkConcat<T>(p: Protocol<T>, work: seq<Batch>, more: seq<Batch>)
    ensures EntriesOfWork(p, work + more) == EntriesOfWork(p, work) + EntriesOfWork(p, more)
    decreases |work|
  {
    if work == [] {
      assert work + more == more;
    } else {
      assert (work + more)[1..] == work[1..] + more;
      EntriesOfWorkConcat(p, work[1..], more);
    }
  }

  /** Queued entries are those of the queued buffers. */
  lemma {:induction false} EntriesOfWorkDepends<T>(p: Protocol<T>, q: Protocol<T>, work: seq<Batch>)
    requires forall b :: b in BuffersOf(work) ==> At(p, b) == At(q, b)
    ensures EntriesOfWork(p, work) == EntriesOfWork(q, work)
    decreases |work|
  {
    if work == [] {
    } else {
      assert work[0].NewBatch? ==> work[0].buffer in BuffersOf(work);
      EntriesOfWorkDepends(p, q, work[1..]);
    }
  }

  lemma {:induction false} InBuffersOf(work: seq<Batch>, i: nat)
    requires i < |work| && work[i].NewBatch?
    ensures work[i].buffer in BuffersOf(work)
    decreases i
  {
    if i == 0 {
    } else {
      InBuffersOf(work[1..], i - 1);
    }
  }

  lemma {:induction false} FlatSnoc<T>(bs: seq<seq<T>>, b: seq<T>)
    ensures Flat(bs + [b]) == Flat(bs) + b
    decreases |bs|
  {
    if bs == [] {
      assert bs + [b] == [b] && Flat([b]) == b + [];
    } else {
      assert (bs + [b])[1..] == bs[1..] + [b];
      FlatSnoc(bs[1..], b);
    }
  }

  /** The program's own buffer is nowhere else. */
  lemma OwnBuffer<T>(p: Protocol<T>, n: nat)
    requires Owned(p) == AllBuffers(n) && p.producer.Filling?
    ensures p.producer.buffer !in BuffersOf(p.work)
    ensures p.producer.buffer !in Held(p)
  {
    var b := p.producer.buffer;
    AllBuffersOnce(n, b);
    assert Owned(p)[b] == multiset(Mine(p))[b] + multiset(BuffersOf(p.work))[b] + multiset(Held(p))[b] + multiset(p.ready)[b];
    assert multiset(Mine(p))[b] == 1;
  }

  // Writing an entry.

  lemma WriteHolds<T>(p: Protocol<T>, e: T, i: nat)
    requires Enabled(p, Write(e)) && p.producer.buffer !in BuffersOf(p.work)
    requires i < |p.work| && Holds(p, p.work[i])
    ensures Holds(Next(p, Write(e)), p.work[i])
  {
    if p.work[i].NewBatch? {
      InBuffersOf(p.work, i);
    }
  }

  lemma WriteOrdered<T>(p: Protocol<T>, e: T, n: nat)
    requires Owned(p) == AllBuffers(n) && WellOrdered(p) && Enabled(p, Write(e))
    ensures WellOrdered(Next(p, Write(e)))
  {
    var q := Next(p, Write(e));
    OwnBuffer(p, n);
    forall i | 0 <= i < |p.work| ensures Holds(q, p.work[i]) {
      WriteHolds(p, e, i);
    }
    if p.consumer.Working? {
      assert p.consumer.batch.buffer in Held(p);
    }
  }

  lemma WriteKeepsOthers<T>(p: Protocol<T>, e: T, n: nat)
    requires Owned(p) == AllBuffers(n) && Enabled(p, Write(e))
    ensures EntriesOfWork(Next(p, Write(e)), p.work) == EntriesOfWork(p, p.work)
    ensures BeingCleaned(Next(p, Write(e))) == BeingCleaned(p)
  {
    var q := Next(p, Write(e));
    OwnBuffer(p, n);
    EntriesOfWorkDepends(p, q, p.work);
    if p.consumer.Working? && p.consumer.batch.NewBatch? {
      assert p.consumer.batch.buffer in Held(p);
    }
  }

  lemma Regroup<T>(a: seq<T>, b: seq<T>, c: seq<T>, d: seq<T>, e: seq<T>)
    ensures a + (b + (c + (d + e))) == a + (b + (c + d)) + e
  {
  }

  lemma WriteInOrder<T>(p: Protocol<T>, e: T, n: nat)
    requires Owned(p) == AllBuffers(n) && Enabled(p, Write(e))
    requires p.slotStart <= |At(p, p.producer.buffer)|
    ensures InOrder(Next(p, Write(e))) == InOrder(p) + [e]
  {
    var q := Next(p, Write(e));
    WriteKeepsOthers(p, e, n);
    assert BeingFilled(q) == BeingFilled(p) + [e];
    Regroup(Flat(p.cleaned), BeingCleaned(p), EntriesOfWork(p, p.work), BeingFilled(p), [e]);
  }

  // Handing a buffer over.

  predicate HandsOver<T>(s: Step<T>) {
    s.Full? || s.Flush? || s.Report?
  }

  /** The batches a hand-over adds to the queue. */
  function Added<T>(p: Protocol<T>, s: Step<T>): seq<Batch>
    requires p.producer.Filling?
  {
    if s.Report? then [Filled(p, false), KillBatch] else [Filled(p, s.Full?)]
  }

  lemma AddedIsMine<T>(p: Protocol<T>, s: Step<T>)
    requires WellOrdered(p) && Enabled(p, s) && HandsOver(s)
    ensures BuffersOf(Added(p, s)) == Mine(p)
    ensures EntriesOfWork(p, Added(p, s)) == BeingFilled(p)
    ensures forall i :: 0 <= i < |Added(p, s)| ==> Holds(p, Added(p, s)[i])
  {
    var added := Added(p, s);
    assert added[1..] == if s.Report? then [KillBatch] else [];
    assert BuffersOf([KillBatch]) == [] && EntriesOfWork(p, [KillBatch]) == [];
    assert BuffersOf(added) == [p.producer.buffer] + BuffersOf(added[1..]);
    assert EntriesOfWork(p, added) == Entries(p, added[0]) + EntriesOfWork(p, added[1..]);
  }

  lemma HandOverOwned<T>(p: Protocol<T>, s: Step<T>)
    requires WellOrdered(p) && Enabled(p, s) && HandsOver(s)
    ensures Owned(Next(p, s)) == Owned(p)
  {
    AddedIsMine(p, s);
    BuffersOfConcat(p.work, Added(p, s));
  }

  lemma HandOverHolds<T>(p: Protocol<T>, s: Step<T>, i: nat)
    requires WellOrdered(p) && Enabled(p, s) && HandsOver(s)
    requires i < |Next(p, s).work|
    ensures Holds(Next(p, s), Next(p, s).work[i])
    ensures Next(p, s).work[i].KillBatch? ==> s.Report? && i == |Next(p, s).work| - 1
  {
    var q := Next(p, s);
    AddedIsMine(p, s);
    assert q.work == p.work + Added(p, s);
    if i < |p.work| {
      assert q.work[i] == p.work[i] && Holds(p, p.work[i]);
    } else {
      assert q.work[i] == Added(p, s)[i - |p.work|];
    }
  }

  lemma HandOverOrdered<T>(p: Protocol<T>, s: Step<T>)
    requires WellOrdered(p) && Enabled(p, s) && HandsOver(s)
    ensures WellOrdered(Next(p, s))
  {
    var q := Next(p, s);
    forall i | 0 <= i < |q.work|
      ensures Holds(q, q.work[i]) && (q.work[i].KillBatch? ==> s.Report? && i == |q.work| - 1)
    {
      HandOverHolds(p, s, i);
    }
  }

  lemma HandOverInOrder<T>(p: Protocol<T>, s: Step<T>)
    requires WellOrdered(p) && Enabled(p, s) && HandsOver(s)
    ensures InOrder(Next(p, s)) == InOrder(p)
  {
    var q := Next(p, s);
    assert BeingCleaned(q) == BeingCleaned(p) && BeingFilled(q) == [];
    AddedIsMine(p, s);
    EntriesOfWorkConcat(p, p.work, Added(p, s));
    EntriesOfWorkDepends(p, q, p.work + Added(p, s));
    assert EntriesOfWork(q, q.work) + BeingFilled(q) == EntriesOfWork(p, p.work) + BeingFilled(p);
  }

  // Taking a free buffer.

  lemma TakeBufferOwned<T>(p: Protocol<T>)
    requires Enabled(p, TakeBuffer)
    ensures Owned(Next(p, TakeBuffer)) == Owned(p)
  {
    var q := Next(p, TakeBuffer);
    assert p.ready == [p.ready[0]] + q.ready;
    assert Mine(p) == [] && Mine(q) == [p.ready[0]];
  }

  lemma TakeBufferOrdered<T>(p: Protocol<T>)
    requires WellOrdered(p) && Enabled(p, TakeBuffer)
    ensures WellOrdered(Next(p, TakeBuffer))
  {
    assert forall i :: 0 <= i < |p.work| ==> Holds(p, p.work[i]) && Holds(Next(p, TakeBuffer), p.work[i]);
  }

  lemma TakeBufferInOrder<T>(p: Protocol<T>)
    requires WellOrdered(p) && Enabled(p, TakeBuffer)
    ensures InOrder(Next(p, TakeBuffer)) == InOrder(p)
  {
    var q := Next(p, TakeBuffer);
    EntriesOfWorkDepends(p, q, p.work);
    assert BeingFilled(p) == [] && BeingFilled(q) == [] && BeingCleaned(q) == BeingCleaned(p);
  }

  // Taking a batch.

  lemma PopOwned<T>(p: Protocol<T>)
    requires Enabled(p, Pop)
    ensures Owned(Next(p, Pop)) == Owned(p)
  {
    var q := Next(p, Pop);
    assert BuffersOf(p.work) == Held(q) + BuffersOf(q.work);
  }

  lemma PopOrdered<T>(p: Protocol<T>)
    requires WellOrdered(p) && Enabled(p, Pop)
    ensures WellOrdered(Next(p, Pop))
  {
    var q := Next(p, Pop);
    assert Holds(p, p.work[0]);
    forall i | 0 <= i < |q.work|
      ensures Holds(q, q.work[i])
      ensures q.work[i].KillBatch? ==> i == |q.work| - 1 && p.producer.Joining?
    {
      assert q.work[i] == p.work[i + 1];
      assert Holds(p, p.work[i + 1]);
    }
  }

  lemma PopRegroup<T>(a: seq<T>, b: seq<T>, c: seq<T>, d: seq<T>)
    ensures a + ([] + ((b + c) + d)) == a + (b + (c + d))
  {
  }

  lemma PopInOrder<T>(p: Protocol<T>)
    requires Enabled(p, Pop)
    ensures InOrder(Next(p, Pop)) == InOrder(p)
  {
    var q := Next(p, Pop);
    EntriesOfWorkDepends(p, q, q.work);
    assert BeingCleaned(p) == [] && BeingFilled(q) == BeingFilled(p);
    assert BeingCleaned(q) == Entries(p, p.work[0]);
    PopRegroup(Flat(p.cleaned), Entries(p, p.work[0]), EntriesOfWork(p, q.work), BeingFilled(p));
  }

  // Finishing a batch.

  lemma CleanOwned<T>(p: Protocol<T>)
    requires Enabled(p, Step.Clean)
    ensures Owned(Next(p, Step.Clean)) == Owned(p)
  {
    var q := Next(p, Step.Clean);
    assert Held(p) == [p.consumer.batch.buffer] && Held(q) == [];
  }

  lemma CleanOrdered<T>(p: Protocol<T>)
    requires WellOrdered(p) && Enabled(p, Step.Clean)
    ensures WellOrdered(Next(p, Step.Clean))
  {
    assert forall i :: 0 <= i < |p.work| ==> Holds(p, p.work[i]) && Holds(Next(p, Step.Clean), p.work[i]);
  }

  lemma CleanInOrder<T>(p: Protocol<T>)
    requires Enabled(p, Step.Clean)
    ensures InOrder(Next(p, Step.Clean)) == InOrder(p)
  {
    var q := Next(p, Step.Clean);
    FlatSnoc(p.cleaned, Entries(p, p.consumer.batch));
    EntriesOfWorkDepends(p, q, p.work);
    assert BeingCleaned(q) == [] && BeingFilled(q) == BeingFilled(p);
  }

  lemma StepKeepsSound<T>(p: Protocol<T>, s: Step<T>, n: nat)
    requires Sound(p, n) && Enabled(p, s)
    ensures Sound(Next(p, s), n)
  {
    match s {
      case Write(e) => WriteOrdered(p, e, n); WriteInOrder(p, e, n);
      case Full => HandOverOwned(p, s); HandOverOrdered(p, s); HandOverInOrder(p, s);
      case Flush => HandOverOwned(p, s); HandOverOrdered(p, s); HandOverInOrder(p, s);
      case Report => HandOverOwned(p, s); HandOverOrdered(p, s); HandOverInOrder(p, s);
      case TakeBuffer => TakeBufferOwned(p); TakeBufferOrdered(p); TakeBufferInOrder(p);
      case Pop => PopOwned(p); PopOrdered(p); PopInOrder(p);
      case Clean => CleanOwned(p); CleanOrdered(p); CleanInOrder(p);
    }
  }

  lemma {:induction false} InitBuffers(n: nat)
    requires n > 0
    ensures multiset([0]) + multiset(seq(n - 1, i requires 0 <= i < n - 1 => i + 1)) == AllBuffers(n)
  {
    if n > 1 {
      InitBuffers(n - 1);
      assert seq(n - 1, i requires 0 <= i < n - 1 => i + 1) == seq(n - 2, i requires 0 <= i < n - 2 => i + 1) + [n - 1];
    } else {
      assert seq(0, i requires 0 <= i < 0 => i + 1) == [];
      assert AllBuffers(1) == AllBuffers(0) + multiset{0};
    }
  }

  lemma InitSound<T>(buffers: nat, window: nat)
    requires buffers > 0
    ensures Sound<T>(Init(buffers, window), buffers)
  {
    var p: Protocol<T> := Init(buffers, window);
    InitBuffers(buffers);
    assert Mine(p) == [0] && Held(p) == [] && BuffersOf(p.work) == [];
    assert EntriesOfWork(p, p.work) == [] && BeingCleaned(p) == [] && BeingFilled(p) == [] && InOrder(p) == [];
  }

  // ---- Runs ----------------------------------------------------------------------------------

  predicate IsRun<T>(p: Protocol<T>, steps: seq<Step<T>>)
    decreases |steps|
  {
    steps == [] || (Enabled(p, steps[0]) && IsRun(Next(p, steps[0]), steps[1..]))
  }

  function Run<T>(p: Protocol<T>, steps: seq<Step<T>>): Protocol<T>
    requires IsRun(p, steps)
    decreases |steps|
  {
    if steps == [] then p else Run(Next(p, steps[0]), steps[1..])
  }

  lemma {:induction false} RunKeepsSound<T>(p: Protocol<T>, steps: seq<Step<T>>, n: nat)
    requires Sound(p, n) && IsRun(p, steps)
    ensures Sound(Run(p, steps), n)
    decreases |steps|
  {
    if steps == [] {
    } else {
      StepKeepsSound(p, steps[0], n);
      RunKeepsSound(Next(p, steps[0]), steps[1..], n);
    }
  }

  /** In every reachable state each buffer has exactly one owner. */
  lemma OneOwner<T>(buffers: nat, window: nat, steps: seq<Step<T>>, b: Buffer)
    requires buffers > 0 && IsRun(Init(buffers, window), steps)
    ensures Owned(Run(Init(buffers, window), steps))[b] == if b < buffers then 1 else 0
  {
    InitSound<T>(buffers, window);
    RunKeepsSound(Init(buffers, window), steps, buffers);
    AllBuffersOnce(buffers, b);
  }

  /** The batches taken from the queue so far. */
  function Taken<T>(p: Protocol<T>): nat {
    |p.cleaned| + if p.consumer.Working? then 1 else 0
  }

  /** Batches are numbered in the order in which they are cleaned. */
  predicate Numbered<T>(p: Protocol<T>) {
    && (p.consumer.Working? && p.consumer.batch.NewBatch? ==> p.consumer.batch.number == |p.cleaned|)
    && (forall i :: 0 <= i < |p.work| && p.work[i].NewBatch? ==> p.work[i].number == Taken(p) + i)
    && (!p.producer.Joining? ==> p.batchNumber == Taken(p) + |p.work|)
  }

  lemma StepKeepsNumbered<T>(p: Protocol<T>, s: Step<T>)
    requires WellOrdered(p) && Numbered(p) && Enabled(p, s)
    ensures Numbered(Next(p, s))
  {
  }

  lemma {:induction false} RunKeepsNumbered<T>(p: Protocol<T>, steps: seq<Step<T>>, n: nat)
    requires Sound(p, n) && Numbered(p) && IsRun(p, steps)
    ensures Numbered(Run(p, steps))
    decreases |steps|
  {
    if steps == [] {
    } else {
      StepKeepsNumbered(p, steps[0]);
      StepKeepsSound(p, steps[0], n);
      RunKeepsNumbered(Next(p, steps[0]), steps[1..], n);
    }
  }

  /** In every reachable state the batch being cleaned has as its number how many were
      cleaned before it, and those in the queue follow it. */
  lemma NumbersFollow<T>(buffers: nat, window: nat, steps: seq<Step<T>>)
    requires buffers > 0 && IsRun(Init(buffers, window), steps)
    ensures Numbered(Run(Init(buffers, window), steps))
  {
    InitSound<T>(buffers, window);
    RunKeepsNumbered(Init(buffers, window), steps, buffers);
  }

  /** In every reachable state the batches cleaned so far are the beginning of what
      the program has issued, in order and each entry once; when the cleaning
      thread has ended they are all of it. */
  lemma CleanedInOrder<T>(buffers: nat, window: nat, steps: seq<Step<T>>)
    requires buffers > 0 && IsRun(Init(buffers, window), steps)
    ensures var p := Run(Init(buffers, window), steps);
            && Flat(p.cleaned) <= p.issued
            && (p.consumer.Ended? ==> Flat(p.cleaned) == p.issued)
  {
    InitSound<T>(buffers, window);
    RunKeepsSound(Init(buffers, window), steps, buffers);
    var p := Run(Init(buffers, window), steps);
    assert InOrder(p) == p.issued;
    if p.consumer.Ended? {
      assert BeingCleaned(p) == [] && EntriesOfWork(p, p.work) == [] && BeingFilled(p) == [];
      assert InOrder(p) == Flat(p.cleaned);
    }
  }

  /** The steps that do not depend on what the program does next. */
  predicate Progress<T>(s: Step<T>) {
    s == TakeBuffer || s == Pop || s == Step.Clean
  }

  lemma SoundIsNotStuck<T>(p: Protocol<T>, n: nat)
    requires Owned(p) == AllBuffers(n) && n > 0 && WellOrdered(p)
    ensures p.producer.Filling? || p.consumer.Ended? || p.consumer.Working?
            || p.work != [] || (p.producer.Waiting? && p.ready != [])
  {
    AllBuffersOnce(n, 0);
    assert Owned(p)[0] == 1;
  }

  lemma SoundGoesOn<T>(p: Protocol<T>, n: nat)
    requires Sound(p, n) && n > 0
    ensures p.producer.Filling? || p.consumer.Ended?
            || Enabled(p, TakeBuffer) || Enabled(p, Pop) || Enabled(p, Step.Clean)
  {
    SoundIsNotStuck(p, n);
  }

  /** Neither thread is ever stuck: unless the program is free to go on, or all is
      over, one of the other steps is possible. */
  lemma NoDeadlock<T>(buffers: nat, window: nat, steps: seq<Step<T>>)
    requires buffers > 0 && IsRun(Init(buffers, window), steps)
    ensures var p := Run(Init(buffers, window), steps);
            p.producer.Filling? || p.consumer.Ended?
            || Enabled(p, TakeBuffer) || Enabled(p, Pop) || Enabled(p, Step.Clean)
  {
    InitSound<T>(buffers, window);
    RunKeepsSound(Init(buffers, window), steps, buffers);
    SoundGoesOn(Run(Init(buffers, window), steps), buffers);
  }

  /** What is left to do once the program stops adding to it. */
  function Remaining<T>(p: Protocol<T>): nat {
    2 * |p.work| + (if p.consumer.Working? then 1 else 0) + (if p.producer.Waiting? then 1 else 0)
  }

  /** ... so waiting ends: each such step leaves strictly less to do. */
  lemma ProgressEnds<T>(p: Protocol<T>, s: Step<T>)
    requires Enabled(p, s) && Progress(s)
    ensures Remaining(Next(p, s)) < Remaining(p)
  {
  }

  lemma {:induction false} BuffersOfLength(work: seq<Batch>)
    requires forall i :: 0 <= i < |work| && work[i].KillBatch? ==> i == |work| - 1
    ensures |work| <= |BuffersOf(work)| + 1
    decreases |work|
  {
    if |work| > 1 {
      assert work[0].NewBatch?;
      assert forall i :: 0 <= i < |work[1..]| ==> work[1..][i] == work[i + 1];
      BuffersOfLength(work[1..]);
    }
  }

  lemma {:induction false} AllBuffersSize(n: nat)
    ensures |AllBuffers(n)| == n
  {
    if n == 0 {
    } else {
      AllBuffersSize(n - 1);
    }
  }

  /** The program never waits for more than the buffers there are. */
  lemma WaitIsBounded<T>(buffers: nat, window: nat, steps: seq<Step<T>>)
    requires buffers > 0 && IsRun(Init(buffers, window), steps)
    ensures Remaining(Run(Init(buffers, window), steps)) <= 2 * buffers + 4
  {
    InitSound<T>(buffers, window);
    RunKeepsSound(Init(buffers, window), steps, buffers);
    var p := Run(Init(buffers, window), steps);
    BuffersOfLength(p.work);
    AllBuffersSize(buffers);
    assert |Owned(p)| == |Mine(p)| + |BuffersOf(p.work)| + |Held(p)| + |p.ready|;
  }
}
