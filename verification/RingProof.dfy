/** The ring refines a plain FIFO queue: invariants of every step and of every run. */
module RingProof {
  import opened Words
  import opened RingRun

  /** The next counter the consumer reads. */
  function ReadPos(r: Ring): (p: nat) { if r.consumer.Reading? then r.consumer.pos else r.head }

  /** cached_head <= head <= tail <= cached_head + capacity, and where the two sides are. */
  predicate Bounded(r: Ring) {
    && r.bits <= 63 && r.cachedHead <= r.head <= r.seenTail <= r.tail <= r.cachedHead + Cap(r)
    && (r.consumer.Reading? ==> r.head <= r.consumer.pos <= r.consumer.end <= r.seenTail)
    && (r.consumer.Viewing? ==> r.head + r.consumer.len <= r.seenTail)
    && (r.producer.Reserved? ==>
      r.producer.idx == Index(Unbounded, r.tail, r.bits) && r.tail + r.producer.len <= r.cachedHead + Cap(r))
  }

  /** Every slot between the reader and the tail is initialised. */
  ghost predicate Initialised(r: Ring)
    requires Shaped(r)
  {
    forall i :: ReadPos(r) <= i < r.tail ==> At(Unbounded, r.bits, r.slots, i).Holds?
  }

  ghost predicate Inv(r: Ring) { Shaped(r) && Bounded(r) && Initialised(r) }

  /** The abstract queue: what has been committed and not yet read. */
  function Queue(r: Ring): (q: seq<Cell>)
    requires Shaped(r) && Bounded(r)
  {
    if r.alive then Cells(Unbounded, r.bits, r.slots, ReadPos(r), r.tail - ReadPos(r)) else []
  }

  lemma QueueHolds(r: Ring)
    requires Inv(r)
    ensures forall c :: c in Queue(r) ==> c.Holds?
  {
    forall i | 0 <= i < |Queue(r)| ensures Queue(r)[i].Holds? {
      assert Queue(r)[i] == At(Unbounded, r.bits, r.slots, ReadPos(r) + i);
    }
  }

  /** The slot the producer writes is none of those the consumer has still to release. */
  lemma NoOverlap(r: Ring, j: nat, i: nat)
    requires Shaped(r) && Bounded(r) && r.producer.Reserved? && j < r.producer.len && r.head <= i < r.tail
    ensures r.producer.idx + j == Index(Unbounded, r.tail + j, r.bits) != Index(Unbounded, i, r.bits)
  {
    SlotInRange(r.tail, j, r.bits);
    SlotsDiffer(i, r.tail + j, r.bits);
  }

  // ----- One step -----

  /** What a step does to the queue: commits are appended, what is taken or dropped was first. */
  ghost predicate Refines(r: Ring, step: Step)
    requires Inv(r) && Enabled(Unbounded, r, step)
  {
    var r' := Exec(Unbounded, r, step);
    && Inv(r')
    && Balanced(Queue(r), Committed(r, step), Taken(Unbounded, r, step), Dropped(Unbounded, r, step), Queue(r'))
  }

  /** Queue and new commits are what was taken, then what was dropped, then the rest. */
  predicate Balanced(before: seq<Cell>, committed: seq<Cell>, taken: seq<Cell>, dropped: seq<Cell>, after: seq<Cell>) {
    before + committed == taken + dropped + after
  }

  lemma Appends(q: seq<Cell>, cs: seq<Cell>)
    ensures Balanced(q, cs, [], [], q + cs) && Balanced(q, [], [], [], q)
  {}

  lemma Removes(cs: seq<Cell>, q: seq<Cell>)
    ensures Balanced(cs + q, [], cs, [], q)
  {}

  lemma SameCells(bits: nat, slots: seq<Cell>, slots': seq<Cell>, from: nat, n: nat)
    requires |slots| == Pow2(bits) == |slots'|
    requires forall i :: from <= i < from + n ==> At(Unbounded, bits, slots, i) == At(Unbounded, bits, slots', i)
    ensures Cells(Unbounded, bits, slots, from, n) == Cells(Unbounded, bits, slots', from, n)
  {
    forall i | 0 <= i < n ensures Cells(Unbounded, bits, slots, from, n)[i]
      == Cells(Unbounded, bits, slots', from, n)[i] {
      assert At(Unbounded, bits, slots, from + i) == At(Unbounded, bits, slots', from + i);
    }
  }

  lemma CellsSplit(bits: nat, slots: seq<Cell>, from: nat, m: nat, n: nat)
    requires |slots| == Pow2(bits)
    ensures Cells(Unbounded, bits, slots, from, m + n) == Cells(Unbounded, bits, slots, from, m)
      + Cells(Unbounded, bits, slots, from + m, n)
  {
    var whole := Cells(Unbounded, bits, slots, from, m + n);
    var parts := Cells(Unbounded, bits, slots, from, m) + Cells(Unbounded, bits, slots, from + m, n);
    forall i | 0 <= i < m + n ensures whole[i] == parts[i] {
      if i >= m { assert from + i == (from + m) + (i - m); }
    }
  }

  /** A step that touches neither the slots, nor the tail, nor the reader. */
  lemma SameQueue(r: Ring, r': Ring)
    requires Inv(r) && Shaped(r') && Bounded(r')
    requires r.alive == r'.alive && r.bits == r'.bits && r.slots == r'.slots
    requires ReadPos(r) == ReadPos(r') && r.tail == r'.tail
    ensures Inv(r') && Balanced(Queue(r), [], [], [], Queue(r'))
  {
    Appends(Queue(r), []);
  }

  lemma ReserveBounded(r: Ring, n: nat, head: nat)
    requires Shaped(r) && Bounded(r) && r.cachedHead <= head <= r.head && r.producer == Checked
    ensures Bounded(DoReserve(Unbounded, r, n, head))
  {}

  lemma ReserveRefines(r: Ring, step: Step)
    requires Inv(r) && step.Reserve? && Enabled(Unbounded, r, step)
    ensures Refines(r, step)
  {
    ReserveBounded(r, step.n, step.head);
    SameQueue(r, Exec(Unbounded, r, step));
  }

  lemma WriteRefines(r: Ring, step: Step)
    requires Inv(r) && step.Write? && Enabled(Unbounded, r, step)
    ensures Refines(r, step)
  {
    var r' := Exec(Unbounded, r, step);
    forall i | ReadPos(r) <= i < r.tail ensures At(Unbounded, r.bits, r.slots, i)
      == At(Unbounded, r.bits, r'.slots, i) {
      NoOverlap(r, step.j, i);
    }
    SameCells(r.bits, r.slots, r'.slots, ReadPos(r), r.tail - ReadPos(r));
    Appends(Queue(r), []);
  }

  /** The reserved slots are the ones after the tail. */
  lemma ReservedAt(r: Ring, i: nat)
    requires Shaped(r) && r.producer.Reserved? && i < r.producer.len
      && r.producer.idx == Index(Unbounded, r.tail, r.bits)
    ensures At(Unbounded, r.bits, r.slots, r.tail + i) == r.slots[r.producer.idx + i]
  {
    SlotInRange(r.tail, i, r.bits);
  }

  lemma ReservedCells(r: Ring, n: nat)
    requires Shaped(r) && r.producer.Reserved? && n <= r.producer.len
      && r.producer.idx == Index(Unbounded, r.tail, r.bits)
    ensures Cells(Unbounded, r.bits, r.slots, r.tail, n) == r.slots[r.producer.idx..r.producer.idx + n]
  {
    var cells, part := Cells(Unbounded, r.bits, r.slots, r.tail, n), r.slots[r.producer.idx..r.producer.idx + n];
    forall i | 0 <= i < n ensures cells[i] == part[i] {
      ReservedAt(r, i);
    }
  }

  /** The queue once n reserved slots are published. */
  lemma CommitCells(r: Ring, n: nat)
    requires Shaped(r) && Bounded(r) && r.alive && r.producer.Reserved? && n <= r.producer.len
    ensures Cells(Unbounded, r.bits, r.slots, ReadPos(r), r.tail + n - ReadPos(r)) == Queue(r)
      + r.slots[r.producer.idx..r.producer.idx + n]
  {
    ReservedCells(r, n);
    CellsSplit(r.bits, r.slots, ReadPos(r), r.tail - ReadPos(r), n);
  }

  /** All of a range of cells hold an item when the list of them does. */
  lemma CellsHold(bits: nat, slots: seq<Cell>, from: nat, n: nat, i: nat)
    requires |slots| == Pow2(bits) && from <= i < from + n
    requires forall c :: c in Cells(Unbounded, bits, slots, from, n) ==> c.Holds?
    ensures At(Unbounded, bits, slots, i).Holds?
  {
    assert Cells(Unbounded, bits, slots, from, n)[i - from] in Cells(Unbounded, bits, slots, from, n);
  }

  lemma CommitBounded(r: Ring, n: nat)
    requires Shaped(r) && Bounded(r) && r.producer.Reserved? && n <= r.producer.len
    ensures var r' := r.(tail := r.tail + n, producer := Idle); Shaped(r') && Bounded(r') && ReadPos(r') == ReadPos(r)
  {}

  lemma CommitKeeps(r: Ring, n: nat)
    requires Inv(r) && r.alive && r.producer.Reserved? && n <= r.producer.len
    requires forall c :: c in r.slots[r.producer.idx..r.producer.idx + n] ==> c.Holds?
    ensures var r' := r.(tail := r.tail + n, producer := Idle);
            Inv(r') && Queue(r') == Queue(r) + r.slots[r.producer.idx..r.producer.idx + n]
  {
    CommitBounded(r, n);
    CommitCells(r, n);
    QueueHolds(r);
    forall i | ReadPos(r) <= i < r.tail + n ensures At(Unbounded, r.bits, r.slots, i).Holds? {
      CellsHold(r.bits, r.slots, ReadPos(r), r.tail + n - ReadPos(r), i);
    }
  }

  /** What the step is and hands over. */
  lemma CommitExec(r: Ring, step: Step)
    requires Shaped(r) && step.Commit? && Enabled(Unbounded, r, step)
    ensures Exec(Unbounded, r, step) == r.(tail := r.tail + step.n, producer := Idle)
    ensures Committed(r, step) == r.slots[r.producer.idx..r.producer.idx + step.n]
    ensures Taken(Unbounded, r, step) == [] && Dropped(Unbounded, r, step) == []
  {}

  lemma CommitRefines(r: Ring, step: Step)
    requires Inv(r) && step.Commit? && Enabled(Unbounded, r, step)
    ensures Refines(r, step)
  {
    var r' := r.(tail := r.tail + step.n, producer := Idle);
    var cs := r.slots[r.producer.idx..r.producer.idx + step.n];
    CommitExec(r, step);
    CommitKeeps(r, step.n);
    Appends(Queue(r), cs);
    assert Balanced(Queue(r), cs, [], [], Queue(r'));
  }

  lemma LoadBounded(r: Ring, limit: Limit, tail: nat)
    requires Shaped(r) && Bounded(r) && r.consumer == Resting && r.seenTail <= tail <= r.tail
    ensures var r' := DoLoadTail(Unbounded, r, limit, tail); Bounded(r') && ReadPos(r') == ReadPos(r)
  {}

  lemma PeekBounded(r: Ring, tail: nat)
    requires Shaped(r) && Bounded(r) && r.consumer == Resting && r.seenTail <= tail <= r.tail
    ensures var r' := DoPeek(Unbounded, r, tail); Bounded(r') && ReadPos(r') == ReadPos(r)
  {}

  /** Loads of the tail move nothing. */
  lemma LoadRefines(r: Ring, step: Step)
    requires Inv(r) && Enabled(Unbounded, r, step) && (step.LoadTail? || step.Peek?)
    ensures Refines(r, step)
  {
    if step.LoadTail? { LoadBounded(r, step.limit, step.tail); } else { PeekBounded(r, step.tail); }
    SameQueue(r, Exec(Unbounded, r, step));
  }

  lemma QuietRefines(r: Ring, step: Step)
    requires Inv(r) && Enabled(Unbounded, r, step)
    requires step.Check? || step.Abandon? || step.Finish? || step.Close?
    ensures Refines(r, step)
  {
    SameQueue(r, Exec(Unbounded, r, step));
  }

  /** Moving the first item of the queue out of its slot. */
  lemma ReadCells(bits: nat, slots: seq<Cell>, p: nat, n: nat)
    requires |slots| == Pow2(bits) && 0 < n <= Pow2(bits)
    ensures Cells(Unbounded, bits, slots, p, n)
         == Cells(Unbounded, bits, slots, p, 1)
           + Cells(Unbounded, bits, slots[Index(Unbounded, p, bits) := Empty], p + 1, n - 1)
  {
    var slots' := slots[Index(Unbounded, p, bits) := Empty];
    CellsSplit(bits, slots, p, 1, n - 1);
    forall i | p + 1 <= i < p + n ensures At(Unbounded, bits, slots, i) == At(Unbounded, bits, slots', i) {
      SlotsDiffer(p, i, bits);
    }
    SameCells(bits, slots, slots', p + 1, n - 1);
  }

  lemma ReadRefines(r: Ring, step: Step)
    requires Inv(r) && step.Read? && Enabled(Unbounded, r, step)
    ensures Refines(r, step)
  {
    var r', p := Exec(Unbounded, r, step), r.consumer.pos;
    ReadCells(r.bits, r.slots, p, r.tail - p);
    Removes(Cells(Unbounded, r.bits, r.slots, p, 1), Queue(r'));
    QueueHolds(r);
    forall i | ReadPos(r') <= i < r'.tail ensures At(Unbounded, r'.bits, r'.slots, i).Holds? {
      CellsHold(r.bits, r'.slots, p + 1, r.tail - p - 1, i);
    }
  }

  lemma AdvanceRefines(r: Ring, step: Step)
    requires Inv(r) && step.Advance? && Enabled(Unbounded, r, step)
    ensures Refines(r, step)
  {
    CellsSplit(r.bits, r.slots, r.head, step.n, r.tail - r.head - step.n);
    Removes(Cells(Unbounded, r.bits, r.slots, r.head, step.n), Queue(Exec(Unbounded, r, step)));
  }

  lemma DropRefines(r: Ring)
    requires Inv(r) && Enabled(Unbounded, r, Drop)
    ensures Refines(r, Drop)
  {
    assert Queue(r) + [] == [] + Queue(r) + [];
  }

  lemma StepRefines(r: Ring, step: Step)
    requires Inv(r) && Enabled(Unbounded, r, step)
    ensures Refines(r, step)
  {
    match step
    case Reserve(_, _) => ReserveRefines(r, step);
    case Write(_, _) => WriteRefines(r, step);
    case Commit(_) => CommitRefines(r, step);
    case LoadTail(_, _) => LoadRefines(r, step);
    case Peek(_) => LoadRefines(r, step);
    case Read => ReadRefines(r, step);
    case Advance(_) => AdvanceRefines(r, step);
    case Drop => DropRefines(r);
    case _ => QuietRefines(r, step);
  }

  // ----- Whole runs -----

  lemma Chain(q: seq<Cell>, c: seq<Cell>, t: seq<Cell>, d: seq<Cell>, q1: seq<Cell>,
              c': seq<Cell>, t': seq<Cell>, d': seq<Cell>, q2: seq<Cell>)
    requires Balanced(q, c, t, d, q1) && Balanced(q1, c', t', d', q2) && (d == [] || (t' == [] && d' == []))
    ensures Balanced(q, c + c', t + t', d + d', q2)
  {
    assert q + (c + c') == (q + c) + c';
    assert (t + d + q1) + c' == t + d + (q1 + c');
    if d == [] {
      assert t + [] + (t' + d' + q2) == (t + t') + ([] + d') + q2;
    } else {
      assert t + d + ([] + [] + q2) == (t + []) + (d + []) + q2;
    }
  }

  /** FIFO, exactly once, no uninitialised read: over every run, the slots taken and then the
      slots dropped are the committed ones in order, each initialised, and the rest is still in
      the ring; after a drop nothing is left. */
  lemma {:induction false} RunRefinesFifo(r: Ring, steps: seq<Step>)
    requires Inv(r) && Runs(Unbounded, r, steps)
    ensures Inv(Last(Unbounded, r, steps))
    ensures Balanced(Queue(r), AllCommitted(Unbounded, r, steps), AllTaken(Unbounded, r, steps),
      AllDropped(Unbounded, r, steps), Queue(Last(Unbounded, r, steps)))
    decreases |steps|
  {
    if steps == [] {
      Appends(Queue(r), []);
    } else {
      var r', rest := Exec(Unbounded, r, steps[0]), steps[1..];
      StepRefines(r, steps[0]);
      RunRefinesFifo(r', rest);
      if steps[0].Drop? { assert rest == []; }
      Chain(Queue(r), Committed(r, steps[0]), Taken(Unbounded, r, steps[0]), Dropped(Unbounded, r, steps[0]), Queue(r'),
            AllCommitted(Unbounded, r', rest), AllTaken(Unbounded, r', rest), AllDropped(Unbounded, r', rest),
              Queue(Last(Unbounded, r', rest)));
    }
  }

  // ----- Two reservations are enough for a batch -----

  predicate IsProducerStep(step: Step) {
    step.Check? || step.Reserve? || step.Write? || step.Commit? || step.Abandon?
  }

  /** k more slots are free after the tail, whatever the consumer does, and none is cut off by the
      end of the buffer. */
  predicate Promised(r: Ring, k: nat) {
    0 < k && Index(Unbounded, r.tail, r.bits) == 0 && r.tail + k <= r.cachedHead + Cap(r)
  }

  /** A reservation shorter than asked for ends at the end of the buffer, and the rest is there. */
  lemma ShortReservation(r: Ring, n: nat, head: nat)
    requires Inv(r) && Enabled(Unbounded, r, Reserve(n, head))
    ensures var r' := Exec(Unbounded, r, Reserve(n, head));
            r'.producer.Reserved? && r'.producer.len < n ==>
              Promised(r'.(tail := r.tail + r'.producer.len), n - r'.producer.len)
  {
    var r' := Exec(Unbounded, r, Reserve(n, head));
    if r'.producer.Reserved? && r'.producer.len < n {
      SlotAfterEnd(r.tail, r.bits);
    }
  }

  /** The consumer and `close` cannot take it away. */
  lemma {:induction false} PromiseKept(r: Ring, k: nat, steps: seq<Step>)
    requires Shaped(r) && Runs(Unbounded, r, steps) && Promised(r, k) && forall s :: s in steps ==> !IsProducerStep(s)
    ensures var r' := Last(Unbounded, r, steps); Promised(r', k) && r'.tail == r.tail && r'.producer == r.producer
    decreases |steps|
  {
    if steps != [] {
      assert steps[0] in steps;
      PromiseKept(Exec(Unbounded, r, steps[0]), k, steps[1..]);
    }
  }

  /** So the second reservation gets all of it, whatever head it loads. */
  lemma SecondReservation(r: Ring, k: nat, head: nat)
    requires Inv(r) && Promised(r, k) && Enabled(Unbounded, r, Reserve(k, head))
    ensures Exec(Unbounded, r, Reserve(k, head)).producer == Reserved(0, k)
  {}

  // ----- Peeking and abandoned reservations -----

  /** `readable` shows as many items as lie before the tail it goes by and before the buffer's end,
      none only if that tail is the head; `advance` then takes exactly the first of them. */
  lemma PeekShows(r: Ring, tail: nat, n: nat)
    requires Inv(r) && r.alive && r.family == Peeking && r.consumer == Resting && r.seenTail <= tail <= r.tail
    ensures Enabled(Unbounded, r, Peek(tail))
    ensures var r' := Exec(Unbounded, r, Peek(tail));
            var seen := if r.seenTail == r.head then tail else r.seenTail;
            var len := Min(seen - r.head, Cap(r) - Index(Unbounded, r.head, r.bits));
            && r'.seenTail == seen && (r'.consumer == if seen == r.head then Resting else Viewing(len))
            && (seen > r.head && n <= len ==>
              && Enabled(Unbounded, r', Advance(n)) && n <= |Queue(r)|
              && Taken(Unbounded, r', Advance(n)) == Queue(r)[..n]
              && Queue(Exec(Unbounded, r', Advance(n))) == Queue(r)[n..])
  {
    var r' := Exec(Unbounded, r, Peek(tail));
    StepRefines(r, Peek(tail));
    if r'.consumer.Viewing? && n <= r'.consumer.len {
      var taken, rest := Taken(Unbounded, r', Advance(n)), Queue(Exec(Unbounded, r', Advance(n)));
      StepRefines(r', Advance(n));
      TakesFront(Queue(r'), taken, rest, n);
      assert Queue(r') == Queue(r);
    }
  }

  lemma TakesFront(q: seq<Cell>, taken: seq<Cell>, rest: seq<Cell>, n: nat)
    requires Balanced(q, [], taken, [], rest) && |taken| == n
    ensures n <= |q| && taken == q[..n] && rest == q[n..]
  {
    assert q + [] == q && taken + [] + rest == taken + rest;
  }

  /** A reservation changes the producer's side only. */
  lemma ReserveExec(r: Ring, n: nat, head: nat)
    requires Inv(r) && Enabled(Unbounded, r, Reserve(n, head))
    ensures var r' := Exec(Unbounded, r, Reserve(n, head));
            && r' == r.(cachedHead := r'.cachedHead, producer := r'.producer) && r'.cachedHead <= r.head
            && (r'.producer.Reserved? ==>
              && 0 < n <= Cap(r) && Space(Unbounded, r, r'.cachedHead) >= n
              && r'.producer == MakeReservation(Unbounded, r, n).producer)
  {}

  /** A reservation that is dropped uncommitted leaves nothing behind: the next one gets the same
      slots. */
  lemma AbandonedAgain(r: Ring, n: nat, head: nat)
    requires Inv(r) && Enabled(Unbounded, r, Reserve(n, head)) && (r.kind == Heap || !r.closed)
    requires Exec(Unbounded, r, Reserve(n, head)).producer.Reserved?
    ensures var r1 := Exec(Unbounded, r, Reserve(n, head));
            && Enabled(Unbounded, r1, Abandon)
            && var r2 := Exec(Unbounded, r1, Abandon);
            && r2 == r.(cachedHead := r1.cachedHead, producer := Idle) && Enabled(Unbounded, r2, Check)
            && var r3 := Exec(Unbounded, r2, Check);
            && Enabled(Unbounded, r3, Reserve(n, r3.head))
            && Exec(Unbounded, r3, Reserve(n, r3.head)).producer == r1.producer
  {
    ReserveExec(r, n, head);
  }
}
