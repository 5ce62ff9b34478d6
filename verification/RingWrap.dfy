/** The ring of 64-bit wrapping counters does what the ring of unbounded counters does. */
module RingWrap {
  import opened Words
  import opened RingRun
  import opened RingProof

  function WrapConsumer(c: Consumer): (w: Consumer) {
    if c.Reading? then Reading(c.pos % LIMIT, c.end % LIMIT) else c
  }

  /** The 64-bit ring that an unbounded ring stands for. */
  function Wrap(r: Ring): (w: Ring) {
    r.(tail := r.tail % LIMIT, cachedHead := r.cachedHead % LIMIT, head := r.head % LIMIT,
       seenTail := r.seenTail % LIMIT, consumer := WrapConsumer(r.consumer))
  }

  lemma {:induction false} SmallerPow2(a: nat, b: nat)
    requires a < b
    ensures 2 * Pow2(a) <= Pow2(b)
  {
    if a + 1 < b { SmallerPow2(a, b - 1); }
  }

  lemma CapBelowLimit(bits: nat)
    requires bits <= 63
    ensures 2 * Pow2(bits) <= LIMIT
  {
    LimitIsPow2(64);
    SmallerPow2(bits, 64);
  }

  /** The counter value behind a loaded word. */
  function Unwrap(lo: nat, x: nat): (v: nat) { lo + WrapSub(x, lo % LIMIT) }

  lemma UnwrapLoad(lo: nat, x: nat, hi: nat)
    requires lo <= hi < lo + LIMIT && Between(Wrapping, lo % LIMIT, x, hi % LIMIT)
    ensures var v := Unwrap(lo, x); lo <= v <= hi && v % LIMIT == x
  {
    WrappedSub(hi, lo);
  }

  /** The step of the unbounded ring that a step of the 64-bit ring stands for. */
  function Lift(r: Ring, step: Step): (s: Step) {
    match step
    case Reserve(n, head) => Reserve(n, Unwrap(r.cachedHead, head))
    case LoadTail(limit, tail) => LoadTail(limit, Unwrap(r.seenTail, tail))
    case Peek(tail) => Peek(Unwrap(r.seenTail, tail))
    case _ => step
  }

  lemma IndexAgrees(x: nat, bits: nat)
    requires bits <= 63
    ensures Index(Wrapping, x % LIMIT, bits) == Index(Unbounded, x, bits)
  {
    WrappedIndex(x, bits);
  }

  lemma SameWord(x: nat, y: nat)
    requires x <= y < x + LIMIT
    ensures x % LIMIT == y % LIMIT <==> x == y
  {
    WrappedSub(y, x);
  }

  lemma CellsAgree(bits: nat, slots: seq<Cell>, from: nat, n: nat)
    requires bits <= 63 && |slots| == Pow2(bits) && n < LIMIT
    ensures Cells(Wrapping, bits, slots, from % LIMIT, n) == Cells(Unbounded, bits, slots, from, n)
  {
    forall i | 0 <= i < n ensures Cells(Wrapping, bits, slots, from % LIMIT, n)[i]
      == Cells(Unbounded, bits, slots, from, n)[i] {
      WrappedAdd(from, i);
      IndexAgrees(from + i, bits);
    }
  }

  /** A step of the 64-bit ring is the same step of the unbounded ring: enabled there too, the
      same new state up to wrapping, the same slots handed over. */
  ghost predicate Agrees(r: Ring, step: Step)
    requires Inv(r) && Enabled(Wrapping, Wrap(r), step)
  {
    var up := Lift(r, step);
    && Enabled(Unbounded, r, up)
    && Exec(Wrapping, Wrap(r), step) == Wrap(Exec(Unbounded, r, up))
    && Taken(Wrapping, Wrap(r), step) == Taken(Unbounded, r, up)
    && Dropped(Wrapping, Wrap(r), step) == Dropped(Unbounded, r, up)
    && Committed(Wrap(r), step) == Committed(r, up)
  }

  lemma SpaceAgrees(r: Ring, head: nat)
    requires head <= r.tail < head + LIMIT
    ensures Space(Wrapping, Wrap(r), head % LIMIT) == Space(Unbounded, r, head)
  {
    WrappedSub(r.tail, head);
  }

  lemma ReservationAgrees(r: Ring, n: nat)
    requires Shaped(r) && r.bits <= 63
    ensures MakeReservation(Wrapping, Wrap(r), n) == Wrap(MakeReservation(Unbounded, r, n))
  {
    IndexAgrees(r.tail, r.bits);
  }

  lemma DoReserveAgrees(r: Ring, n: nat, v: nat)
    requires Shaped(r) && Bounded(r) && r.cachedHead <= v <= r.head
    ensures DoReserve(Wrapping, Wrap(r), n, v % LIMIT) == Wrap(DoReserve(Unbounded, r, n, v))
  {
    CapBelowLimit(r.bits);
    if n == 0 || n > Cap(r) { return; }
    SpaceAgrees(r, r.cachedHead);
    if Space(Unbounded, r, r.cachedHead) >= n {
      ReservationAgrees(r, n);
    } else {
      SpaceAgrees(r, v);
      ReservationAgrees(r.(cachedHead := v), n);
    }
  }

  lemma ReserveAgrees(r: Ring, step: Step)
    requires Inv(r) && step.Reserve? && Enabled(Wrapping, Wrap(r), step)
    ensures Agrees(r, step)
  {
    CapBelowLimit(r.bits);
    UnwrapLoad(r.cachedHead, step.head, r.head);
    DoReserveAgrees(r, step.n, Unwrap(r.cachedHead, step.head));
  }

  lemma DoLoadAgrees(r: Ring, limit: Limit, v: nat)
    requires Shaped(r) && Bounded(r) && r.consumer == Resting && r.seenTail <= v <= r.tail
    ensures DoLoadTail(Wrapping, Wrap(r), limit, v % LIMIT) == Wrap(DoLoadTail(Unbounded, r, limit, v))
  {
    CapBelowLimit(r.bits);
    WrappedSub(v, r.head);
    if limit.UpTo? { WrappedAdd(r.head, Min(v - r.head, limit.max)); }
  }

  lemma LoadAgrees(r: Ring, step: Step)
    requires Inv(r) && step.LoadTail? && Enabled(Wrapping, Wrap(r), step)
    ensures Agrees(r, step)
  {
    CapBelowLimit(r.bits);
    UnwrapLoad(r.seenTail, step.tail, r.tail);
    DoLoadAgrees(r, step.limit, Unwrap(r.seenTail, step.tail));
  }

  lemma DoPeekAgrees(r: Ring, v: nat)
    requires Shaped(r) && Bounded(r) && r.consumer == Resting && r.seenTail <= v <= r.tail
    ensures DoPeek(Wrapping, Wrap(r), v % LIMIT) == Wrap(DoPeek(Unbounded, r, v))
  {
    CapBelowLimit(r.bits);
    WrappedSub(v, r.head);
    WrappedSub(r.seenTail, r.head);
    IndexAgrees(r.head, r.bits);
  }

  lemma PeekAgrees(r: Ring, step: Step)
    requires Inv(r) && step.Peek? && Enabled(Wrapping, Wrap(r), step)
    ensures Agrees(r, step)
  {
    CapBelowLimit(r.bits);
    UnwrapLoad(r.seenTail, step.tail, r.tail);
    DoPeekAgrees(r, Unwrap(r.seenTail, step.tail));
  }

  lemma ReadAgrees(r: Ring, step: Step)
    requires Inv(r) && step.Read? && Enabled(Wrapping, Wrap(r), step)
    ensures Agrees(r, step)
  {
    CapBelowLimit(r.bits);
    IndexAgrees(r.consumer.pos, r.bits);
    WrappedAdd(r.consumer.pos, 1);
    CellsAgree(r.bits, r.slots, r.consumer.pos, 1);
  }

  lemma FinishAgrees(r: Ring, step: Step)
    requires Inv(r) && step.Finish? && Enabled(Wrapping, Wrap(r), step)
    ensures Agrees(r, step)
  {
    CapBelowLimit(r.bits);
    SameWord(r.consumer.pos, r.consumer.end);
  }

  lemma CommitAgrees(r: Ring, step: Step)
    requires Inv(r) && step.Commit? && Enabled(Wrapping, Wrap(r), step)
    ensures Agrees(r, step)
  {
    CapBelowLimit(r.bits);
    WrappedAdd(r.tail, step.n);
  }

  lemma AdvanceAgrees(r: Ring, step: Step)
    requires Inv(r) && step.Advance? && Enabled(Wrapping, Wrap(r), step)
    ensures Agrees(r, step)
  {
    CapBelowLimit(r.bits);
    WrappedAdd(r.head, step.n);
    CellsAgree(r.bits, r.slots, r.head, step.n);
  }

  lemma DropAgrees(r: Ring)
    requires Inv(r) && Enabled(Wrapping, Wrap(r), Drop)
    ensures Agrees(r, Drop)
  {
    CapBelowLimit(r.bits);
    WrappedSub(r.tail, r.head);
    CellsAgree(r.bits, r.slots, r.head, r.tail - r.head);
  }

  lemma StepAgrees(r: Ring, step: Step)
    requires Inv(r) && Enabled(Wrapping, Wrap(r), step)
    ensures Agrees(r, step)
  {
    match step
    case Reserve(_, _) => ReserveAgrees(r, step);
    case LoadTail(_, _) => LoadAgrees(r, step);
    case Peek(_) => PeekAgrees(r, step);
    case Read => ReadAgrees(r, step);
    case Finish => FinishAgrees(r, step);
    case Commit(_) => CommitAgrees(r, step);
    case Advance(_) => AdvanceAgrees(r, step);
    case Drop => DropAgrees(r);
    case _ =>
  }

  /** The steps of the unbounded ring for a run of the 64-bit ring. */
  ghost function LiftAll(r: Ring, steps: seq<Step>): (up: seq<Step>)
    requires Inv(r) && Runs(Wrapping, Wrap(r), steps)
    decreases |steps|
  {
    if steps == [] then []
    else
      StepAgrees(r, steps[0]);
      StepRefines(r, Lift(r, steps[0]));
      [Lift(r, steps[0])] + LiftAll(Exec(Unbounded, r, Lift(r, steps[0])), steps[1..])
  }

  /** Wrap-around is invisible: every run of the 64-bit ring is a run of the unbounded ring with
      the same commits, the same items taken and the same items dropped. */
  lemma {:induction false} WrapAroundInvisible(r: Ring, steps: seq<Step>)
    requires Inv(r) && Runs(Wrapping, Wrap(r), steps)
    ensures var up := LiftAll(r, steps);
            && Runs(Unbounded, r, up)
            && Last(Wrapping, Wrap(r), steps) == Wrap(Last(Unbounded, r, up))
            && AllCommitted(Wrapping, Wrap(r), steps) == AllCommitted(Unbounded, r, up)
            && AllTaken(Wrapping, Wrap(r), steps) == AllTaken(Unbounded, r, up)
            && AllDropped(Wrapping, Wrap(r), steps) == AllDropped(Unbounded, r, up)
    decreases |steps|
  {
    if steps != [] {
      StepAgrees(r, steps[0]);
      StepRefines(r, Lift(r, steps[0]));
      var r' := Exec(Unbounded, r, Lift(r, steps[0]));
      WrapAroundInvisible(r', steps[1..]);
      assert LiftAll(r, steps)[1..] == LiftAll(r', steps[1..]);
    }
  }

  lemma FreshInv(bits: nat, kind: Kind, family: Family, start: nat)
    requires bits <= 63
    ensures Inv(Fresh(bits, kind, family, start)) && Queue(Fresh(bits, kind, family, start)) == []
  {}

  /** Every run of a ring of 64-bit counters, from any starting counter, heap or stack: nothing
      uninitialised is read or dropped; what is taken is what was committed, in order; and once
      the ring is dropped each committed item has been taken once or dropped once. */
  lemma RingIsFifo(bits: nat, kind: Kind, family: Family, start: Word, steps: seq<Step>)
    requires bits <= 63
    requires Runs(Wrapping, Fresh(bits, kind, family, start), steps)
    ensures var r := Fresh(bits, kind, family, start);
            var committed, taken, dropped := AllCommitted(Wrapping, r, steps), AllTaken(Wrapping, r, steps),
              AllDropped(Wrapping, r, steps);
            && taken + dropped <= committed
            && (forall c :: c in committed ==> c.Holds?)
            && (!Last(Wrapping, r, steps).alive ==> taken + dropped == committed)
  {
    var r := Fresh(bits, kind, family, start);
    FreshInv(bits, kind, family, start);
    assert Wrap(r) == r;
    WrapAroundInvisible(r, steps);
    RunRefinesFifo(r, LiftAll(r, steps));
    CommittedHolds(Wrapping, r, steps);
    var up := LiftAll(r, steps);
    assert [] + AllCommitted(Unbounded, r, up) == AllCommitted(Unbounded, r, up);
  }

  lemma {:induction false} CommittedHolds(a: Arith, r: Ring, steps: seq<Step>)
    requires Shaped(r) && Runs(a, r, steps)
    ensures forall c :: c in AllCommitted(a, r, steps) ==> c.Holds?
    decreases |steps|
  {
    if steps != [] { CommittedHolds(a, Exec(a, r, steps[0]), steps[1..]); }
  }

  /** cached_head <= head <= tail <= cached_head + capacity on wrapping counters, with the open
      reservation inside the same bound. */
  predicate Near(w: Ring) {
    && WrapSub(w.head, w.cachedHead) + WrapSub(w.tail, w.head) <= Cap(w)
    && WrapSub(w.seenTail, w.head) <= WrapSub(w.tail, w.head)
    && (w.producer.Reserved? ==> WrapSub(w.tail, w.cachedHead) + w.producer.len <= Cap(w))
  }

  /** No slot open for writing is one from the head to the tail. */
  ghost predicate Disjoint(w: Ring)
    requires Shaped(w)
  {
    w.producer.Reserved? ==>
      forall i :: 0 <= i < WrapSub(w.tail, w.head) ==>
        var slot := Index(Wrapping, WrapAdd(w.head, i), w.bits);
        !(w.producer.idx <= slot < w.producer.idx + w.producer.len)
  }

  lemma WrapNear(r: Ring)
    requires Shaped(r) && Bounded(r)
    ensures Near(Wrap(r))
  {
    Distances(r);
  }

  lemma SlotNotReserved(r: Ring, i: nat)
    requires Shaped(r) && Bounded(r) && r.producer.Reserved? && i < r.tail - r.head
    ensures var slot := Index(Wrapping, WrapAdd(r.head % LIMIT, i), r.bits);
            !(r.producer.idx <= slot < r.producer.idx + r.producer.len)
  {
    CapBelowLimit(r.bits);
    WrappedAdd(r.head, i);
    IndexAgrees(r.head + i, r.bits);
    var slot := Index(Unbounded, r.head + i, r.bits);
    if r.producer.idx <= slot < r.producer.idx + r.producer.len {
      NoOverlap(r, slot - r.producer.idx, r.head + i);
    }
  }

  lemma WrapDisjoint(r: Ring)
    requires Shaped(r) && Bounded(r)
    ensures Disjoint(Wrap(r))
  {
    Distances(r);
    if r.producer.Reserved? {
      forall i | 0 <= i < r.tail - r.head
        ensures var slot := Index(Wrapping, WrapAdd(r.head % LIMIT, i), r.bits);
                !(r.producer.idx <= slot < r.producer.idx + r.producer.len)
      {
        SlotNotReserved(r, i);
      }
    }
  }

  /** At every point of every run of the 64-bit ring, its counters stay within a capacity of each
      other and the slots being written are not those being read. */
  lemma CountersStayNear(bits: nat, kind: Kind, family: Family, start: Word, steps: seq<Step>)
    requires bits <= 63 && Runs(Wrapping, Fresh(bits, kind, family, start), steps)
    ensures var w := Last(Wrapping, Fresh(bits, kind, family, start), steps); Near(w) && Disjoint(w)
  {
    var r := Fresh(bits, kind, family, start);
    FreshInv(bits, kind, family, start);
    assert Wrap(r) == r;
    WrapAroundInvisible(r, steps);
    RunRefinesFifo(r, LiftAll(r, steps));
    WrapNear(Last(Unbounded, r, LiftAll(r, steps)));
    WrapDisjoint(Last(Unbounded, r, LiftAll(r, steps)));
  }

  lemma Distances(r: Ring)
    requires Shaped(r) && Bounded(r)
    ensures WrapSub(r.head % LIMIT, r.cachedHead % LIMIT) == r.head - r.cachedHead
    ensures WrapSub(r.tail % LIMIT, r.head % LIMIT) == r.tail - r.head
    ensures WrapSub(r.seenTail % LIMIT, r.head % LIMIT) == r.seenTail - r.head
    ensures WrapSub(r.tail % LIMIT, r.cachedHead % LIMIT) == r.tail - r.cachedHead
  {
    CapBelowLimit(r.bits);
    WrappedSub(r.head, r.cachedHead);
    WrappedSub(r.tail, r.head);
    WrappedSub(r.seenTail, r.head);
    WrappedSub(r.tail, r.cachedHead);
  }

  /** Once a stack ring is closed and no reservation is open, nothing is committed any more. */
  lemma {:induction false} NothingAfterClose(a: Arith, r: Ring, steps: seq<Step>)
    requires Shaped(r) && Runs(a, r, steps) && r.kind == Stack && r.closed && r.producer == Idle
    ensures AllCommitted(a, r, steps) == []
    decreases |steps|
  {
    if steps != [] { NothingAfterClose(a, Exec(a, r, steps[0]), steps[1..]); }
  }

  lemma {:induction false} SplitRun(a: Arith, r: Ring, front: seq<Step>, back: seq<Step>)
    requires Shaped(r) && Runs(a, r, front + back)
    ensures Runs(a, r, front) && Runs(a, Last(a, r, front), back)
    decreases |front|
  {
    if front == [] {
      assert front + back == back;
    } else {
      assert (front + back)[1..] == front[1..] + back;
      SplitRun(a, Exec(a, r, front[0]), front[1..], back);
    }
  }

  lemma JoinCells(x: seq<Cell>, y: seq<Cell>, z: seq<Cell>)
    ensures x + (y + z) == (x + y) + z
  {}

  lemma {:induction false} SplitCommitted(a: Arith, r: Ring, front: seq<Step>, back: seq<Step>)
    requires Shaped(r) && Runs(a, r, front + back) && Runs(a, r, front) && Runs(a, Last(a, r, front), back)
    ensures AllCommitted(a, r, front + back) == AllCommitted(a, r, front) + AllCommitted(a, Last(a, r, front), back)
    decreases |front|
  {
    if front == [] {
      assert front + back == back;
    } else {
      var r' := Exec(a, r, front[0]);
      assert (front + back)[1..] == front[1..] + back;
      SplitCommitted(a, r', front[1..], back);
      JoinCells(Committed(r, front[0]), AllCommitted(a, r', front[1..]),
        AllCommitted(a, Last(a, r', front[1..]), back));
    }
  }

  /** Closing is final: whatever steps follow it, the ring is closed, and a stack ring that had no
      reservation open has accepted all it ever will. */
  lemma CloseIsFinal(a: Arith, r: Ring, front: seq<Step>, back: seq<Step>)
    requires Shaped(r) && Runs(a, r, front + ([Close] + back))
    ensures Runs(a, r, front) && Last(a, r, front + ([Close] + back)).closed
    ensures r.kind == Stack && Last(a, r, front).producer == Idle ==>
              AllCommitted(a, r, front + ([Close] + back)) == AllCommitted(a, r, front)
  {
    SplitRun(a, r, front, [Close] + back);
    var r1 := Last(a, r, front);
    var r2 := Exec(a, r1, Close);
    assert ([Close] + back)[1..] == back;
    LastSplit(a, r, front, [Close] + back);
    SplitCommitted(a, r, front, [Close] + back);
    StaysClosed(a, r2, back);
    SameKindRun(a, r, front);
    if r.kind == Stack && r1.producer == Idle { NothingAfterClose(a, r2, back); }
  }

  lemma {:induction false} LastSplit(a: Arith, r: Ring, front: seq<Step>, back: seq<Step>)
    requires Shaped(r) && Runs(a, r, front + back) && Runs(a, r, front) && Runs(a, Last(a, r, front), back)
    ensures Last(a, r, front + back) == Last(a, Last(a, r, front), back)
    decreases |front|
  {
    if front == [] {
      assert front + back == back;
    } else {
      assert (front + back)[1..] == front[1..] + back;
      LastSplit(a, Exec(a, r, front[0]), front[1..], back);
    }
  }

  lemma {:induction false} StaysClosed(a: Arith, r: Ring, steps: seq<Step>)
    requires Shaped(r) && Runs(a, r, steps) && r.closed
    ensures Last(a, r, steps).closed
    decreases |steps|
  {
    if steps != [] { StaysClosed(a, Exec(a, r, steps[0]), steps[1..]); }
  }

  lemma {:induction false} SameKindRun(a: Arith, r: Ring, steps: seq<Step>)
    requires Shaped(r) && Runs(a, r, steps)
    ensures Last(a, r, steps).kind == r.kind && (Close !in steps ==> Last(a, r, steps).closed == r.closed)
    decreases |steps|
  {
    if steps != [] { SameKindRun(a, Exec(a, r, steps[0]), steps[1..]); }
  }

  // ----- What a closed ring still accepts -----

  /** Neither consumer nor drop: the steps of the producer, and closing. */
  predicate NoConsumer(steps: seq<Step>) { forall s :: s in steps ==> IsProducerStep(s) || s.Close? }

  /** A full ring accepts nothing while the consumer rests. */
  ghost predicate Full(r: Ring) {
    Inv(r) && r.tail == r.head + Cap(r) && (r.producer == Idle || r.producer == Checked)
  }

  lemma FullStays(r: Ring, step: Step)
    requires Full(r) && Enabled(Unbounded, r, step) && (IsProducerStep(step) || step.Close?)
    ensures Full(Exec(Unbounded, r, step)) && Committed(r, step) == []
  {
    StepRefines(r, step);
  }

  lemma {:induction false} FullAcceptsNothing(r: Ring, steps: seq<Step>)
    requires Full(r) && Runs(Unbounded, r, steps) && NoConsumer(steps)
    ensures AllCommitted(Unbounded, r, steps) == []
    decreases |steps|
  {
    if steps != [] {
      assert steps[0] in steps;
      FullStays(r, steps[0]);
      FullAcceptsNothing(Exec(Unbounded, r, steps[0]), steps[1..]);
    }
  }

  lemma {:induction false} LiftNoConsumer(r: Ring, steps: seq<Step>)
    requires Inv(r) && Runs(Wrapping, Wrap(r), steps) && NoConsumer(steps)
    ensures NoConsumer(LiftAll(r, steps))
    decreases |steps|
  {
    if steps != [] {
      assert steps[0] in steps;
      StepAgrees(r, steps[0]);
      StepRefines(r, Lift(r, steps[0]));
      LiftNoConsumer(Exec(Unbounded, r, Lift(r, steps[0])), steps[1..]);
    }
  }

  /** The four steps of one push on 64-bit counters, with a load that returns the newest head. */
  lemma PushRuns(r: Ring, item: Item) returns (steps: seq<Step>)
    requires Inv(r) && r.alive && r.kind == Heap && r.producer == Idle && r.tail < r.head + Cap(r)
    ensures Runs(Wrapping, Wrap(r), steps) && NoConsumer(steps)
      && AllCommitted(Wrapping, Wrap(r), steps) == [Holds(item)]
  {
    var w := Wrap(r);
    var reserve := Reserve(1, w.head);
    CapBelowLimit(r.bits);
    UnwrapHead(r);
    var r1 := Exec(Unbounded, r, Check);
    StepRefines(r, Check);
    DoReserveAgrees(r1, 1, r.head);
    var w1 := Exec(Wrapping, w, Check);
    var rest := [Write(0, item)] + ([RingRun.Commit(1)] + []);
    CommitOne(Wrapping, Exec(Wrapping, w1, reserve), item);
    Prepend(Wrapping, w1, reserve, rest);
    Prepend(Wrapping, w, Check, [reserve] + rest);
    steps := [Check] + ([reserve] + rest);
  }

  lemma UnwrapHead(r: Ring)
    requires Inv(r)
    ensures Between(Wrapping, Wrap(r).cachedHead, Wrap(r).head, Wrap(r).head)
  {}

  /** Exactly what `close` prevents: a closed ring with no reservation open can still take an item
      while the consumer rests if and only if it is a heap ring and has room. */
  lemma ClosedAcceptsIff(r: Ring, item: Item)
    requires Inv(r) && r.alive && r.closed && r.producer == Idle
    ensures (exists steps ::
      Runs(Wrapping, Wrap(r), steps) && NoConsumer(steps) && AllCommitted(Wrapping, Wrap(r), steps) != [])
            <==> r.kind == Heap && WrapSub(Wrap(r).tail, Wrap(r).head) < Cap(r)
  {
    Distances(r);
    if r.kind == Heap && r.tail < r.head + Cap(r) {
      var steps := PushRuns(r, item);
    } else {
      forall steps | Runs(Wrapping, Wrap(r), steps) && NoConsumer(steps)
        ensures AllCommitted(Wrapping, Wrap(r), steps) == [] {
        if r.kind == Stack {
          NothingAfterClose(Wrapping, Wrap(r), steps);
        } else {
          WrapAroundInvisible(r, steps);
          LiftNoConsumer(r, steps);
          FullAcceptsNothing(r, LiftAll(r, steps));
        }
      }
    }
  }

  lemma Prepend(a: Arith, r: Ring, step: Step, rest: seq<Step>)
    requires Shaped(r) && Enabled(a, r, step) && Runs(a, Exec(a, r, step), rest)
    ensures Runs(a, r, [step] + rest)
    ensures AllCommitted(a, r, [step] + rest) == Committed(r, step) + AllCommitted(a, Exec(a, r, step), rest)
  {
    assert ([step] + rest)[1..] == rest;
  }

  lemma CommitOne(a: Arith, r: Ring, item: Item)
    requires Shaped(r) && r.alive && r.producer.Reserved? && r.producer.len == 1
    ensures var steps := [Write(0, item)] + ([RingRun.Commit(1)] + []);
            Runs(a, r, steps) && AllCommitted(a, r, steps) == [Holds(item)]
  {
    var r' := Exec(a, r, Write(0, item));
    assert r'.slots[r.producer.idx..r.producer.idx + 1] == [Holds(item)];
    Prepend(a, r', RingRun.Commit(1), []);
    Prepend(a, r, Write(0, item), [RingRun.Commit(1)] + []);
  }

  /** A ring that nobody uses can be dropped, and drops exactly what was committed and not taken. */
  lemma DropsTheRest(r: Ring)
    requires Inv(r) && r.alive && r.producer == Idle && r.consumer == Resting
    ensures Enabled(Wrapping, Wrap(r), Drop) && Dropped(Wrapping, Wrap(r), Drop) == Queue(r)
  {
    StepAgrees(r, Drop);
  }
}
