/** One ring of the channel: the 64-bit ring, the unbounded one it stands for, and the queue of
    items that both are. Each atomic step is a step of the queue. */
module ChannelRing {
  import opened Words
  import opened RingRun
  import opened RingProof
  import opened RingWrap

  /** Ring `w` holds what its producer committed in its whole life, `items`, less the first `head`
      of them; the consumer's last load of the tail showed `seen` items. */
  ghost predicate RingOk(w: Ring, r: Ring, items: seq<Item>, head: nat, seen: nat) {
    && Inv(r) && w == Wrap(r) && r.alive && r.family == Consuming && r.kind == Heap
    && r.tail == |items| && ReadPos(r) == head && r.seenTail == seen && head <= |items|
    && Queue(r) == Held(items[head..])
  }

  function ItemsOf(cs: seq<Cell>): (items: seq<Item>)
    requires forall c :: c in cs ==> c.Holds?
    ensures Held(items) == cs
  {
    var items := seq(|cs|, i requires 0 <= i < |cs| => cs[i].item);
    assert forall i :: 0 <= i < |cs| ==> cs[i] in cs && Held(items)[i] == cs[i];
    items
  }

  /** The steps taken on a ring that is alive and consumed with `consume_*`. */
  predicate Usual(step: Step) { !step.Drop? && !step.Peek? && !step.Advance? }

  function NewItems(w: Ring, step: Step): (items: seq<Item>)
    requires Shaped(w) && Enabled(Wrapping, w, step)
    ensures Held(items) == Committed(w, step)
  {
    ItemsOf(Committed(w, step))
  }

  lemma HeldSplit(q: seq<Item>, items: seq<Item>, taken: seq<Cell>, rest: seq<Cell>, n: nat)
    requires Held(q) + Held(items) == taken + rest && |taken| == n <= |q + items|
    ensures taken == Held((q + items)[..n]) && rest == Held((q + items)[n..])
  {
    var all := q + items;
    assert Held(all) == Held(q) + Held(items);
    assert taken == Held(all)[..n] && rest == Held(all)[n..];
  }

  /** A step of the ring is a step of the queue. */
  lemma QueueStep(r: Ring, items: seq<Item>, head: nat, step: Step, more: seq<Item>)
    requires Inv(r) && r.alive && Enabled(Unbounded, r, step) && Usual(step) && Committed(r, step) == Held(more)
    requires r.tail == |items| && ReadPos(r) == head <= |items| && Queue(r) == Held(items[head..])
    ensures var r' := Exec(Unbounded, r, step);
            && Inv(r') && r'.alive && r'.tail == |items + more| && head <= ReadPos(r') <= |items + more|
            && Queue(r') == Held((items + more)[ReadPos(r')..])
            && Taken(Unbounded, r, step) == Held((items + more)[head..ReadPos(r')])
  {
    var r' := Exec(Unbounded, r, step);
    StepRefines(r, step);
    TakenCount(r, step);
    QueueMoves(items, more, head, Taken(Unbounded, r, step), Queue(r'));
  }

  lemma QueueMoves(items: seq<Item>, more: seq<Item>, head: nat, taken: seq<Cell>, rest: seq<Cell>)
    requires head <= |items| && Balanced(Held(items[head..]), Held(more), taken, [], rest)
    ensures var all, n := items + more, head + |taken|;
            n <= |all| && taken == Held(all[head..n]) && rest == Held(all[n..])
  {
    var all, n := items + more, |taken|;
    assert taken + [] + rest == taken + rest;
    HeldSplit(items[head..], more, taken, rest, n);
    assert items[head..] + more == all[head..];
    assert all[head..][..n] == all[head..head + n] && all[head..][n..] == all[head + n..];
  }

  lemma TakenCount(r: Ring, step: Step)
    requires Inv(r) && Enabled(Unbounded, r, step) && Usual(step)
    ensures var r' := Exec(Unbounded, r, step);
            && ReadPos(r') == ReadPos(r) + |Taken(Unbounded, r, step)| && Dropped(Unbounded, r, step) == []
            && r'.tail == r.tail + |Committed(r, step)| && r'.alive == r.alive
  {}

  /** The whole step: the two rings stay together and the queue moves. */
  lemma RingStep(w: Ring, r: Ring, items: seq<Item>, head: nat, seen: nat, step: Step)
    requires RingOk(w, r, items, head, seen) && Enabled(Wrapping, w, step) && Usual(step)
    ensures Enabled(Unbounded, r, Lift(r, step))
    ensures var r' := Exec(Unbounded, r, Lift(r, step)); var items' := items + NewItems(w, step);
            && head <= ReadPos(r') <= |items'|
            && RingOk(Exec(Wrapping, w, step), r', items', ReadPos(r'), r'.seenTail)
            && Taken(Wrapping, w, step) == Held(items'[head..ReadPos(r')])
  {
    StepAgrees(r, step);
    QueueStep(r, items, head, Lift(r, step), NewItems(w, step));
    SameKind(r, Lift(r, step));
  }

  lemma SameKind(r: Ring, step: Step)
    requires Shaped(r) && Enabled(Unbounded, r, step)
    ensures var r' := Exec(Unbounded, r, step); r'.family == r.family && r'.kind == r.kind && r'.bits == r.bits
  {}

  /** Producer steps and closing leave the consumer's side alone. */
  lemma ProducerSide(r: Ring, step: Step)
    requires Shaped(r) && Enabled(Unbounded, r, step) && (IsProducerStep(step) || step.Close?)
    ensures var r' := Exec(Unbounded, r, step);
            r'.consumer == r.consumer && ReadPos(r') == ReadPos(r) && r'.seenTail == r.seenTail
  {}

  /** Items that a consuming call has still to read. */
  function Left(r: Ring): (n: nat) {
    if r.consumer.Reading? && r.consumer.pos <= r.consumer.end then r.consumer.end - r.consumer.pos else 0
  }

  /** How many of the available items a call takes. */
  function TakeCount(limit: Limit, avail: nat): (n: nat)
    ensures n <= avail && (limit.UpTo? ==> n <= limit.max) && (n < avail ==> limit == UpTo(n))
  {
    if limit.UpTo? then Min(avail, limit.max) else avail
  }

  /** The load of the tail sets the range that the call reads. */
  lemma LoadSets(r: Ring, limit: Limit, t: nat)
    requires Inv(r) && r.consumer == Resting && r.seenTail <= t <= r.tail && limit != UpTo(0)
    ensures var r' := DoLoadTail(Unbounded, r, limit, t);
            && r'.seenTail == t && Left(r') == TakeCount(limit, t - r.head) && ReadPos(r') == r.head
            && (r'.consumer == Resting || r'.consumer.Reading?) && r'.tail == r.tail
  {}

  /** The loop test on words is the test on what is left. */
  lemma LoopTest(r: Ring)
    requires Inv(r) && r.consumer.Reading?
    ensures Wrap(r).consumer.pos != Wrap(r).consumer.end <==> Left(r) > 0
  {
    CapBelowLimit(r.bits);
    SameWord(r.consumer.pos, r.consumer.end);
  }

  lemma ReadTakes(r: Ring)
    requires Inv(r) && Enabled(Unbounded, r, Read)
    ensures var r' := Exec(Unbounded, r, Read);
            r'.consumer.Reading? && Left(r') == Left(r) - 1 && ReadPos(r') == ReadPos(r) + 1
              && r'.seenTail == r.seenTail
  {}

  lemma FinishRests(r: Ring)
    requires Inv(r) && Enabled(Unbounded, r, Finish)
    ensures var r' := Exec(Unbounded, r, Finish);
            r'.consumer == Resting && ReadPos(r') == ReadPos(r) && r'.seenTail == r.seenTail
  {}

  lemma FreshOk(bits: nat)
    requires bits <= 63
    ensures var r := Fresh(bits, Heap, Consuming, 0); RingOk(r, r, [], 0, 0) && r.consumer == Resting
  {
    FreshInv(bits, Heap, Consuming, 0);
    assert Wrap(Fresh(bits, Heap, Consuming, 0)) == Fresh(bits, Heap, Consuming, 0);
  }
}
