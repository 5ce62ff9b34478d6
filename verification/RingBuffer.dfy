/** The ring's operations as the code runs them: in place on a buffer and 64-bit counters.
    A method's `loaded` argument is what its load of the other side's counter returned. */
module RingBuffer {
  import opened Words
  import opened RingRun
  import opened RingWrap

  /** Slots from a wrapping counter on. */
  function Span(bits: nat, slots: seq<Cell>, from: nat, n: nat): (cs: seq<Cell>)
    requires |slots| == Pow2(bits)
    ensures |cs| == n
  {
    Cells(Wrapping, bits, slots, from, n)
  }

  function Mask(bits: nat, x: nat): (i: nat)
    ensures i < Pow2(bits)
  {
    Index(Wrapping, x, bits)
  }

  lemma SpanSplit(bits: nat, slots: seq<Cell>, from: Word, m: nat, n: nat)
    requires bits <= 63 && |slots| == Pow2(bits)
    ensures Span(bits, slots, from, m + n) == Span(bits, slots, from, m) + Span(bits, slots, WrapAdd(from, m), n)
  {
    forall i | 0 <= i < n ensures WrapAdd(from, m + i) == WrapAdd(WrapAdd(from, m), i) { AddTwice(from, m, i); }
  }

  /** Changing a slot outside a span. */
  lemma SpanUpdate(bits: nat, slots: seq<Cell>, from: Word, n: nat, i: nat, c: Cell)
    requires |slots| == Pow2(bits) && i < |slots|
    requires forall j :: 0 <= j < n ==> Mask(bits, WrapAdd(from, j)) != i
    ensures Span(bits, slots[i := c], from, n) == Span(bits, slots, from, n)
  {
    var a, b := Span(bits, slots[i := c], from, n), Span(bits, slots, from, n);
    forall j | 0 <= j < n ensures a[j] == b[j] {
      assert Mask(bits, WrapAdd(from, j)) != i;
    }
  }

  /** Moving the first item of a span out leaves the others. */
  lemma MoveOut(bits: nat, slots: seq<Cell>, from: Word, n: nat)
    requires bits <= 63 && |slots| == Pow2(bits) && 0 < n <= Pow2(bits)
    ensures var i := Mask(bits, from);
            Span(bits, slots, from, n) == [slots[i]] + Span(bits, slots[i := Empty], WrapAdd(from, 1), n - 1)
  {
    SpanSplit(bits, slots, from, 1, n - 1);
    SpanOne(bits, slots, from);
    forall j | 0 <= j < n - 1 ensures Mask(bits, WrapAdd(WrapAdd(from, 1), j)) != Mask(bits, from) {
      Later(bits, from, j);
    }
    SpanUpdate(bits, slots, WrapAdd(from, 1), n - 1, Mask(bits, from), Empty);
  }

  lemma SpanOne(bits: nat, slots: seq<Cell>, from: Word)
    requires |slots| == Pow2(bits)
    ensures Span(bits, slots, from, 1) == [slots[Mask(bits, from)]]
  {
    assert WrapAdd(from, 0) == from;
  }

  lemma Later(bits: nat, from: Word, j: nat)
    requires bits <= 63 && 1 + j < Pow2(bits)
    ensures Mask(bits, WrapAdd(WrapAdd(from, 1), j)) != Mask(bits, from)
  {
    Elsewhere(bits, from, 0, 1 + j);
    AddTwice(from, 1, j);
    AddZero(from);
  }

  lemma Elsewhere(bits: nat, from: Word, i: nat, j: nat)
    requires bits <= 63 && i < j < i + Pow2(bits)
    ensures Mask(bits, WrapAdd(from, i)) != Mask(bits, WrapAdd(from, j))
  {
    IndexAgrees(from + i, bits);
    IndexAgrees(from + j, bits);
    SlotsDiffer(from + i, from + j, bits);
  }

  lemma Reach(from: Word, to: Word, k: nat)
    requires k <= WrapSub(to, from)
    ensures WrapAdd(from, k) == to <==> k == WrapSub(to, from)
    ensures WrapAdd(WrapAdd(from, k), 1) == WrapAdd(from, k + 1)
  {
    SubCases(to, from);
    AddCases(from, k);
    AddTwice(from, k, 1);
  }

  lemma Remaining(from: Word, to: Word, k: nat)
    requires k <= WrapSub(to, from)
    ensures WrapSub(to, WrapAdd(from, k)) == WrapSub(to, from) - k
  {
    SubCases(to, from);
    AddCases(from, k);
    SubCases(to, WrapAdd(from, k));
  }

  ghost predicate AllHold(cs: seq<Cell>) { forall c :: c in cs ==> c.Holds? }

  datatype Reservation = NoRoom | Slots(idx: nat, len: nat)

  /** Writing the slot after a span of m. */
  lemma WriteNext(bits: nat, slots: seq<Cell>, from: Word, m: nat, c: Cell)
    requires bits <= 63 && |slots| == Pow2(bits) && m < Pow2(bits)
    ensures Span(bits, slots[Mask(bits, WrapAdd(from, m)) := c], from, m + 1) == Span(bits, slots, from, m) + [c]
  {
    var i := Mask(bits, WrapAdd(from, m));
    SpanSplit(bits, slots[i := c], from, m, 1);
    SpanOne(bits, slots[i := c], WrapAdd(from, m));
    forall j | 0 <= j < m ensures Mask(bits, WrapAdd(from, j)) != i {
      Elsewhere(bits, from, j, m);
    }
    SpanUpdate(bits, slots, from, m, i, c);
  }

  lemma HeldSnoc(start: seq<Cell>, items: seq<Item>, j: nat)
    requires j < |items|
    ensures start + Held(items[..j + 1]) == (start + Held(items[..j])) + [Holds(items[j])]
  {
    assert Held(items[..j + 1]) == Held(items[..j]) + [Holds(items[j])];
  }

  lemma AfterTail(head: Word, tail: Word, j: nat)
    ensures WrapAdd(head, WrapSub(tail, head) + j) == WrapAdd(tail, j)
  {}

  lemma MaskNext(bits: nat, tail: Word, j: nat)
    requires bits <= 63 && Mask(bits, tail) + j < Pow2(bits)
    ensures Mask(bits, WrapAdd(tail, j)) == Mask(bits, tail) + j
  {
    assert tail % LIMIT == tail;
    IndexAgrees(tail + j, bits);
    IndexAgrees(tail, bits);
    SlotInRange(tail, j, bits);
  }

  /** A reservation that reaches the end of the buffer is followed by one from its start. */
  lemma MaskWraps(bits: nat, tail: Word)
    requires bits <= 63
    ensures Mask(bits, WrapAdd(tail, Pow2(bits) - Mask(bits, tail))) == 0
  {
    MaskOfWord(bits, tail);
    SlotAfterEnd(tail, bits);
    IndexAgrees(tail + (Pow2(bits) - Low(tail, bits)), bits);
  }

  lemma MaskOfWord(bits: nat, x: Word)
    requires bits <= 63
    ensures Mask(bits, x) == Low(x, bits)
  {
    assert x % LIMIT == x;
    IndexAgrees(x, bits);
  }

  lemma HeldConcat(start: seq<Cell>, items: seq<Item>, m: nat, n: nat)
    requires m + n <= |items|
    ensures start + Held(items[..m]) + Held(items[m..][..n]) == start + Held(items[..m + n])
  {
    assert Held(items[..m]) + Held(items[m..][..n]) == Held(items[..m + n]);
  }

  /** A contiguous view from the head is the first part of the contents. */
  lemma ViewIsSpan(bits: nat, slots: seq<Cell>, head: Word, n: nat, all: nat)
    requires bits <= 63 && |slots| == Pow2(bits) && Mask(bits, head) + n <= Pow2(bits) && n <= all
    ensures slots[Mask(bits, head)..Mask(bits, head) + n] == Span(bits, slots, head, all)[..n]
  {
    var view, span := slots[Mask(bits, head)..Mask(bits, head) + n], Span(bits, slots, head, all)[..n];
    forall j | 0 <= j < n ensures view[j] == span[j] {
      MaskNext(bits, head, j);
    }
  }

  /** One more round: what was there and was sent is what was taken and is left. */
  lemma HeldMore(was: seq<Cell>, items: seq<Item>, m: nat, n: nat, taken: seq<Item>, more: seq<Item>, rest: seq<Cell>)
    requires m + n <= |items|
    ensures forall mid: seq<Cell> ::
      was + Held(items[..m]) == Held(taken) + mid && mid + Held(items[m..][..n]) == Held(more) + rest ==>
              was + Held(items[..m + n]) == Held(taken + more) + rest
  {
    HeldConcat(was, items, m, n);
    assert Held(taken + more) == Held(taken) + Held(more);
    forall mid: seq<Cell> | was + Held(items[..m]) == Held(taken) + mid
      && mid + Held(items[m..][..n]) == Held(more) + rest
      ensures was + Held(items[..m + n]) == Held(taken + more) + rest
    {
      assert was + Held(items[..m]) + Held(items[m..][..n]) == Held(taken) + (mid + Held(items[m..][..n]));
    }
  }

  /** Reserved slot j is the slot j places after the tail. */
  lemma ReservedSlot(bits: nat, head: Word, tail: Word, j: nat)
    requires bits <= 63 && Mask(bits, tail) + j < Pow2(bits)
    ensures Mask(bits, WrapAdd(head, WrapSub(tail, head) + j)) == Mask(bits, tail) + j
  {
    AfterTail(head, tail, j);
    MaskNext(bits, tail, j);
  }

  lemma HeadFollows(cachedHead: Word, loaded: Word, head: Word, tail: Word, cap: nat)
    requires WrapSub(head, cachedHead) + WrapSub(tail, head) <= cap < LIMIT
      && Between(Wrapping, cachedHead, loaded, head)
    ensures WrapSub(head, loaded) + WrapSub(tail, head) <= cap
    ensures WrapSub(tail, cachedHead) == WrapSub(head, cachedHead) + WrapSub(tail, head)
    ensures WrapSub(tail, loaded) == WrapSub(head, loaded) + WrapSub(tail, head)
  {
    SubCases(head, cachedHead);
    SubCases(tail, head);
    SubCases(loaded, cachedHead);
    SubCases(head, loaded);
    SubCases(tail, cachedHead);
    SubCases(tail, loaded);
  }

  lemma TailMoves(cachedHead: Word, head: Word, tail: Word, n: nat, cap: nat)
    requires WrapSub(head, cachedHead) + WrapSub(tail, head) <= cap < LIMIT && WrapSub(tail, cachedHead) + n <= cap
    ensures WrapSub(WrapAdd(tail, n), head) == WrapSub(tail, head) + n
    ensures WrapSub(WrapAdd(tail, n), cachedHead) == WrapSub(tail, cachedHead) + n
    ensures WrapSub(head, cachedHead) + WrapSub(WrapAdd(tail, n), head) <= cap
  {
    SubCases(head, cachedHead);
    SubCases(tail, head);
    SubCases(tail, cachedHead);
    AddCases(tail, n);
    SubCases(WrapAdd(tail, n), head);
    SubCases(WrapAdd(tail, n), cachedHead);
  }

  class SharedRing {
    const bits: nat
    const buffer: array<Cell>
    var tail: Word
    var cachedHead: Word
    var head: Word
    var cachedTail: Word
    var closed: bool

    ghost predicate Shape()
      reads this
    {
      && bits <= 63 && buffer.Length == Pow2(bits) < LIMIT
      && WrapSub(head, cachedHead) + WrapSub(tail, head) <= Pow2(bits)
    }

    /** The committed slots not yet consumed. */
    ghost function Contents(): (cs: seq<Cell>)
      requires Shape()
      reads this, buffer
    {
      Span(bits, buffer[..], head, WrapSub(tail, head))
    }

    ghost predicate Valid()
      reads this, buffer
    {
      Shape() && AllHold(Contents())
    }

    constructor (bits: nat)
      requires bits <= 63
      ensures Valid() && this.bits == bits && Contents() == [] && !closed
      ensures tail == cachedHead == head == cachedTail == 0
    {
      CapBelowLimit(bits);
      this.bits := bits;
      buffer := new Cell[Pow2(bits)](_ => Empty);
      tail, cachedHead, head, cachedTail, closed := 0, 0, 0, 0, false;
    }

    /** Reading one slot out: `assume_init_read`. */
    method TakeAt(pos: Word, ghost n: nat) returns (item: Item)
      requires bits <= 63 && buffer.Length == Pow2(bits) && 0 < n <= Pow2(bits)
      requires AllHold(Span(bits, buffer[..], pos, n))
      modifies buffer
      ensures old(Span(bits, buffer[..], pos, n)) == [Holds(item)] + Span(bits, buffer[..], WrapAdd(pos, 1), n - 1)
    {
      var i := Mask(bits, pos);
      MoveOut(bits, buffer[..], pos, n);
      assert Span(bits, buffer[..], pos, n)[0] in Span(bits, buffer[..], pos, n);
      item := buffer[i].item;
      ghost var was := buffer[..];
      buffer[i] := Empty;
      assert buffer[..] == was[i := Empty];
    }

    /** Inside a consume loop: `taken` has been read out of what the ring held, `pos` is next. */
    ghost predicate Taking(start: seq<Cell>, taken: seq<Item>, pos: Word)
      requires Shape()
      reads this, buffer
    {
      && |taken| <= |start| == WrapSub(tail, head) && pos == WrapAdd(head, |taken|)
      && start == Held(taken) + Span(bits, buffer[..], pos, |start| - |taken|)
    }

    /** The body of a consume loop. */
    method TakeNext(ghost start: seq<Cell>, taken: seq<Item>, pos: Word) returns (taken': seq<Item>, pos': Word)
      requires Shape() && Taking(start, taken, pos) && AllHold(start) && |taken| < |start|
      modifies buffer
      ensures Taking(start, taken', pos') && |taken'| == |taken| + 1
    {
      forall c | c in Span(bits, buffer[..], pos, |start| - |taken|) ensures c.Holds? { assert c in start; }
      Reach(head, tail, |taken|);
      var item := TakeAt(pos, |start| - |taken|);
      assert Held(taken + [item]) == Held(taken) + [Holds(item)];
      taken' := taken + [item];
      pos' := WrapAdd(pos, 1);
    }

    /** The body of a loop that runs until `pos` is `end`, the position `avail` items on. */
    method TakeToward(ghost start: seq<Cell>, taken: seq<Item>, pos: Word, ghost end: Word, ghost avail: nat)
      returns (taken': seq<Item>, pos': Word)
      requires Shape() && Taking(start, taken, pos) && AllHold(start) && |taken| < avail <= |start|
      requires end == WrapAdd(head, avail)
      modifies buffer
      ensures Taking(start, taken', pos') && |taken'| == |taken| + 1
      ensures pos' == end <==> |taken'| == avail
    {
      taken', pos' := TakeNext(start, taken, pos);
      SamePlace(head, |taken'|, avail);
    }

    /** The store of the head after a consume loop. */
    method Publish(ghost start: seq<Cell>, ghost taken: seq<Item>, pos: Word)
      requires Shape() && Taking(start, taken, pos) && AllHold(start)
      modifies this`head
      ensures Valid() && head == pos && start == Held(taken) + Contents()
    {
      Remaining(head, tail, |taken|);
      HeadMoves(cachedHead, head, tail, |taken|, Pow2(bits));
      head := pos;
      forall c | c in Contents() ensures c.Holds? { assert c in start; }
    }

    /** The loop `while pos != end`. */
    method TakeUntil(end: Word, ghost avail: nat) returns (taken: seq<Item>)
      requires Valid() && avail <= |Contents()| && end == WrapAdd(head, avail)
      modifies buffer
      ensures Taking(old(Contents()), taken, end) && |taken| == avail
    {
      ghost var start := Contents();
      var pos := head;
      taken := [];
      Begin(head, tail);
      SamePlace(head, 0, avail);
      while pos != end
        invariant Taking(start, taken, pos) && |taken| <= avail && (pos == end <==> |taken| == avail)
        decreases avail - |taken|
      {
        taken, pos := TakeToward(start, taken, pos, end, avail);
      }
    }

    /** `consume_batch`: every item up to the loaded tail, in order, then one store of the head. */
    method ConsumeBatch(loaded: Word) returns (taken: seq<Item>)
      requires Valid() && Between(Wrapping, head, loaded, tail)
      modifies this`head, buffer
      ensures Valid() && |taken| == WrapSub(loaded, old(head))
      ensures old(Contents()) == Held(taken) + Contents()
    {
      ghost var start, avail := Contents(), WrapSub(loaded, head);
      Begin(head, loaded);
      taken := TakeUntil(loaded, avail);
      Publish(start, taken, loaded);
    }

    /** `consume_up_to`: at most `max` of the items up to the loaded tail, counted. */
    method ConsumeUpTo(max: nat, loaded: Word) returns (taken: seq<Item>)
      requires Valid() && Between(Wrapping, head, loaded, tail)
      modifies this`head, buffer
      ensures Valid() && |taken| == Min(max, WrapSub(loaded, old(head)))
      ensures old(Contents()) == Held(taken) + Contents()
    {
      taken := [];
      assert Held(taken) + Contents() == Contents();
      if max == 0 { return; }
      var avail := WrapSub(loaded, head);
      if avail == 0 { return; }
      ghost var start := Contents();
      var toConsume := Min(avail, max);
      var pos, count := head, 0;
      Begin(head, tail);
      while count < toConsume
        invariant Shape() && Taking(start, taken, pos) && count == |taken| <= toConsume
      {
        taken, pos := TakeNext(start, taken, pos);
        count := count + 1;
      }
      Publish(start, taken, WrapAdd(head, count));
    }

    /** `StackRing::consume_up_to`: the loop runs to the end position instead. */
    method ConsumeToEnd(max: nat, loaded: Word) returns (taken: seq<Item>)
      requires Valid() && Between(Wrapping, head, loaded, tail)
      modifies this`head, buffer
      ensures Valid() && |taken| == Min(max, WrapSub(loaded, old(head)))
      ensures old(Contents()) == Held(taken) + Contents()
    {
      taken := [];
      assert Held(taken) + Contents() == Contents();
      var avail := WrapSub(loaded, head);
      if avail == 0 { return; }
      ghost var start := Contents();
      var toConsume := Min(avail, max);
      var end := WrapAdd(head, toConsume);
      taken := TakeUntil(end, toConsume);
      Publish(start, taken, end);
    }

    /** What `reserve` takes as free when the consumer's head is `h`. */
    function Room(h: Word): (n: nat)
      reads this
    {
      var used := WrapSub(tail, h);
      if used < Pow2(bits) then Pow2(bits) - used else 0
    }

    /** `reserve`: the cached head first, then the loaded one. */
    method Reserve(n: nat, loaded: Word) returns (got: Reservation)
      requires Shape() && Between(Wrapping, cachedHead, loaded, head)
      modifies this`cachedHead
      ensures Shape() && Between(Wrapping, cachedHead, loaded, head)
      ensures got.Slots? <==> 0 < n <= Pow2(bits) && (old(Room(cachedHead)) >= n || Room(loaded) >= n)
      ensures got.Slots? ==> got.idx == Mask(bits, tail) && got.len == Min(n, Pow2(bits) - got.idx)
      ensures got.Slots? ==> WrapSub(tail, cachedHead) + n <= Pow2(bits) && WrapSub(tail, head) + n <= Pow2(bits)
      ensures got.NoRoom? && 0 < n <= Pow2(bits) ==> cachedHead == loaded && Room(cachedHead) < n
      ensures old(Room(cachedHead)) >= n ==> cachedHead == old(cachedHead)
    {
      if n == 0 || n > Pow2(bits) { return NoRoom; }
      HeadFollows(cachedHead, loaded, head, tail, Pow2(bits));
      if Room(cachedHead) < n {
        cachedHead := loaded;
        if Room(loaded) < n { return NoRoom; }
      }
      got := Slots(Mask(bits, tail), Min(n, Pow2(bits) - Mask(bits, tail)));
    }

    /** Writing the items into the reserved slots, which are the ones after the tail. */
    method Fill(idx: nat, items: seq<Item>)
      requires Shape() && idx == Mask(bits, tail) && idx + |items| <= Pow2(bits)
      requires WrapSub(tail, head) + |items| <= Pow2(bits)
      modifies buffer
      ensures Span(bits, buffer[..], head, WrapSub(tail, head) + |items|) == old(Contents()) + Held(items)
    {
      ghost var start := Contents();
      ghost var n := WrapSub(tail, head);
      assert start + Held(items[..0]) == start;
      for j := 0 to |items|
        invariant Span(bits, buffer[..], head, n + j) == start + Held(items[..j])
      {
        ReservedSlot(bits, head, tail, j);
        ghost var was := buffer[..];
        WriteNext(bits, was, head, n + j, Holds(items[j]));
        buffer[idx + j] := Holds(items[j]);
        assert buffer[..] == was[idx + j := Holds(items[j])];
        HeldSnoc(start, items, j);
      }
      assert items[..|items|] == items;
    }

    /** `commit_internal`. */
    method Commit(n: nat)
      requires Shape() && WrapSub(tail, cachedHead) + n <= Pow2(bits)
      modifies this`tail
      ensures Shape() && tail == WrapAdd(old(tail), n) && WrapSub(tail, head) == old(WrapSub(tail, head)) + n
      ensures WrapSub(tail, cachedHead) == old(WrapSub(tail, cachedHead)) + n
    {
      TailMoves(cachedHead, head, tail, n, Pow2(bits));
      tail := WrapAdd(tail, n);
    }

    /** One reservation, written and committed. */
    method WriteAndCommit(idx: nat, items: seq<Item>)
      requires Valid() && idx == Mask(bits, tail) && idx + |items| <= Pow2(bits)
      requires WrapSub(tail, cachedHead) + |items| <= Pow2(bits)
      modifies this`tail, buffer
      ensures Valid() && tail == WrapAdd(old(tail), |items|)
      ensures Contents() == old(Contents()) + Held(items)
      ensures WrapSub(tail, cachedHead) == old(WrapSub(tail, cachedHead)) + |items|
    {
      HeadFollows(cachedHead, cachedHead, head, tail, Pow2(bits));
      Fill(idx, items);
      Commit(|items|);
    }

    /** `Ring::push`. */
    method Push(item: Item, loaded: Word) returns (ok: bool)
      requires Valid() && Between(Wrapping, cachedHead, loaded, head)
      modifies this`tail, this`cachedHead, buffer
      ensures Valid() && ok == (old(Room(cachedHead)) >= 1 || old(Room(loaded)) >= 1)
      ensures Contents() == old(Contents()) + (if ok then [Holds(item)] else [])
      ensures !ok ==> tail == old(tail) && cachedHead == loaded && WrapSub(tail, cachedHead) == Pow2(bits)
      ensures old(Room(cachedHead)) >= 1 ==> WrapSub(tail, cachedHead) == old(WrapSub(tail, cachedHead)) + 1
    {
      HeadFollows(cachedHead, loaded, head, tail, Pow2(bits));
      var got := Reserve(1, loaded);
      ok := got.Slots?;
      if ok {
        WriteAndCommit(got.idx, [item]);
        assert Held([item]) == [Holds(item)];
      } else {
        assert Contents() + [] == Contents();
      }
    }

    /** Whether `reserve(n)` succeeds when its load of the head returns `loaded`. */
    predicate HasRoom(n: nat, loaded: Word)
      reads this
    {
      0 < n <= Pow2(bits) && (Room(cachedHead) >= n || Room(loaded) >= n)
    }

    /** The granted part of the items is written and committed. */
    method SendInto(idx: nat, items: seq<Item>, n: nat)
      requires Valid() && idx == Mask(bits, tail) && n == Min(|items|, Pow2(bits) - idx)
      requires WrapSub(tail, cachedHead) + |items| <= Pow2(bits) && WrapSub(tail, head) + |items| <= Pow2(bits)
      modifies this`tail, buffer
      ensures Valid() && Contents() == old(Contents()) + Held(items[..n])
      ensures n < |items| ==> Mask(bits, tail) == 0 && Room(cachedHead) >= |items| - n
    {
      MaskWraps(bits, tail);
      WriteAndCommit(idx, items[..n]);
    }

    /** `Ring::send`: one reservation, so the items after the end of the buffer are not sent; what
        is left then fits at its start. */
    method Send(items: seq<Item>, loaded: Word) returns (n: nat)
      requires Valid() && Between(Wrapping, cachedHead, loaded, head)
      modifies this`tail, this`cachedHead, buffer
      ensures Valid() && Between(Wrapping, cachedHead, loaded, head)
      ensures n <= |items| && Contents() == old(Contents()) + Held(items[..n])
      ensures n == if old(HasRoom(|items|, loaded)) then Min(|items|, Pow2(bits) - Mask(bits, old(tail))) else 0
      ensures 0 < n < |items| ==> Mask(bits, tail) == 0 && Room(cachedHead) >= |items| - n
    {
      ghost var before := Contents();
      var got := Reserve(|items|, loaded);
      assert Contents() == before && got.Slots? == old(HasRoom(|items|, loaded));
      if !got.Slots? {
        assert before + Held(items[..0]) == before;
        return 0;
      }
      n := got.len;
      SendInto(got.idx, items, n);
    }

    /** After the first reservation of `SendAll`. */
    ghost predicate Midway(k: nat, sent: nat, reservations: nat)
      reads this
    {
      && 1 <= reservations <= 2 && 0 < sent <= k
      && (sent < k ==> reservations == 1 && Mask(bits, tail) == 0 && k - sent <= Room(cachedHead) <= Pow2(bits))
    }

    /** The consumer runs for a while: some of the items are taken. */
    method ConsumerRuns() returns (taken: seq<Item>)
      requires Valid()
      modifies this`head, buffer
      ensures Valid() && old(Contents()) == Held(taken) + Contents()
    {
      var max: nat := *;
      Begin(head, tail);
      taken := ConsumeUpTo(max, tail);
    }

    /** One round of the loop of `SendAll`, and then the consumer. */
    method SendRound(items: seq<Item>, loaded: Word) returns (n: nat, taken: seq<Item>)
      requires Valid() && Between(Wrapping, cachedHead, loaded, head)
      modifies this`tail, this`cachedHead, this`head, buffer
      ensures Valid() && n <= |items| && old(Contents()) + Held(items[..n]) == Held(taken) + Contents()
      ensures n == if old(HasRoom(|items|, loaded)) then Min(|items|, Pow2(bits) - Mask(bits, old(tail))) else 0
      ensures 0 < n < |items| ==> Mask(bits, tail) == 0 && |items| - n <= Room(cachedHead) <= Pow2(bits)
    {
      n := Send(items, loaded);
      taken := ConsumerRuns();
    }

    /** `StackProducer::send` on a ring whose `closed` flag does not change meanwhile, with the consumer
        taking items between its rounds: it sends all items, in at most two reservations, or none. */
    method SendAll(items: seq<Item>, loaded: Word) returns (sent: nat, reservations: nat, taken: seq<Item>)
      requires Valid() && Between(Wrapping, cachedHead, loaded, head)
      modifies this`tail, this`cachedHead, this`head, buffer
      ensures Valid() && old(Contents()) + (if sent == 0 then [] else Held(items)) == Held(taken) + Contents()
      ensures sent == if !closed && old(HasRoom(|items|, loaded)) then |items| else 0
      ensures reservations <= 2
    {
      sent, reservations, taken := 0, 0, [];
      ghost var was := Contents();
      assert was + Held(items[..0]) == was == Held([]) + was;
      if closed || items == [] { return; }
      var n;
      n, taken := SendRound(items, loaded);
      if n == 0 { return; }
      sent, reservations := n, 1;
      while sent < |items|
        invariant Valid() && Midway(|items|, sent, reservations)
        invariant was + Held(items[..sent]) == Held(taken) + Contents()
      {
        var more;
        n, more := SendRound(items[sent..], head);
        HeldMore(was, items, sent, n, taken, more, Contents());
        sent, reservations, taken := sent + n, reservations + 1, taken + more;
      }
      assert items[..|items|] == items;
    }

    /** `readable`: the cached tail first, then the loaded one. It shows a prefix of the contents
        unless the cached tail is behind the head, which `consume_*` calls on the same ring
        leave behind, and the buffer's end does not cut the view short either. */
    method Readable(loaded: Word) returns (view: seq<Cell>)
      requires Valid() && Between(Wrapping, head, loaded, tail)
      modifies this`cachedTail
      ensures |view| <= |Contents()| <==>
        WrapSub(old(cachedTail), head) <= |Contents()| || Pow2(bits) - Mask(bits, head) <= |Contents()|
      ensures |view| <= |Contents()| ==> view == Contents()[..|view|]
      ensures WrapSub(old(cachedTail), head) <= |Contents()| ==> WrapSub(cachedTail, head) <= |Contents()|
      ensures view == [] ==> loaded == head
      ensures cachedTail == if old(cachedTail) == head then loaded else old(cachedTail)
      ensures |view| == Min(WrapSub(cachedTail, head), Pow2(bits) - Mask(bits, head))
    {
      var avail := WrapSub(cachedTail, head);
      Begin(head, cachedTail);
      if avail == 0 {
        cachedTail := loaded;
        avail := WrapSub(cachedTail, head);
        Begin(head, loaded);
        if avail == 0 { return []; }
      }
      var idx := Mask(bits, head);
      var contiguous := Min(avail, Pow2(bits) - idx);
      view := buffer[idx..idx + contiguous];
      if contiguous <= WrapSub(tail, head) { ViewIsSpan(bits, buffer[..], head, contiguous, WrapSub(tail, head)); }
    }

    /** `advance` after reading n of the shown items. */
    method Advance(n: nat)
      requires Valid() && n <= WrapSub(cachedTail, head) <= |Contents()|
      modifies this`head
      ensures Valid() && Contents() == old(Contents())[n..] && WrapSub(cachedTail, head) <= |Contents()|
    {
      ghost var start := Contents();
      SpanSplit(bits, buffer[..], head, n, WrapSub(tail, head) - n);
      Remaining(head, tail, n);
      Remaining(head, cachedTail, n);
      HeadMoves(cachedHead, head, tail, n, Pow2(bits));
      head := WrapAdd(head, n);
      assert Contents() == start[n..];
      forall c | c in Contents() ensures c.Holds? { assert c in start; }
    }

    /** Dropping the ring: every item still in it is dropped, each once, and no other slot is. */
    method Drop() returns (dropped: seq<Item>)
      requires Valid()
      modifies buffer
      ensures old(Contents()) == Held(dropped)
    {
      ghost var start := Contents();
      var count := WrapSub(tail, head);
      dropped := [];
      ghost var pos := head;
      Begin(head, tail);
      for i := 0 to count
        invariant Shape() && Taking(start, dropped, pos) && |dropped| == i
      {
        var next;
        dropped, next := TakeNext(start, dropped, WrapAdd(head, i));
        pos := next;
      }
      assert Held(dropped) + [] == Held(dropped);
    }
  }

  lemma Begin(head: Word, end: Word)
    ensures WrapAdd(head, 0) == head
    ensures WrapSub(end, head) == 0 <==> end == head
    ensures WrapAdd(head, WrapSub(end, head)) == end
  {}

  lemma SamePlace(head: Word, k: nat, n: nat)
    requires k <= n < LIMIT
    ensures WrapAdd(head, k) == WrapAdd(head, n) <==> k == n
  {}

  lemma HeadMoves(cachedHead: Word, head: Word, tail: Word, k: nat, cap: nat)
    requires WrapSub(head, cachedHead) + WrapSub(tail, head) <= cap < LIMIT && k <= WrapSub(tail, head)
    ensures WrapSub(WrapAdd(head, k), cachedHead) + WrapSub(tail, WrapAdd(head, k)) <= cap
  {
    SubCases(head, cachedHead);
    SubCases(tail, head);
    AddCases(head, k);
    SubCases(WrapAdd(head, k), cachedHead);
    SubCases(tail, WrapAdd(head, k));
  }

  /** A push into an empty ring followed by `consume_batch`. */
  method PassOne(ring: SharedRing, item: Item)
    requires ring.Valid() && ring.bits >= 2 && ring.head == ring.tail < 8
    modifies ring`tail, ring`cachedHead, ring`head, ring.buffer
    ensures ring.Valid() && ring.head == ring.tail == old(ring.head) + 1
  {
    SmallerPow2(1, ring.bits);
    SubCases(ring.tail, ring.head);
    Begin(ring.cachedHead, ring.head);
    var ok := ring.Push(item, ring.head);
    assert ok && WrapSub(ring.tail, ring.head) == |ring.Contents()| == 1;
    Begin(ring.head, ring.tail);
    var _ := ring.ConsumeBatch(ring.tail);
  }

  /** Mixing the two consumer interfaces on one ring: one push and `consume_batch` leave the cached
      tail behind the head, and the next `readable` shows slots of an empty ring. */
  method MixedConsumers(ring: SharedRing, item: Item) returns (view: seq<Cell>)
    requires ring.Valid() && ring.bits >= 2 && ring.head == ring.tail == ring.cachedHead == ring.cachedTail == 0
    modifies ring, ring.buffer
    ensures ring.Valid() && ring.Contents() == [] && view != []
  {
    PassOne(ring, item);
    view := ring.Readable(ring.tail);
  }
}
