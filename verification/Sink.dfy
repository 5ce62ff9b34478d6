/** The sending half: `try_send`, `send` and the Sink methods around `pending_item`, on the sender's
    own ring. The consumer takes items from that ring between any two calls and before each
    reservation, and a reservation may see an old head. An argument `shutdown` is what the call's
    test of the shutdown state came out as, a result `room` whether its `reserve(1)` succeeded. */
module Sink {
  import opened Words
  import opened RingRun
  import opened RingBuffer

  datatype Kept = Nothing | One(item: Item)

  function Items(k: Kept): (s: seq<Item>) { if k.One? then [k.item] else [] }

  datatype Answer = Pending | Accepted | Closed

  /** What one round of `send` finds. */
  datatype Round = Round(shutdown: bool, closedAfterWait: bool)

  /** The rounds of `send` whose reservations came out as `rooms` end in `a`: on the first that finds
      room, or finds the channel closed, or not yet. */
  ghost predicate Decides(ringClosed: bool, rounds: seq<Round>, rooms: seq<bool>, a: Answer) {
    var n := |rooms|;
    && n <= |rounds| && (forall k :: 0 <= k < n ==> !rounds[k].shutdown && !ringClosed)
    && (forall k :: 0 <= k < n - 1 ==> !rooms[k] && !rounds[k].closedAfterWait)
    && var goesOn := n == 0 || (!rooms[n - 1] && !rounds[n - 1].closedAfterWait);
    match a
    case Accepted => n > 0 && rooms[n - 1]
    case Closed =>
      || (n > 0 && !rooms[n - 1] && rounds[n - 1].closedAfterWait)
      || (goesOn && n < |rounds| && (rounds[n].shutdown || ringClosed))
    case Pending => goesOn && n == |rounds|
  }

  datatype CallKind = Ready | Start(item: Item) | Flush | Close

  /** A call by the user and what it meets. */
  datatype Call = Call(kind: CallKind, shutdown: bool)

  /** Whether the last of `poll_ready` and `start_send` was `poll_ready`. */
  predicate ReadyAfter(calls: seq<Call>) {
    calls != [] &&
    var n := |calls| - 1;
    calls[n].kind.Ready? || (!calls[n].kind.Start? && ReadyAfter(calls[..n]))
  }

  /** The items that a caller gives to `start_send` after `poll_ready`, in order. */
  function Offered(calls: seq<Call>): (items: seq<Item>) {
    if calls == [] then []
    else
      var n := |calls| - 1;
      Offered(calls[..n]) + (if calls[n].kind.Start? && ReadyAfter(calls[..n]) then [calls[n].kind.item] else [])
  }

  /** Nobody closes anything. */
  predicate Calm(calls: seq<Call>) {
    forall k :: 0 <= k < |calls| ==> !calls[k].shutdown && !calls[k].kind.Close?
  }

  lemma OfferedNext(calls: seq<Call>, i: nat)
    requires i < |calls|
    ensures var front := calls[..i];
            && Offered(calls[..i + 1])
               == Offered(front) + (if calls[i].kind.Start? && ReadyAfter(front) then [calls[i].kind.item] else [])
            && ReadyAfter(calls[..i + 1]) == (calls[i].kind.Ready? || (!calls[i].kind.Start? && ReadyAfter(front)))
            && |Offered(calls[..i + 1])| <= |Offered(calls)|
  {
    assert calls[..i + 1][..i] == calls[..i];
    OfferedGrows(calls, i + 1);
  }

  lemma {:induction false} OfferedGrows(calls: seq<Call>, i: nat)
    requires i <= |calls|
    ensures |Offered(calls[..i])| <= |Offered(calls)|
  {
    if i < |calls| {
      var n := |calls| - 1;
      OfferedGrows(calls[..n], i);
      assert calls[..n][..i] == calls[..i];
    } else {
      assert calls[..i] == calls;
    }
  }

  class RingSender {
    const ring: SharedRing
    /** Whether loads of the ring's head return the newest value. */
    const prompt: bool
    var pendingItem: Kept
    /** What this sender has committed to its ring and what was taken out of it, in order. */
    ghost var committed: seq<Item>
    ghost var consumed: seq<Item>
    /** The items taken from the caller with an Ok, in order. */
    ghost var accepted: seq<Item>

    /** The ring holds exactly what was committed and not yet taken. */
    ghost predicate Valid()
      reads this, ring, ring.buffer
    {
      ring.Valid() && Held(committed) == Held(consumed) + ring.Contents()
    }

    /** Nothing accepted is lost, repeated or reordered. */
    ghost predicate InOrder()
      reads this
    {
      committed + Items(pendingItem) == accepted
    }

    /** How many slots are in use by the head that the sender knows. */
    ghost function Used(): (n: nat)
      reads this, ring
    {
      WrapSub(ring.tail, ring.cachedHead)
    }

    /** The head that the sender knows leaves no slot; if it is the newest, the ring is full. */
    ghost predicate SeenFull()
      requires ring.Valid()
      reads this, ring, ring.buffer
    {
      Used() == Pow2(ring.bits) && (prompt ==> |ring.Contents()| == Pow2(ring.bits))
    }

    /** The head that the sender knows leaves a slot. */
    ghost predicate KnowsSlot()
      reads this, ring
    {
      Used() < Pow2(ring.bits)
    }

    constructor (ring: SharedRing, prompt: bool)
      requires ring.Valid() && ring.Contents() == []
      ensures Valid() && InOrder() && accepted == [] && pendingItem == Nothing
      ensures this.ring == ring && this.prompt == prompt
    {
      this.ring, this.prompt := ring, prompt;
      pendingItem, committed, consumed, accepted := Nothing, [], [], [];
    }

    /** The consumer takes some items. */
    method ConsumerRuns()
      requires Valid()
      modifies this`consumed, ring`head, ring.buffer
      ensures Valid()
      ensures exists taken :: consumed == old(consumed) + taken && old(ring.Contents()) == Held(taken) + ring.Contents()
    {
      ghost var before := ring.Contents();
      var taken := ring.ConsumerRuns();
      TakenMore(committed, consumed, taken, before, ring.Contents());
      consumed := consumed + taken;
    }

    /** `reserve(1)`, the write and the commit, if there is room by the cached head or by a head that
        is loaded and may be old. */
    method Put(item: Item) returns (room: bool)
      requires Valid()
      modifies this`consumed, this`committed, ring`tail, ring`cachedHead, ring`head, ring.buffer
      ensures Valid() && committed == old(committed) + (if room then [item] else [])
      ensures (!room ==> SeenFull()) && (old(KnowsSlot()) ==> room && Used() == old(Used()) + 1)
    {
      ConsumerRuns();
      var h := LoadHead();
      room := PutNow(item, h);
    }

    /** A load of the ring's head, which may be old. */
    method LoadHead() returns (h: Word)
      requires ring.Valid()
      ensures Between(Wrapping, ring.cachedHead, h, ring.head) && (prompt ==> h == ring.head)
    {
      var x: int := *;
      h := ring.head;
      if !prompt && 0 <= x < LIMIT && Between(Wrapping, ring.cachedHead, x, ring.head) { h := x; }
    }

    method PutNow(item: Item, h: Word) returns (room: bool)
      requires Valid() && Between(Wrapping, ring.cachedHead, h, ring.head)
      modifies this`committed, ring`tail, ring`cachedHead, ring.buffer
      ensures Valid() && committed == old(committed) + (if room then [item] else [])
      ensures room <==> old(KnowsSlot()) || WrapSub(old(ring.tail), h) < Pow2(ring.bits)
      ensures old(KnowsSlot()) ==> Used() == old(Used()) + 1
      ensures !room ==> ring.cachedHead == h && WrapSub(ring.tail, h) == Pow2(ring.bits) && ring.tail == old(ring.tail)
    {
      ghost var before := ring.Contents();
      room := ring.Push(item, h);
      PutMore(committed, consumed, item, before, ring.Contents(), room);
      committed := committed + (if room then [item] else []);
    }

    /** `try_send`: it goes past a pending item, so order is kept exactly when there is none, or
        the two are the same. */
    method TrySend(item: Item, shutdown: bool) returns (ok: bool, room: bool)
      requires Valid() && InOrder()
      modifies this`consumed, this`committed, this`accepted, ring`tail, ring`cachedHead, ring`head, ring.buffer
      ensures Valid() && (ok <==> !shutdown && !ring.closed && room)
      ensures accepted == old(accepted) + (if ok then [item] else [])
      ensures committed == old(committed) + (if ok then [item] else [])
      ensures InOrder() <==> (ok ==> pendingItem == Nothing || pendingItem == One(item))
      ensures !ok ==> shutdown || ring.closed || SeenFull()
      ensures !shutdown && !ring.closed && old(KnowsSlot()) ==> ok
    {
      ok, room := false, false;
      assert committed + [] == committed && accepted + [] == accepted;
      if shutdown || ring.closed { return; }
      Overtaken(committed, pendingItem, item);
      room := Put(item);
      ok := room;
      if ok { accepted := accepted + [item]; }
    }

    /** Committing the pending item if there is room: the core of `poll_ready` and `poll_flush`. */
    method PushPending() returns (room: bool)
      requires Valid() && InOrder()
      modifies this`consumed, this`committed, this`pendingItem, ring`tail, ring`cachedHead, ring`head, ring.buffer
      ensures Valid() && InOrder() && old(committed) <= committed
      ensures pendingItem == if room then Nothing else old(pendingItem)
      ensures committed + Items(pendingItem) == old(committed) + Items(old(pendingItem))
      ensures pendingItem.One? ==> SeenFull() && !old(KnowsSlot())
      ensures old(pendingItem) == Nothing ==> unchanged(ring, ring.buffer)
    {
      room := false;
      if pendingItem.One? {
        room := Put(pendingItem.item);
        assert committed + [] == committed;
        if room { pendingItem := Nothing; }
      }
    }

    /** `poll_ready`. */
    method PollReady(shutdown: bool) returns (a: Answer)
      requires Valid() && InOrder()
      modifies this`consumed, this`committed, this`pendingItem, ring`tail, ring`cachedHead, ring`head, ring.buffer
      ensures Valid() && InOrder() && old(committed) <= committed
      ensures a == Closed <==> shutdown || ring.closed
      ensures a == Accepted ==> pendingItem == Nothing
      ensures a == Pending ==> pendingItem == old(pendingItem) && pendingItem.One? && SeenFull() && !old(KnowsSlot())
      ensures a == Closed ==> committed == old(committed) && pendingItem == old(pendingItem)
      ensures a == Closed || old(pendingItem) == Nothing ==> unchanged(ring, ring.buffer)
    {
      if shutdown || ring.closed { return Closed; }
      var _ := PushPending();
      a := if pendingItem.One? then Pending else Accepted;
    }

    /** `start_send`. Called with an item pending, as only a caller that skips `poll_ready` can, it
        overtakes or overwrites that item. */
    method StartSend(item: Item, shutdown: bool) returns (ok: bool, room: bool)
      requires Valid() && InOrder()
      modifies this`consumed, this`committed, this`pendingItem, this`accepted, ring`tail, ring`cachedHead, ring`head,
        ring.buffer
      ensures Valid() && (ok <==> !shutdown && !ring.closed)
      ensures accepted == old(accepted) + (if ok then [item] else []) && old(committed) <= committed
      ensures !ok ==> committed == old(committed) && pendingItem == old(pendingItem) && unchanged(ring, ring.buffer)
      ensures InOrder() <==> (ok ==> old(pendingItem) == Nothing || (room && old(pendingItem) == One(item)))
      ensures ok ==> pendingItem == (if room then old(pendingItem) else One(item))
      ensures ok ==> committed == old(committed) + (if room then [item] else [])
      ensures ok && !room ==> SeenFull() && !old(KnowsSlot())
      ensures ok && old(KnowsSlot()) ==> Used() == old(Used()) + 1
    {
      ok, room := !(shutdown || ring.closed), false;
      if !ok {
        assert accepted + [] == accepted;
        return;
      }
      Overtaken(committed, pendingItem, item);
      Overwritten(committed, pendingItem, item);
      room := Put(item);
      assert old(committed) + [] == old(committed);
      if !room { pendingItem := One(item); }
      accepted := accepted + [item];
    }

    /** `poll_flush`: Ok means that nothing is pending and so every accepted item is in the ring. */
    method PollFlush(shutdown: bool) returns (a: Answer)
      requires Valid() && InOrder()
      modifies this`consumed, this`committed, this`pendingItem, ring`tail, ring`cachedHead, ring`head, ring.buffer
      ensures Valid() && InOrder() && old(committed) <= committed
      ensures a == Closed <==> shutdown || ring.closed
      ensures a == Accepted ==> pendingItem == Nothing && committed == accepted
      ensures a == Pending ==> pendingItem == old(pendingItem) && pendingItem.One? && SeenFull() && !old(KnowsSlot())
      ensures a == Closed ==> committed == old(committed) && pendingItem == old(pendingItem)
      ensures a == Closed || old(pendingItem) == Nothing ==> unchanged(ring, ring.buffer)
    {
      if shutdown || ring.closed { return Closed; }
      var _ := PushPending();
      a := if pendingItem.One? then Pending else Accepted;
      if a == Accepted { assert committed + Items(Nothing) == committed; }
    }

    /** `poll_close`: the ring is closed only once every accepted item is in it. */
    method PollClose(shutdown: bool) returns (a: Answer)
      requires Valid() && InOrder()
      modifies this`consumed, this`committed, this`pendingItem, ring, ring.buffer
      ensures Valid() && InOrder() && old(committed) <= committed
      ensures a == Closed <==> shutdown || old(ring.closed)
      ensures a == Accepted ==> ring.closed && pendingItem == Nothing && committed == accepted
      ensures a != Accepted ==> ring.closed == old(ring.closed)
      ensures a == Pending ==> pendingItem == old(pendingItem) && pendingItem.One? && SeenFull() && !old(KnowsSlot())
      ensures a == Closed ==> committed == old(committed) && pendingItem == old(pendingItem)
      ensures a == Closed ==> unchanged(ring, ring.buffer)
    {
      a := PollFlush(shutdown);
      if a == Accepted { ring.closed := true; }
    }

    /** `send`: each round tests the state and the ring again; the item is committed once, on the
        round that finds room, and never after a round that finds the channel closed. The future
        is still pending when the rounds run out. */
    method Send(item: Item, rounds: seq<Round>) returns (a: Answer, rooms: seq<bool>)
      requires Valid() && InOrder()
      modifies this`consumed, this`committed, this`accepted, ring`tail, ring`cachedHead, ring`head, ring.buffer
      ensures Valid() && Decides(ring.closed, rounds, rooms, a)
      ensures committed == old(committed) + (if a == Accepted then [item] else [])
      ensures accepted == old(accepted) + (if a == Accepted then [item] else [])
      ensures InOrder() <==> (a == Accepted ==> pendingItem == Nothing || pendingItem == One(item))
      ensures rooms != [] && a != Accepted ==> SeenFull()
      ensures rounds != [] && !rounds[0].shutdown && !ring.closed && old(KnowsSlot()) ==> a == Accepted
    {
      a, rooms := Pending, [];
      Overtaken(committed, pendingItem, item);
      assert committed + [] == committed && accepted + [] == accepted;
      while |rooms| < |rounds|
        invariant Valid() && committed == old(committed) && accepted == old(accepted) && a == Pending
        invariant |rooms| <= |rounds| && (rooms != [] ==> SeenFull() && !old(KnowsSlot()))
        invariant rooms == [] ==> KnowsSlot() == old(KnowsSlot())
        invariant forall k :: 0 <= k < |rooms| ==>
                    !rounds[k].shutdown && !ring.closed && !rooms[k] && !rounds[k].closedAfterWait
      {
        var round := rounds[|rooms|];
        if round.shutdown || ring.closed {
          a := Closed;
          return;
        }
        var room := Put(item);
        rooms := rooms + [room];
        if room {
          accepted := accepted + [item];
          a := Accepted;
          return;
        }
        assert committed == old(committed) + [] == old(committed);
        if round.closedAfterWait {
          a := Closed;
          return;
        }
      }
    }

    /** Between the calls of a session: what was accepted is in the ring or pending, and an item is
        pending only because the ring was found full. */
    ghost predicate InSession(ready: bool, finished: bool)
      reads this, ring, ring.buffer
    {
      && Valid() && InOrder() && (ready ==> pendingItem == Nothing) && (pendingItem.One? ==> SeenFull())
      && (finished ==> ring.closed && committed == accepted && pendingItem == Nothing)
    }

    /** One call of a session. `ready` tells whether `poll_ready` has just said Ok. */
    method SessionCall(call: Call, ready: bool, ghost finished: bool)
        returns (ready': bool, taken: seq<Item>, closes: bool)
      requires InSession(ready, finished)
      modifies this, ring, ring.buffer
      ensures InSession(ready', finished || closes) && accepted == old(accepted) + taken
      ensures taken == if call.kind.Start? && ready && !call.shutdown && !old(ring.closed) then [call.kind.item] else []
      ensures closes ==> call.kind.Close?
      ensures !call.kind.Close? ==> ring.closed == old(ring.closed)
      ensures !call.shutdown && !call.kind.Close? && !old(ring.closed) && old(pendingItem) == Nothing
                && (taken == [] || old(KnowsSlot())) ==>
                && pendingItem == Nothing && Used() == old(Used()) + |taken|
                && ready' == (call.kind.Ready? || (ready && !call.kind.Start?))
    {
      ready', taken, closes := ready, [], false;
      match call.kind {
        case Ready =>
          var a := PollReady(call.shutdown);
          ready' := a == Accepted;
        case Start(item) =>
          if ready {
            var ok, _ := StartSend(item, call.shutdown);
            taken, ready' := if ok then [item] else [], false;
          }
        case Flush =>
          var _ := PollFlush(call.shutdown);
        case Close =>
          var a := PollClose(call.shutdown);
          closes := a == Accepted;
      }
    }

    /** A whole session of a caller that calls `start_send` only after `poll_ready` has said Ok, with
        any other calls, any state of the channel and the consumer running: what was accepted is
        in the ring in order, followed by the pending item; a successful close leaves nothing
        pending, and something is left pending only by a ring found full. */
    method Session(calls: seq<Call>) returns (given: seq<Item>, finished: bool)
      requires Valid() && InOrder() && accepted == [] && !ring.closed
      modifies this, ring, ring.buffer
      ensures Valid() && InOrder() && given == accepted
      ensures finished ==> ring.closed && committed == given
      ensures committed != given ==> SeenFull()
      ensures Calm(calls) && old(Used()) + |Offered(calls)| <= Pow2(ring.bits) ==>
        given == committed == Offered(calls) && !ring.closed
    {
      given, finished := [], false;
      var ready := false;
      ghost var calm := Calm(calls) && old(Used()) + |Offered(calls)| <= Pow2(ring.bits);
      for i := 0 to |calls|
        invariant InSession(ready, finished) && accepted == given
        invariant calm ==> !ring.closed && pendingItem == Nothing && Used() == old(Used()) + |given|
        invariant calm ==> given == Offered(calls[..i]) && ready == ReadyAfter(calls[..i])
      {
        var taken, closes;
        OfferedNext(calls, i);
        ready, taken, closes := SessionCall(calls[i], ready, finished);
        given, finished := given + taken, finished || closes;
      }
      assert calls[..|calls|] == calls;
      if pendingItem == Nothing { assert committed + Items(pendingItem) == committed; }
    }
  }

  lemma TakenMore(committed: seq<Item>, consumed: seq<Item>, taken: seq<Item>, before: seq<Cell>, after: seq<Cell>)
    requires Held(committed) == Held(consumed) + before && before == Held(taken) + after
    ensures Held(committed) == Held(consumed + taken) + after
  {
    assert Held(consumed + taken) == Held(consumed) + Held(taken);
  }

  lemma PutMore(committed: seq<Item>, consumed: seq<Item>, item: Item, before: seq<Cell>, after: seq<Cell>, room: bool)
    requires Held(committed) == Held(consumed) + before && after == before + (if room then [Holds(item)] else [])
    ensures Held(committed + (if room then [item] else [])) == Held(consumed) + after
  {
    if room { assert Held(committed + [item]) == Held(committed) + [Holds(item)]; }
  }

  lemma Overtaken(c: seq<Item>, p: Kept, item: Item)
    ensures c + [item] + Items(p) == c + Items(p) + [item] <==> p == Nothing || p == One(item)
  {
    if p.One? {
      assert (c + [item] + [p.item])[|c|] == item;
      assert (c + [p.item] + [item])[|c|] == p.item;
    }
  }

  lemma Overwritten(c: seq<Item>, p: Kept, item: Item)
    ensures c + [item] == c + Items(p) + [item] <==> p == Nothing
  {
    if p.One? { assert |c + [item]| != |c + [p.item] + [item]|; }
  }
}
