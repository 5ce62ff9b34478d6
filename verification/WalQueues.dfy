/** Where the two layers meet: the queues of the write-ahead log are the channel's rings together
    with the stream receiver's buffer. Committing to a ring is the log's Send step, and an item
    yielded by the stream is its Drain step. */
module WalQueues {
  import opened Entry
  import opened RingRun
  import opened Channel
  import opened Stream
  import WalRun

  /** The entries in a sequence of envelopes; `f` opens one. */
  function Entries(f: Item -> WalEntry, items: seq<Item>): (es: seq<WalEntry>)
    ensures |es| == |items| && forall i :: 0 <= i < |items| ==> es[i] == f(items[i])
  {
    seq(|items|, i requires 0 <= i < |items| => f(items[i]))
  }

  /** What producer `w` has committed and the stream has not yielded yet: in its ring or in the
      receiver's buffer. */
  ghost function InFlight(committed: seq<seq<Item>>, yielded: seq<Tagged>, w: nat): (items: seq<Item>) {
    if w < |committed| && |From(w, yielded)| <= |committed[w]| then committed[w][|From(w, yielded)|..] else []
  }

  /** The queues of the log's state are what is in flight. The log has one queue for each ring that
      the channel allocates when it is opened; a ring nobody has registered for yet is empty. */
  ghost predicate Mirrors(f: Item -> WalEntry, s: WalRun.State, committed: seq<seq<Item>>, yielded: seq<Tagged>) {
    && s.proc.Some? && |committed| <= |s.proc.value.queues|
    && forall w :: 0 <= w < |s.proc.value.queues| ==>
      s.proc.value.queues[w] == Entries(f, InFlight(committed, yielded, w))
  }

  /** A restart opens the channel with its rings allocated and no producer registered. */
  lemma RestartMirrors(f: Item -> WalEntry, c: Codec, s: WalRun.State, s': WalRun.State, max: nat, counter: nat)
    requires WalRun.RestartStep(c, s, s', max, counter)
    ensures Mirrors(f, s', [], [])
  {}

  /** A writer registers while the log runs: no step of the log. */
  lemma RegistrationMirrors(f: Item -> WalEntry, s: WalRun.State, committed: seq<seq<Item>>, yielded: seq<Tagged>)
    requires Mirrors(f, s, committed, yielded) && |committed| < |s.proc.value.queues|
    ensures Mirrors(f, s, committed + [[]], yielded)
  {
    forall w | 0 <= w < |s.proc.value.queues|
      ensures InFlight(committed + [[]], yielded, w) == InFlight(committed, yielded, w)
    {}
  }

  /** Nothing yielded is ahead of what was committed. */
  ghost predicate Behind(committed: seq<seq<Item>>, yielded: seq<Tagged>) {
    forall w :: 0 <= w < |committed| ==> From(w, yielded) <= committed[w]
  }

  lemma EntriesSnoc(f: Item -> WalEntry, items: seq<Item>, item: Item)
    ensures Entries(f, items + [item]) == Entries(f, items) + [f(item)]
  {}

  /** A producer commits the record that its transaction sends next. */
  lemma CommitIsSend(f: Item -> WalEntry, s: WalRun.State, committed: seq<seq<Item>>, yielded: seq<Tagged>, id: TxId,
      item: Item)
    returns (s': WalRun.State)
    requires Mirrors(f, s, committed, yielded) && Behind(committed, yielded)
    requires id in s.txs && s.txs[id].alive && s.txs[id].sent < |s.txs[id].Script()| && s.txs[id].writer < |committed|
    requires f(item) == s.txs[id].Script()[s.txs[id].sent]
    ensures WalRun.SendStep(s, s', id)
    ensures var w := s.txs[id].writer; Mirrors(f, s', committed[w := committed[w] + [item]], yielded)
  {
    var t, p := s.txs[id], s.proc.value;
    var w := t.writer;
    s' := s.(proc := Some(p.(queues := p.queues[w := p.queues[w] + [t.Script()[t.sent]]])),
      txs := s.txs[id := t.(sent := t.sent + 1)]);
    var committed' := committed[w := committed[w] + [item]];
    assert From(w, yielded) <= committed[w];
    assert InFlight(committed', yielded, w) == InFlight(committed, yielded, w) + [item];
    EntriesSnoc(f, InFlight(committed, yielded, w), item);
  }

  /** The flusher is collecting. */
  ghost predicate Collecting(mode: WalRun.SyncMode, s: WalRun.State) {
    s.proc.Some? && WalRun.FlusherFree(mode, s.proc.value) && s.proc.value.phase.Collect?
  }

  /** The stream yields an item: it is the first in flight of its producer. */
  lemma YieldedIsFirst(heads: seq<nat>, committed: seq<seq<Item>>, yielded: seq<Tagged>, x: Tagged, buffer: seq<Tagged>)
    requires Delivers(yielded + [x] + buffer, [], heads, committed)
    ensures x.producer < |committed| && |From(x.producer, yielded)| < |committed[x.producer]|
    ensures committed[x.producer][|From(x.producer, yielded)|] == x.item
    ensures Behind(committed, yielded + [x])
  {
    var w := x.producer;
    FromOneMore(w, yielded, x, buffer);
    assert From(w, yielded + [x] + buffer) == Part(committed, w, HeadOf([], w), HeadOf(heads, w));
    assert From(w, yielded + [x] + buffer)[|From(w, yielded)|] == x.item;
    forall v | 0 <= v < |committed| ensures From(v, yielded + [x]) <= committed[v] {
      FromConcat(v, yielded + [x], buffer);
      DeliveredIsPrefix(yielded + [x] + buffer, heads, committed, v);
    }
  }

  lemma FromOneMore(w: nat, yielded: seq<Tagged>, x: Tagged, buffer: seq<Tagged>)
    requires x.producer == w
    ensures From(w, yielded + [x] + buffer) == From(w, yielded) + [x.item] + From(w, buffer)
  {
    FromConcat(w, yielded + [x], buffer);
    assert (yielded + [x])[..|yielded|] == yielded;
  }

  lemma FromOther(v: nat, yielded: seq<Tagged>, x: Tagged)
    ensures From(v, yielded + [x]) == if x.producer == v then From(v, yielded) + [x.item] else From(v, yielded)
  {
    assert (yielded + [x])[..|yielded|] == yielded;
    assert From(v, yielded) + [] == From(v, yielded);
  }

  lemma YieldIsDrain(f: Item -> WalEntry, mode: WalRun.SyncMode, s: WalRun.State, committed: seq<seq<Item>>,
      yielded: seq<Tagged>, x: Tagged)
    returns (s': WalRun.State)
    requires Mirrors(f, s, committed, yielded) && Collecting(mode, s) && Behind(committed, yielded + [x])
    requires x.producer < |committed| && |From(x.producer, yielded)| < |committed[x.producer]|
    requires committed[x.producer][|From(x.producer, yielded)|] == x.item
    ensures WalRun.DrainStep(mode, s, s', x.producer) && s.proc.value.queues[x.producer][0] == f(x.item)
    ensures Mirrors(f, s', committed, yielded + [x])
  {
    var w, p := x.producer, s.proc.value;
    var e := p.queues[w][0];
    s' := s.(proc := Some(p.(queues := p.queues[w := p.queues[w][1..]], batch := p.batch + [e],
                                    waiters := if e.Commit? then p.waiters + [e.txId] else p.waiters)));
    forall v | 0 <= v < |p.queues| ensures s'.proc.value.queues[v]
      == Entries(f, InFlight(committed, yielded + [x], v)) {
      FromOther(v, yielded, x);
      if v < |committed| { assert From(v, yielded + [x]) <= committed[v]; }
      if v == w { assert InFlight(committed, yielded, w)[1..] == InFlight(committed, yielded + [x], w); }
    }
  }

  /** The flusher's `receiver.next()`: whenever the rings mirror a state of the log in which the
      flusher is collecting, a poll that is ready takes exactly the log's Drain step. */
  method PollIsDrain(rx: RingReceiver, ghost f: Item -> WalEntry, ghost mode: WalRun.SyncMode, signalled: bool,
      notified: bool, ticks: nat, closed: bool)
    returns (p: Poll)
    requires rx.Valid()
    modifies rx, rx.channel
    ensures rx.Valid() && Grows(old(rx.channel.committed), rx.channel.committed)
    ensures !p.Ready? ==> rx.yielded == old(rx.yielded)
    ensures old(rx.buffer) != [] ==> p == Ready(old(rx.buffer)[0])
    ensures old(rx.DataWaiting()) && !old(rx.drainComplete) && rx.batchHint >= 1 && !notified ==> p.Ready?
    ensures p.Ready? ==>
      forall s :: Mirrors(f, s, rx.channel.committed, old(rx.yielded)) && Collecting(mode, s) ==>
        exists s' :: WalRun.DrainStep(mode, s, s', p.item.producer) && Mirrors(f, s', rx.channel.committed, rx.yielded)
  {
    var woke;
    ghost var registered;
    p, woke, registered := rx.PollNext(signalled, notified, ticks, closed);
    if p.Ready? {
      ghost var y, c := old(rx.yielded), rx.channel.committed;
      YieldedIsFirst(rx.channel.heads, c, y, p.item, rx.buffer);
      forall s | Mirrors(f, s, c, y) && Collecting(mode, s)
        ensures exists s' :: WalRun.DrainStep(mode, s, s', p.item.producer) && Mirrors(f, s', c, rx.yielded)
      {
        var s' := YieldIsDrain(f, mode, s, c, y, p.item);
      }
    }
  }
}
