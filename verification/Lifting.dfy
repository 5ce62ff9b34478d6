/** The other direction: every run of the log in which no ring overflows is one of the rings, the
    receiver and the flusher. So the machine of `Joint` does neither more nor less than the log. */
module Lifting {
  import opened Words
  import opened Entry
  import opened RingRun
  import opened RingProof
  import opened RingWrap
  import opened ChannelRing
  import opened Channel
  import opened WalQueues
  import opened Joint
  import WalRun
  import WalTheorems

  // ----- One ring: an item in, an item out -----

  /** No call is under way on the ring. */
  predicate AtRest(w: Ring, bits: nat) { w.bits == bits && w.producer == Idle && w.consumer == Resting }

  /** The words of a ring that takes an item: test, reservation, write. */
  ghost predicate Pushes(w: Ring, w1: Ring, w2: Ring, w3: Ring, item: Item) {
    && Shaped(w) && Enabled(Wrapping, w, Check) && w1 == Exec(Wrapping, w, Check)
    && Enabled(Wrapping, w1, Reserve(1, w.head)) && w2 == Exec(Wrapping, w1, Reserve(1, w.head))
    && Enabled(Wrapping, w2, Write(0, item)) && w3 == Exec(Wrapping, w2, Write(0, item))
    && Enabled(Wrapping, w3, RingRun.Commit(1)) && Published(w3) == item
  }

  lemma CanReserve(r: Ring)
    requires RingProof.Inv(r) && r.alive && r.kind == Heap && r.producer == Idle && r.tail < r.head + Cap(r)
    ensures var w := Wrap(r);
            && Enabled(Wrapping, w, Check)
            && var w1 := Exec(Wrapping, w, Check);
            && Enabled(Wrapping, w1, Reserve(1, w.head))
            && var w2 := Exec(Wrapping, w1, Reserve(1, w.head));
            && w2.producer.Reserved? && w2.producer.len == 1 && w2.alive
            && w2 == w.(producer := w2.producer, cachedHead := w2.cachedHead)
  {
    CapBelowLimit(r.bits);
    UnwrapHead(r);
    StepRefines(r, Check);
    DoReserveAgrees(Exec(Unbounded, r, Check), 1, r.head);
  }

  lemma CanPush(w: Ring, r: Ring, items: seq<Item>, head: nat, seen: nat, item: Item)
      returns (w1: Ring, w2: Ring, w3: Ring)
    requires RingOk(w, r, items, head, seen) && AtRest(w, w.bits) && |items| - head < Pow2(w.bits)
    ensures Pushes(w, w1, w2, w3, item) && AtRest(Exec(Wrapping, w3, RingRun.Commit(1)), w.bits)
  {
    CanReserve(r);
    w1 := Exec(Wrapping, w, Check);
    w2 := Exec(Wrapping, w1, Reserve(1, w.head));
    w3 := Exec(Wrapping, w2, Write(0, item));
    var i := w2.producer.idx;
    assert w3.slots[i..i + 1] == [Holds(item)];
    assert Held(NewItems(w3, RingRun.Commit(1)))[0] == Holds(item);
  }

  /** The words of a ring whose consumer takes one item. */
  ghost predicate Takes(w: Ring, w1: Ring, w2: Ring, w3: Ring) {
    && Shaped(w) && Enabled(Wrapping, w, LoadTail(UpTo(1), w.tail))
    && w1 == Exec(Wrapping, w, LoadTail(UpTo(1), w.tail))
    && Enabled(Wrapping, w1, Read) && w2 == Exec(Wrapping, w1, Read)
    && Enabled(Wrapping, w2, Finish) && w3 == Exec(Wrapping, w2, Finish)
  }

  lemma CanTake(w: Ring, r: Ring, items: seq<Item>, head: nat, seen: nat) returns (w1: Ring, w2: Ring, w3: Ring)
    requires RingOk(w, r, items, head, seen) && AtRest(w, w.bits) && head < |items|
    ensures Takes(w, w1, w2, w3) && AtRest(w3, w.bits)
  {
    LoadedTail(r, w.tail);
    LoadSets(r, UpTo(1), r.tail);
    var load := LoadTail(UpTo(1), w.tail);
    w1 := Exec(Wrapping, w, load);
    StepAgrees(r, load);
    var r1 := Exec(Unbounded, r, Lift(r, load));
    StepRefines(r, Lift(r, load));
    LoopTest(r1);
    w2 := Exec(Wrapping, w1, Read);
    StepAgrees(r1, Read);
    ReadTakes(r1);
    StepRefines(r1, Read);
    LoopTest(Exec(Unbounded, r1, Read));
    w3 := Exec(Wrapping, w2, Finish);
  }

  // ----- Runs that grow move by move -----

  /** The run `js`, `moves` ends in `j`, and the log sees of it `states` and `steps`. */
  ghost predicate Shows(c: Codec, cfg: WalRun.Config, f: Item -> WalEntry, bits: nat, js: seq<State>, moves: seq<Move>,
      j: State, states: seq<WalRun.State>, steps: seq<WalRun.Step>) {
    && Run(c, cfg, f, bits, js, moves) && js[|moves|] == j && Joint.Inv(j)
    && Steps(js, moves, |moves|) == steps && States(f, js, moves, |moves|) == states
  }

  lemma {:induction false} SamePrefix(f: Item -> WalEntry, js: seq<State>, moves: seq<Move>, j: State, move: Move,
      k: nat)
    requires |js| == |moves| + 1 && k <= |moves|
    ensures Steps(js + [j], moves + [move], k) == Steps(js, moves, k)
    ensures States(f, js + [j], moves + [move], k) == States(f, js, moves, k)
  {
    if k > 0 { SamePrefix(f, js, moves, j, move, k - 1); }
  }

  lemma ShownGrows(f: Item -> WalEntry, js: seq<State>, moves: seq<Move>, move: Move, j': State)
    requires |js| == |moves| + 1
    ensures var n, j := |moves|, js[|moves|];
            && Steps(js + [j'], moves + [move], n + 1) == Steps(js, moves, n) + LogStep(j, move)
            && States(f, js + [j'], moves + [move], n + 1)
               == if LogStep(j, move) == [] then States(f, js, moves, n) else States(f, js, moves, n) + [Abs(f, j')]
  {
    SamePrefix(f, js, moves, j', move, |moves|);
    assert States(f, js, moves, |moves|) + [] == States(f, js, moves, |moves|);
  }

  lemma RunGrows(c: Codec, cfg: WalRun.Config, f: Item -> WalEntry, bits: nat, js: seq<State>, moves: seq<Move>,
      move: Move, j': State)
    requires Run(c, cfg, f, bits, js, moves) && Next(c, cfg, f, bits, js[|moves|], j', move)
    ensures Run(c, cfg, f, bits, js + [j'], moves + [move])
  {
    var js', moves' := js + [j'], moves + [move];
    forall k | 0 <= k < |moves'| ensures Next(c, cfg, f, bits, js'[k], js'[k + 1], moves'[k]) {
      if k < |moves| { assert Next(c, cfg, f, bits, js[k], js[k + 1], moves[k]); }
    }
  }

  lemma Go(c: Codec, cfg: WalRun.Config, f: Item -> WalEntry, bits: nat, js: seq<State>, moves: seq<Move>, j: State,
      states: seq<WalRun.State>, steps: seq<WalRun.Step>, move: Move, j': State)
      returns (js': seq<State>, moves': seq<Move>)
    requires bits <= 63 && Shows(c, cfg, f, bits, js, moves, j, states, steps) && Next(c, cfg, f, bits, j, j', move)
    ensures Shows(c, cfg, f, bits, js', moves', j',
      if LogStep(j, move) == [] then states else states + [Abs(f, j')], steps + LogStep(j, move))
  {
    js', moves' := js + [j'], moves + [move];
    RunGrows(c, cfg, f, bits, js, moves, move, j');
    ShownGrows(f, js, moves, move, j');
    MoveIsLogStep(c, cfg, f, bits, j, j', move);
  }

  /** A move of ring `i` that the log does not see. */
  lemma GoRing(c: Codec, cfg: WalRun.Config, f: Item -> WalEntry, bits: nat, js: seq<State>, moves: seq<Move>, j: State,
      states: seq<WalRun.State>, steps: seq<WalRun.Step>, i: nat, step: Step)
      returns (js': seq<State>, moves': seq<Move>, j': State)
    requires bits <= 63 && Shows(c, cfg, f, bits, js, moves, j, states, steps) && j.base.proc.Some?
    requires i < |j.rings.words| && Shaped(j.rings.words[i]) && Enabled(Wrapping, j.rings.words[i], step) && Usual(step)
    requires Committed(j.rings.words[i], step) == []
    ensures Shows(c, cfg, f, bits, js', moves', j', states, steps) && j'.base == j.base && Abs(f, j') == Abs(f, j)
    ensures j'.rings.words == j.rings.words[i := Exec(Wrapping, j.rings.words[i], step)]
    ensures j'.buffer == if step.Read? then j.buffer + [Tagged(i, ReadItem(j.rings, i))] else j.buffer
  {
    var read := if step.Read? then [Tagged(i, ReadItem(j.rings, i))] else [];
    j' := State(j.base, Moved(j.rings, i, step), j.buffer + read);
    js', moves' := Go(c, cfg, f, bits, js, moves, j, states, steps, RingMove(i, step), j');
    RingMoveIsQuiet(f, j, j', i, step);
    assert j.buffer + [] == j.buffer && steps + [] == steps;
  }

  // ----- One step of the log -----

  /** Between two steps of the log: no call is under way and the receiver's buffer is empty. */
  ghost predicate Settled(j: State, bits: nat) {
    && j.buffer == [] && (j.base.proc.Some? ==>
      forall i :: 0 <= i < |j.rings.words| ==> AtRest(j.rings.words[i], bits))
  }

  /** `f` makes an envelope of every record. */
  ghost predicate Encodes(f: Item -> WalEntry, e: WalEntry) { exists x: Item :: f(x) == e }

  ghost predicate Onto(f: Item -> WalEntry) { forall e: WalEntry :: Encodes(f, e) }

  /** No queue is longer than a ring. */
  ghost predicate WithinRings(s: WalRun.State, bits: nat) {
    s.proc.Some? ==> forall w :: 0 <= w < |s.proc.value.queues| ==> |s.proc.value.queues[w]| <= Pow2(bits)
  }

  lemma QueueLength(f: Item -> WalEntry, j: State, i: nat)
    requires RingsOk(j.rings) && j.buffer == [] && i < |j.rings.words|
    ensures j.rings.heads[i] <= |j.rings.committed[i]|
    ensures |QueuesOf(f, j.rings, j.buffer)[i]| == |j.rings.committed[i]| - j.rings.heads[i]
  {
    assert RingOk(j.rings.words[i], j.rings.ideal[i], j.rings.committed[i], j.rings.heads[i], j.rings.seen[i]);
    assert Pending(j.rings, [], i) == [] + j.rings.committed[i][j.rings.heads[i]..];
  }

  lemma SameSend(s: WalRun.State, s1: WalRun.State, s2: WalRun.State, id: TxId)
    requires WalRun.SendStep(s, s1, id) && WalRun.SendStep(s, s2, id)
    ensures s1 == s2
  {}

  lemma SameDrain(mode: WalRun.SyncMode, s: WalRun.State, s1: WalRun.State, s2: WalRun.State, w: nat)
    requires WalRun.DrainStep(mode, s, s1, w) && WalRun.DrainStep(mode, s, s2, w)
    ensures s1 == s2
  {}

  /** Three moves bring the item into ring `i`, ready to be committed. */
  lemma PushLifts(c: Codec, cfg: WalRun.Config, f: Item -> WalEntry, bits: nat, js: seq<State>, moves: seq<Move>,
      j: State, states: seq<WalRun.State>, steps: seq<WalRun.Step>, i: nat, item: Item)
      returns (js': seq<State>, moves': seq<Move>, j': State)
    requires bits <= 63 && Shows(c, cfg, f, bits, js, moves, j, states, steps) && j.base.proc.Some?
    requires i < |j.rings.words| && AtRest(j.rings.words[i], bits)
    requires |j.rings.committed[i]| - j.rings.heads[i] < Pow2(bits)
    ensures Shows(c, cfg, f, bits, js', moves', j', states, steps) && j'.base == j.base && Abs(f, j') == Abs(f, j)
    ensures j'.buffer == j.buffer && |j'.rings.words| == |j.rings.words|
    ensures forall k :: 0 <= k < |j.rings.words| && k != i ==> j'.rings.words[k] == j.rings.words[k]
    ensures Shaped(j'.rings.words[i]) && Enabled(Wrapping, j'.rings.words[i], RingRun.Commit(1))
    ensures Published(j'.rings.words[i]) == item
    ensures AtRest(Exec(Wrapping, j'.rings.words[i], RingRun.Commit(1)), bits)
  {
    var rs := j.rings;
    var w1, w2, w3 := CanPush(rs.words[i], rs.ideal[i], rs.committed[i], rs.heads[i], rs.seen[i], item);
    var j1, j2;
    js', moves', j1 := GoRing(c, cfg, f, bits, js, moves, j, states, steps, i, Check);
    js', moves', j2 := GoRing(c, cfg, f, bits, js', moves', j1, states, steps, i, Reserve(1, rs.words[i].head));
    js', moves', j' := GoRing(c, cfg, f, bits, js', moves', j2, states, steps, i, Write(0, item));
  }

  /** Committing the item is the Send step. */
  lemma CommitLifts(c: Codec, cfg: WalRun.Config, f: Item -> WalEntry, bits: nat, js: seq<State>, moves: seq<Move>,
      j: State, states: seq<WalRun.State>, steps: seq<WalRun.Step>, id: TxId, s': WalRun.State)
      returns (js': seq<State>, moves': seq<Move>, j': State)
    requires bits <= 63 && Shows(c, cfg, f, bits, js, moves, j, states, steps) && WalRun.SendStep(Abs(f, j), s', id)
    requires var t := j.base.txs[id];
             && t.writer < |j.rings.words| && Shaped(j.rings.words[t.writer])
             && Enabled(Wrapping, j.rings.words[t.writer], RingRun.Commit(1))
             && f(Published(j.rings.words[t.writer])) == t.Script()[t.sent]
    ensures Shows(c, cfg, f, bits, js', moves', j', states + [s'], steps + [WalRun.Send(id)]) && Abs(f, j') == s'
    ensures var i, ws := j.base.txs[id].writer, j.rings.words;
            j'.rings.words == ws[i := Exec(Wrapping, ws[i], RingRun.Commit(1))] && j'.buffer == j.buffer
  {
    var t := j.base.txs[id];
    j' := State(j.base.(txs := j.base.txs[id := t.(sent := t.sent + 1)]), Moved(j.rings, t.writer, RingRun.Commit(1)),
      j.buffer);
    CommitMoveIsSend(f, j, j', t.writer, id);
    SameSend(Abs(f, j), s', Abs(f, j'), id);
    js', moves' := Go(c, cfg, f, bits, js, moves, j, states, steps, CommitRecord(t.writer, id), j');
  }

  /** Send: the writer's ring takes the envelope. */
  lemma SendLifts(c: Codec, cfg: WalRun.Config, f: Item -> WalEntry, bits: nat, js: seq<State>, moves: seq<Move>,
      j: State, states: seq<WalRun.State>, steps: seq<WalRun.Step>, id: TxId, s': WalRun.State)
      returns (js': seq<State>, moves': seq<Move>, j': State)
    requires bits <= 63 && Shows(c, cfg, f, bits, js, moves, j, states, steps) && Settled(j, bits) && Onto(f)
    requires WalRun.SendStep(Abs(f, j), s', id) && WithinRings(s', bits)
    ensures Shows(c, cfg, f, bits, js', moves', j', states + [s'], steps + [WalRun.Send(id)])
    ensures Settled(j', bits) && Abs(f, j') == s'
  {
    var t := j.base.txs[id];
    var i, e := t.writer, t.Script()[t.sent];
    assert Encodes(f, e);
    var item: Item :| f(item) == e;
    QueueLength(f, j, i);
    assert |s'.proc.value.queues[i]| == |QueuesOf(f, j.rings, j.buffer)[i]| + 1;
    var j1;
    js', moves', j1 := PushLifts(c, cfg, f, bits, js, moves, j, states, steps, i, item);
    js', moves', j' := CommitLifts(c, cfg, f, bits, js', moves', j1, states, steps, id, s');
  }

  /** Three moves bring the first item of ring `i` into the empty buffer. */
  lemma TakeLifts(c: Codec, cfg: WalRun.Config, f: Item -> WalEntry, bits: nat, js: seq<State>, moves: seq<Move>,
      j: State, states: seq<WalRun.State>, steps: seq<WalRun.Step>, i: nat)
      returns (js': seq<State>, moves': seq<Move>, j': State)
    requires bits <= 63 && Shows(c, cfg, f, bits, js, moves, j, states, steps) && j.base.proc.Some?
    requires i < |j.rings.words| && AtRest(j.rings.words[i], bits) && j.rings.heads[i] < |j.rings.committed[i]|
    ensures Shows(c, cfg, f, bits, js', moves', j', states, steps) && j'.base == j.base && Abs(f, j') == Abs(f, j)
    ensures |j'.buffer| == |j.buffer| + 1 && j'.buffer[|j.buffer|].producer == i
    ensures |j'.rings.words| == |j.rings.words| && AtRest(j'.rings.words[i], bits)
    ensures forall k :: 0 <= k < |j.rings.words| && k != i ==> j'.rings.words[k] == j.rings.words[k]
  {
    var rs := j.rings;
    var w1, w2, w3 := CanTake(rs.words[i], rs.ideal[i], rs.committed[i], rs.heads[i], rs.seen[i]);
    var j1, j2;
    js', moves', j1 := GoRing(c, cfg, f, bits, js, moves, j, states, steps, i, LoadTail(UpTo(1), rs.words[i].tail));
    js', moves', j2 := GoRing(c, cfg, f, bits, js', moves', j1, states, steps, i, Read);
    js', moves', j' := GoRing(c, cfg, f, bits, js', moves', j2, states, steps, i, Finish);
  }

  /** Drain: the receiver takes the envelope out of its ring, and the flusher collects it. */
  lemma DrainLifts(c: Codec, cfg: WalRun.Config, f: Item -> WalEntry, bits: nat, js: seq<State>, moves: seq<Move>,
      j: State, states: seq<WalRun.State>, steps: seq<WalRun.Step>, i: nat, s': WalRun.State)
      returns (js': seq<State>, moves': seq<Move>, j': State)
    requires bits <= 63 && Shows(c, cfg, f, bits, js, moves, j, states, steps) && Settled(j, bits)
    requires WalRun.DrainStep(cfg.mode, Abs(f, j), s', i)
    ensures Shows(c, cfg, f, bits, js', moves', j', states + [s'], steps + [WalRun.Drain(i)])
    ensures Settled(j', bits) && Abs(f, j') == s'
  {
    QueueLength(f, j, i);
    var j1;
    js', moves', j1 := TakeLifts(c, cfg, f, bits, js, moves, j, states, steps, i);
    var p, x := j1.base.proc.value, f(j1.buffer[0].item);
    j' := State(j1.base.(proc := Some(p.(batch := p.batch + [x],
                                        waiters := if x.Commit? then p.waiters + [x.txId] else p.waiters))),
                j1.rings, j1.buffer[1..]);
    Joint.CollectIsDrain(f, cfg.mode, j1, j');
    SameDrain(cfg.mode, Abs(f, j), s', Abs(f, j'), i);
    js', moves' := Go(c, cfg, f, bits, js', moves', j1, states, steps, Move.Collect, j');
  }

  /** Any other step leaves the queues alone, or starts with empty ones. */
  lemma OtherQueues(c: Codec, cfg: WalRun.Config, s: WalRun.State, s': WalRun.State, step: WalRun.Step)
    requires WalRun.Next(c, cfg, s, s', step) && !step.Send? && !step.Drain? && s'.proc.Some?
    ensures step.Restart? ==> s'.proc.value.queues == seq(step.writers, _ => [])
    ensures !step.Restart? ==> s.proc.Some? && s'.proc.value.queues == s.proc.value.queues
  {}

  lemma FreshQueues(f: Item -> WalEntry, bits: nat, n: nat)
    requires bits <= 63
    ensures QueuesOf(f, FreshRings(bits, n), []) == seq(n, _ => []) && RingsOk(FreshRings(bits, n))
    ensures forall i :: 0 <= i < n ==> AtRest(FreshRings(bits, n).words[i], bits)
  {
    FreshRingsOk(f, bits, n);
    var qs := QueuesOf(f, FreshRings(bits, n), []);
    forall i | 0 <= i < n ensures qs[i] == [] { assert Pending(FreshRings(bits, n), [], i) == []; }
  }

  lemma OtherLifts(c: Codec, cfg: WalRun.Config, f: Item -> WalEntry, bits: nat, js: seq<State>, moves: seq<Move>,
      j: State, states: seq<WalRun.State>, steps: seq<WalRun.Step>, step: WalRun.Step, s': WalRun.State)
      returns (js': seq<State>, moves': seq<Move>, j': State)
    requires bits <= 63 && Shows(c, cfg, f, bits, js, moves, j, states, steps) && Settled(j, bits)
    requires WalRun.Next(c, cfg, Abs(f, j), s', step) && !step.Send? && !step.Drain?
    ensures Shows(c, cfg, f, bits, js', moves', j', states + [s'], steps + [step])
    ensures Settled(j', bits) && Abs(f, j') == s'
  {
    j' := State(s', if step.Restart? then FreshRings(bits, step.writers) else j.rings, []);
    if s'.proc.Some? {
      OtherQueues(c, cfg, Abs(f, j), s', step);
      if step.Restart? { FreshQueues(f, bits, step.writers); }
    }
    js', moves' := Go(c, cfg, f, bits, js, moves, j, states, steps, LogMove(step), j');
  }

  lemma StepLifts(c: Codec, cfg: WalRun.Config, f: Item -> WalEntry, bits: nat, js: seq<State>, moves: seq<Move>,
      j: State, states: seq<WalRun.State>, steps: seq<WalRun.Step>, step: WalRun.Step, s': WalRun.State)
      returns (js': seq<State>, moves': seq<Move>, j': State)
    requires bits <= 63 && Onto(f) && Shows(c, cfg, f, bits, js, moves, j, states, steps) && Settled(j, bits)
    requires WalRun.Next(c, cfg, Abs(f, j), s', step) && WithinRings(s', bits)
    ensures Shows(c, cfg, f, bits, js', moves', j', states + [s'], steps + [step])
    ensures Settled(j', bits) && Abs(f, j') == s'
  {
    match step {
      case Send(id) => js', moves', j' := SendLifts(c, cfg, f, bits, js, moves, j, states, steps, id, s');
      case Drain(w) => js', moves', j' := DrainLifts(c, cfg, f, bits, js, moves, j, states, steps, w, s');
      case _ => js', moves', j' := OtherLifts(c, cfg, f, bits, js, moves, j, states, steps, step, s');
    }
  }

  lemma NothingYet(c: Codec, cfg: WalRun.Config, f: Item -> WalEntry, bits: nat)
    ensures Shows(c, cfg, f, bits, [Start(bits)], [], Start(bits), [WalRun.INIT], [])
    ensures Settled(Start(bits), bits) && Abs(f, Start(bits)) == WalRun.INIT
  {}

  lemma {:induction false} LiftsTo(c: Codec, cfg: WalRun.Config, f: Item -> WalEntry, bits: nat,
      states: seq<WalRun.State>, steps: seq<WalRun.Step>, n: nat)
      returns (js: seq<State>, moves: seq<Move>, j: State)
    requires bits <= 63 && Onto(f) && WalTheorems.Run(c, cfg, states, steps) && n <= |steps|
    requires forall k :: 0 <= k < |states| ==> WithinRings(states[k], bits)
    ensures Shows(c, cfg, f, bits, js, moves, j, states[..n + 1], steps[..n])
    ensures Settled(j, bits) && Abs(f, j) == states[n]
  {
    if n == 0 {
      js, moves, j := [Start(bits)], [], Start(bits);
      NothingYet(c, cfg, f, bits);
      assert states[..1] == [WalRun.INIT];
    } else {
      js, moves, j := LiftsTo(c, cfg, f, bits, states, steps, n - 1);
      assert WalRun.Next(c, cfg, states[n - 1], states[n - 1 + 1], steps[n - 1]);
      js, moves, j := StepLifts(c, cfg, f, bits, js, moves, j, states[..n], steps[..n - 1], steps[n - 1], states[n]);
      OneMore(states, steps, n);
    }
  }

  lemma OneMore(states: seq<WalRun.State>, steps: seq<WalRun.Step>, n: nat)
    requires 0 < n <= |steps| < |states|
    ensures states[..n] + [states[n]] == states[..n + 1] && steps[..n - 1] + [steps[n - 1]] == steps[..n]
  {}

  /** Every run of the log in which no queue outgrows its ring is what the log sees of a run of the
      whole machine: the same steps and the same states. */
  lemma RunLifts(c: Codec, cfg: WalRun.Config, f: Item -> WalEntry, bits: nat, states: seq<WalRun.State>,
      steps: seq<WalRun.Step>) returns (js: seq<State>, moves: seq<Move>)
    requires bits <= 63 && Onto(f) && WalTheorems.Run(c, cfg, states, steps)
    requires forall k :: 0 <= k < |states| ==> WithinRings(states[k], bits)
    ensures Run(c, cfg, f, bits, js, moves)
    ensures Steps(js, moves, |moves|) == steps && States(f, js, moves, |moves|) == states
  {
    var j;
    js, moves, j := LiftsTo(c, cfg, f, bits, states, steps, |steps|);
    assert states[..|steps| + 1] == states && steps[..|steps|] == steps;
  }
}
