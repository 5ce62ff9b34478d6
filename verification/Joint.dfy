/** Rings, receiver and log as one machine: writers push envelopes through the atomic steps of
    their 64-bit rings, the receiver reads them out into its buffer, the flusher collects them from
    there. Every run of it is, seen from the log, a run of the log's own step machine. */
module Joint {
  import opened Entry
  import opened RingRun
  import opened RingProof
  import opened RingWrap
  import opened ChannelRing
  import opened Channel
  import opened WalQueues
  import WalRun
  import WalTheorems
  import Log
  import Recovery
  import Store
  import EndToEnd

  /** The rings, what they stand for, and their histories. */
  datatype Rings = Rings(words: seq<Ring>, ideal: seq<Ring>, committed: seq<seq<Item>>, heads: seq<nat>, seen: seq<nat>)

  /** `base` is the log without its queues, which are in the rings and in the receiver's buffer. */
  datatype State = State(base: WalRun.State, rings: Rings, buffer: seq<Tagged>)

  ghost predicate RingsOk(rs: Rings) {
    && |rs.words| == |rs.ideal| == |rs.committed| == |rs.heads| == |rs.seen|
    && forall i :: 0 <= i < |rs.words| ==> RingOk(rs.words[i], rs.ideal[i], rs.committed[i], rs.heads[i], rs.seen[i])
  }

  /** Fresh rings, as the channel allocates them when it is opened. */
  function FreshRings(bits: nat, n: nat): (rs: Rings) {
    var r := Fresh(bits, Heap, Consuming, 0);
    Rings(seq(n, _ => r), seq(n, _ => r), seq(n, _ => []), seq(n, _ => 0), seq(n, _ => 0))
  }

  // ----- What the log sees -----

  /** What is in flight in ring `i` and behind it. */
  ghost function Pending(rs: Rings, buffer: seq<Tagged>, i: nat): (items: seq<Item>) {
    From(i, buffer) + (if i < |rs.committed| && i < |rs.heads| && rs.heads[i] <= |rs.committed[i]|
      then rs.committed[i][rs.heads[i]..] else [])
  }

  ghost function QueuesOf(f: Item -> WalEntry, rs: Rings, buffer: seq<Tagged>): (qs: seq<seq<WalEntry>>)
    ensures |qs| == |rs.words| && forall i :: 0 <= i < |qs| ==> qs[i] == Entries(f, Pending(rs, buffer, i))
  {
    seq(|rs.words|, i requires 0 <= i < |rs.words| => Entries(f, Pending(rs, buffer, i)))
  }

  ghost function Abs(f: Item -> WalEntry, j: State): (s: WalRun.State) {
    match j.base.proc
    case None => j.base
    case Some(p) => j.base.(proc := Some(p.(queues := QueuesOf(f, j.rings, j.buffer))))
  }

  // ----- Steps -----

  datatype Move =
    | RingMove(ring: nat, step: Step)
    | CommitRecord(ring: nat, id: TxId)
    | Collect
    | LogMove(log: WalRun.Step)

  /** Ring `i` takes a step. */
  ghost function Moved(rs: Rings, i: nat, step: Step): (rs': Rings)
    requires RingsOk(rs) && i < |rs.words| && Enabled(Wrapping, rs.words[i], step) && Usual(step)
  {
    RingStep(rs.words[i], rs.ideal[i], rs.committed[i], rs.heads[i], rs.seen[i], step);
    var r := Exec(Unbounded, rs.ideal[i], Lift(rs.ideal[i], step));
    Rings(rs.words[i := Exec(Wrapping, rs.words[i], step)], rs.ideal[i := r],
          rs.committed[i := rs.committed[i] + NewItems(rs.words[i], step)], rs.heads[i := ReadPos(r)],
            rs.seen[i := r.seenTail])
  }

  /** A step of ring `i` that commits nothing: of its producer, or of the receiver, which puts the
      item it reads into its buffer. */
  ghost predicate RingMoves(j: State, j': State, i: nat, step: Step) {
    && j.base.proc.Some? && RingsOk(j.rings) && i < |j.rings.words| && Enabled(Wrapping, j.rings.words[i], step)
    && Usual(step) && Committed(j.rings.words[i], step) == []
    && j'.base == j.base && j'.rings == Moved(j.rings, i, step)
    && j'.buffer == j.buffer + (if step.Read? then [Tagged(i, ReadItem(j.rings, i))] else [])
  }

  /** The item that the receiver moves out of its slot. The slot is initialised. */
  ghost function ReadItem(rs: Rings, i: nat): (item: Item)
    requires RingsOk(rs) && i < |rs.words| && Enabled(Wrapping, rs.words[i], Read)
    ensures rs.heads[i] < |rs.committed[i]| && item == rs.committed[i][rs.heads[i]]
  {
    var w := rs.words[i];
    ReadsNext(w, rs.ideal[i], rs.committed[i], rs.heads[i], rs.seen[i]);
    At(Wrapping, w.bits, w.slots, w.consumer.pos).item
  }

  lemma ReadsNext(w: Ring, r: Ring, items: seq<Item>, head: nat, seen: nat)
    requires RingOk(w, r, items, head, seen) && Enabled(Wrapping, w, Read)
    ensures head < |items| && At(Wrapping, w.bits, w.slots, w.consumer.pos) == Holds(items[head])
    ensures NewItems(w, Read) == [] && ReadPos(Exec(Unbounded, r, Lift(r, Read))) == head + 1
  {
    RingStep(w, r, items, head, seen, Read);
    TakenIs(w);
    ReadTakes(r);
    assert |Held(NewItems(w, Read))| == 0;
    var items' := items + NewItems(w, Read);
    assert items' == items;
    assert Held(items'[head..head + 1])[0] == Holds(items[head]);
  }

  /** The envelope that a commit of one slot publishes. */
  ghost function Published(w: Ring): (item: Item)
    requires Shaped(w) && Enabled(Wrapping, w, RingRun.Commit(1))
    ensures NewItems(w, RingRun.Commit(1)) == [item]
  {
    var items := NewItems(w, RingRun.Commit(1));
    assert |Held(items)| == 1;
    items[0]
  }

  /** A writer commits the envelope with its transaction's next record. */
  ghost predicate CommitsRecord(f: Item -> WalEntry, j: State, j': State, i: nat, id: TxId) {
    && j.base.proc.Some? && RingsOk(j.rings) && i < |j.rings.words|
      && Enabled(Wrapping, j.rings.words[i], RingRun.Commit(1))
    && id in j.base.txs
    && var t := j.base.txs[id];
    && t.alive && t.writer == i && t.sent < |t.Script()| && f(Published(j.rings.words[i])) == t.Script()[t.sent]
    && j' == State(j.base.(txs := j.base.txs[id := t.(sent := t.sent + 1)]), Moved(j.rings, i, RingRun.Commit(1)),
      j.buffer)
  }

  /** The flusher collects the first envelope of the receiver's buffer. */
  ghost predicate Collects(f: Item -> WalEntry, mode: WalRun.SyncMode, j: State, j': State) {
    && j.base.proc.Some? && j.buffer != []
    && var p := j.base.proc.value;
    && WalRun.FlusherFree(mode, p) && p.phase.Collect?
    && var e := f(j.buffer[0].item);
    j' == State(j.base.(proc := Some(p.(batch := p.batch + [e],
                                        waiters := if e.Commit? then p.waiters + [e.txId] else p.waiters))),
                j.rings, j.buffer[1..])
  }

  /** Any other step of the log. A restart comes with fresh rings and an empty buffer. */
  ghost predicate LogMoves(c: Codec, cfg: WalRun.Config, f: Item -> WalEntry, bits: nat, j: State, j': State,
      log: WalRun.Step) {
    && !log.Send? && !log.Drain? && WalRun.Next(c, cfg, Abs(f, j), Abs(f, j'), log)
    && (if log.Restart? then j'.rings == FreshRings(bits, log.writers) && j'.buffer == []
      else j'.rings == j.rings && j'.buffer == j.buffer)
  }

  ghost predicate Next(c: Codec, cfg: WalRun.Config, f: Item -> WalEntry, bits: nat, j: State, j': State, move: Move) {
    match move
    case RingMove(i, step) => RingMoves(j, j', i, step)
    case CommitRecord(i, id) => CommitsRecord(f, j, j', i, id)
    case Collect => Collects(f, cfg.mode, j, j')
    case LogMove(log) => LogMoves(c, cfg, f, bits, j, j', log)
  }

  /** The step of the log that a move is, if it is one. */
  ghost function LogStep(j: State, move: Move): (steps: seq<WalRun.Step>) {
    match move
    case RingMove(_, _) => []
    case CommitRecord(_, id) => [WalRun.Send(id)]
    case Collect => if j.buffer == [] then [] else [WalRun.Drain(j.buffer[0].producer)]
    case LogMove(log) => [log]
  }

  // ----- Every move is a step of the log, or nothing to it -----

  ghost predicate Inv(j: State) {
    j.base.proc.Some? ==> RingsOk(j.rings) && forall x :: x in j.buffer ==> x.producer < |j.rings.words|
  }

  lemma MovedOk(rs: Rings, i: nat, step: Step)
    requires RingsOk(rs) && i < |rs.words| && Enabled(Wrapping, rs.words[i], step) && Usual(step)
    ensures RingsOk(Moved(rs, i, step)) && |Moved(rs, i, step).words| == |rs.words|
    ensures forall k :: 0 <= k < |rs.words| && k != i ==>
              Moved(rs, i, step).committed[k] == rs.committed[k] && Moved(rs, i, step).heads[k] == rs.heads[k]
  {
    RingStep(rs.words[i], rs.ideal[i], rs.committed[i], rs.heads[i], rs.seen[i], step);
  }

  /** A step other than a read or a commit leaves the queue of its ring as it is. */
  lemma IdleMove(w: Ring, r: Ring, items: seq<Item>, head: nat, seen: nat, step: Step)
    requires RingOk(w, r, items, head, seen) && Enabled(Wrapping, w, step) && Usual(step) && Committed(w, step) == []
      && !step.Read?
    ensures NewItems(w, step) == [] && Enabled(Unbounded, r, Lift(r, step))
      && ReadPos(Exec(Unbounded, r, Lift(r, step))) == head
  {
    RingStep(w, r, items, head, seen, step);
    TakenCount(r, Lift(r, step));
    assert |Held(NewItems(w, step))| == 0;
    assert Taken(Unbounded, r, Lift(r, step)) == [];
  }

  lemma FromSnoc(k: nat, buffer: seq<Tagged>, x: Tagged)
    ensures From(k, buffer + [x]) == From(k, buffer) + (if x.producer == k then [x.item] else [])
  {
    assert (buffer + [x])[..|buffer|] == buffer;
  }

  lemma FromCons(k: nat, buffer: seq<Tagged>)
    requires buffer != []
    ensures From(k, buffer) == (if buffer[0].producer == k then [buffer[0].item] else []) + From(k, buffer[1..])
  {
    assert buffer == [buffer[0]] + buffer[1..];
    FromConcat(k, [buffer[0]], buffer[1..]);
    assert [buffer[0]] == [] + [buffer[0]];
    FromSnoc(k, [], buffer[0]);
  }

  lemma SameQueues(f: Item -> WalEntry, rs: Rings, buffer: seq<Tagged>, rs': Rings, buffer': seq<Tagged>)
    requires |rs'.words| == |rs.words| && forall k :: 0 <= k < |rs.words| ==>
      Pending(rs', buffer', k) == Pending(rs, buffer, k)
    ensures QueuesOf(f, rs', buffer') == QueuesOf(f, rs, buffer)
  {}

  /** An item goes from its ring to the end of the buffer. */
  lemma ReadKeepsPending(rs: Rings, rs': Rings, buffer: seq<Tagged>, i: nat, k: nat)
    requires i < |rs.heads| == |rs.committed| && rs.heads[i] < |rs.committed[i]| && k < |rs.heads|
    requires rs'.committed == rs.committed && rs'.heads == rs.heads[i := rs.heads[i] + 1]
    ensures Pending(rs', buffer + [Tagged(i, rs.committed[i][rs.heads[i]])], k) == Pending(rs, buffer, k)
  {
    var x := rs.committed[i][rs.heads[i]];
    FromSnoc(k, buffer, Tagged(i, x));
    if k == i { assert rs.committed[i][rs.heads[i]..] == [x] + rs.committed[i][rs.heads[i] + 1..]; }
  }

  lemma ReadMoveIsQuiet(f: Item -> WalEntry, j: State, j': State, i: nat)
    requires Inv(j) && RingMoves(j, j', i, Read)
    ensures Inv(j') && Abs(f, j') == Abs(f, j)
  {
    var rs := j.rings;
    MovedOk(rs, i, Read);
    ReadsNext(rs.words[i], rs.ideal[i], rs.committed[i], rs.heads[i], rs.seen[i]);
    AppendNothing(rs.committed, i, NewItems(rs.words[i], Read));
    forall k | 0 <= k < |rs.words| ensures Pending(j'.rings, j'.buffer, k) == Pending(rs, j.buffer, k) {
      ReadKeepsPending(rs, j'.rings, j.buffer, i, k);
    }
    SameQueues(f, rs, j.buffer, j'.rings, j'.buffer);
  }

  lemma IdleMoveIsQuiet(f: Item -> WalEntry, j: State, j': State, i: nat, step: Step)
    requires Inv(j) && RingMoves(j, j', i, step) && !step.Read?
    ensures Inv(j') && Abs(f, j') == Abs(f, j)
  {
    var rs := j.rings;
    MovedOk(rs, i, step);
    IdleMove(rs.words[i], rs.ideal[i], rs.committed[i], rs.heads[i], rs.seen[i], step);
    AppendNothing(rs.committed, i, NewItems(rs.words[i], step));
    assert j'.rings.heads == rs.heads && j'.buffer == j.buffer;
    SameQueues(f, rs, j.buffer, j'.rings, j'.buffer);
  }

  /** A move inside a ring, or from it into the buffer, is nothing to the log. */
  lemma RingMoveIsQuiet(f: Item -> WalEntry, j: State, j': State, i: nat, step: Step)
    requires Inv(j) && RingMoves(j, j', i, step)
    ensures Inv(j') && Abs(f, j') == Abs(f, j)
  {
    if step.Read? { ReadMoveIsQuiet(f, j, j', i); } else { IdleMoveIsQuiet(f, j, j', i, step); }
  }

  lemma CommitAddsPending(rs: Rings, rs': Rings, buffer: seq<Tagged>, i: nat, item: Item, k: nat)
    requires i < |rs.heads| == |rs.committed| && rs.heads[i] <= |rs.committed[i]| && k < |rs.heads|
    requires rs'.heads == rs.heads && rs'.committed == rs.committed[i := rs.committed[i] + [item]]
    ensures Pending(rs', buffer, k) == Pending(rs, buffer, k) + (if k == i then [item] else [])
  {
    if k == i {
      var old_ := rs.committed[i];
      assert (old_ + [item])[rs.heads[i]..] == old_[rs.heads[i]..] + [item];
    }
  }

  lemma CommitHeads(w: Ring, r: Ring, items: seq<Item>, head: nat, seen: nat)
    requires RingOk(w, r, items, head, seen) && Enabled(Wrapping, w, RingRun.Commit(1))
    ensures Enabled(Unbounded, r, RingRun.Commit(1)) && ReadPos(Exec(Unbounded, r, RingRun.Commit(1))) == head
  {
    StepAgrees(r, RingRun.Commit(1));
  }

  lemma CommitQueues(f: Item -> WalEntry, rs: Rings, rs': Rings, buffer: seq<Tagged>, i: nat, item: Item)
    requires i < |rs.heads| == |rs.committed| == |rs.words| == |rs'.words| && rs.heads[i] <= |rs.committed[i]|
    requires rs'.heads == rs.heads && rs'.committed == rs.committed[i := rs.committed[i] + [item]]
    ensures QueuesOf(f, rs', buffer) == QueuesOf(f, rs, buffer)[i := QueuesOf(f, rs, buffer)[i] + [f(item)]]
  {
    var qs, qs' := QueuesOf(f, rs, buffer), QueuesOf(f, rs', buffer);
    forall k | 0 <= k < |qs| ensures qs'[k] == if k == i then qs[k] + [f(item)] else qs[k] {
      CommitAddsPending(rs, rs', buffer, i, item, k);
      EntriesSnoc(f, Pending(rs, buffer, k), item);
    }
  }

  lemma CommitMoves(rs: Rings, i: nat)
    requires RingsOk(rs) && i < |rs.words| && Enabled(Wrapping, rs.words[i], RingRun.Commit(1))
    ensures var rs' := Moved(rs, i, RingRun.Commit(1));
            && RingsOk(rs') && |rs'.words| == |rs.words| && rs'.heads == rs.heads && rs.heads[i] <= |rs.committed[i]|
            && rs'.committed == rs.committed[i := rs.committed[i] + [Published(rs.words[i])]]
  {
    MovedOk(rs, i, RingRun.Commit(1));
    CommitHeads(rs.words[i], rs.ideal[i], rs.committed[i], rs.heads[i], rs.seen[i]);
  }

  /** Committing the envelope is the log's Send step. */
  lemma CommitMoveIsSend(f: Item -> WalEntry, j: State, j': State, i: nat, id: TxId)
    requires Inv(j) && CommitsRecord(f, j, j', i, id)
    ensures Inv(j') && WalRun.SendStep(Abs(f, j), Abs(f, j'), id)
  {
    CommitMoves(j.rings, i);
    CommitQueues(f, j.rings, j'.rings, j.buffer, i, Published(j.rings.words[i]));
  }

  lemma CollectTakesPending(rs: Rings, buffer: seq<Tagged>, k: nat)
    requires buffer != []
    ensures Pending(rs, buffer, k) == (if buffer[0].producer == k then [buffer[0].item] else [])
      + Pending(rs, buffer[1..], k)
  {
    FromCons(k, buffer);
  }

  lemma EntriesHead(f: Item -> WalEntry, item: Item, rest: seq<Item>)
    ensures Entries(f, [item] + rest) == [f(item)] + Entries(f, rest)
  {}

  lemma CollectQueues(f: Item -> WalEntry, rs: Rings, buffer: seq<Tagged>)
    requires buffer != [] && buffer[0].producer < |rs.words|
    ensures var qs, w := QueuesOf(f, rs, buffer), buffer[0].producer;
            qs[w] != [] && qs[w][0] == f(buffer[0].item) && QueuesOf(f, rs, buffer[1..]) == qs[w := qs[w][1..]]
  {
    var qs, qs', x := QueuesOf(f, rs, buffer), QueuesOf(f, rs, buffer[1..]), buffer[0];
    forall k | 0 <= k < |qs| ensures if k == x.producer then qs[k] == [f(x.item)] + qs'[k] else qs[k] == qs'[k] {
      CollectTakesPending(rs, buffer, k);
      if k == x.producer { EntriesHead(f, x.item, Pending(rs, buffer[1..], k)); }
    }
    assert qs[x.producer][1..] == qs'[x.producer];
  }

  /** Collecting from the buffer is the log's Drain step. */
  lemma CollectIsDrain(f: Item -> WalEntry, mode: WalRun.SyncMode, j: State, j': State)
    requires Inv(j) && Collects(f, mode, j, j')
    ensures Inv(j') && WalRun.DrainStep(mode, Abs(f, j), Abs(f, j'), j.buffer[0].producer)
  {
    assert j.buffer[0] in j.buffer;
    CollectQueues(f, j.rings, j.buffer);
  }

  lemma FreshRingsOk(f: Item -> WalEntry, bits: nat, n: nat)
    requires bits <= 63
    ensures RingsOk(FreshRings(bits, n))
  {
    FreshOk(bits);
  }

  lemma LogMoveKeeps(c: Codec, cfg: WalRun.Config, f: Item -> WalEntry, bits: nat, j: State, j': State,
      log: WalRun.Step)
    requires bits <= 63 && Inv(j) && LogMoves(c, cfg, f, bits, j, j', log)
    ensures Inv(j')
  {
    if log.Restart? { FreshRingsOk(f, bits, log.writers); }
  }

  /** One move: nothing to the log, or exactly one step of it. */
  lemma MoveIsLogStep(c: Codec, cfg: WalRun.Config, f: Item -> WalEntry, bits: nat, j: State, j': State, move: Move)
    requires bits <= 63 && Inv(j) && Next(c, cfg, f, bits, j, j', move)
    ensures Inv(j')
    ensures var steps := LogStep(j, move);
            if steps == [] then Abs(f, j') == Abs(f, j) else WalRun.Next(c, cfg, Abs(f, j), Abs(f, j'), steps[0])
  {
    match move
    case RingMove(i, step) => RingMoveIsQuiet(f, j, j', i, step);
    case CommitRecord(i, id) => CommitMoveIsSend(f, j, j', i, id);
    case Collect => CollectIsDrain(f, cfg.mode, j, j');
    case LogMove(log) => LogMoveKeeps(c, cfg, f, bits, j, j', log);
  }

  // ----- Whole runs -----

  function Start(bits: nat): (j: State) { State(WalRun.INIT, FreshRings(bits, 0), []) }

  ghost predicate Run(c: Codec, cfg: WalRun.Config, f: Item -> WalEntry, bits: nat, js: seq<State>, moves: seq<Move>) {
    && |js| == |moves| + 1 && js[0] == Start(bits)
    && forall k :: 0 <= k < |moves| ==> Next(c, cfg, f, bits, js[k], js[k + 1], moves[k])
  }

  /** The log's steps and states in the first k moves. */
  ghost function Steps(js: seq<State>, moves: seq<Move>, k: nat): (steps: seq<WalRun.Step>)
    requires k <= |moves| < |js|
  {
    if k == 0 then [] else Steps(js, moves, k - 1) + LogStep(js[k - 1], moves[k - 1])
  }

  ghost function States(f: Item -> WalEntry, js: seq<State>, moves: seq<Move>, k: nat): (states: seq<WalRun.State>)
    requires k <= |moves| < |js|
  {
    if k == 0 then [Abs(f, js[0])]
    else States(f, js, moves, k - 1) + (if LogStep(js[k - 1], moves[k - 1]) == [] then [] else [Abs(f, js[k])])
  }

  lemma ExtendRun(c: Codec, cfg: WalRun.Config, states: seq<WalRun.State>, steps: seq<WalRun.Step>, s: WalRun.State,
      step: WalRun.Step)
    requires WalTheorems.Run(c, cfg, states, steps) && WalRun.Next(c, cfg, states[|steps|], s, step)
    ensures WalTheorems.Run(c, cfg, states + [s], steps + [step])
  {
    var states', steps' := states + [s], steps + [step];
    forall i | 0 <= i < |steps'| ensures WalRun.Next(c, cfg, states'[i], states'[i + 1], steps'[i]) {
      if i < |steps| { assert WalRun.Next(c, cfg, states[i], states[i + 1], steps[i]); }
    }
  }

  lemma LogStepLen(j: State, move: Move)
    ensures |LogStep(j, move)| <= 1
  {}

  /** A run of the log goes on with what the log sees of a move. */
  lemma ExtendByMove(c: Codec, cfg: WalRun.Config, f: Item -> WalEntry, bits: nat, j: State, j': State, move: Move,
      states: seq<WalRun.State>, steps: seq<WalRun.Step>)
    requires bits <= 63 && Inv(j) && Next(c, cfg, f, bits, j, j', move)
    requires WalTheorems.Run(c, cfg, states, steps) && states[|steps|] == Abs(f, j)
    ensures var states' := states + (if LogStep(j, move) == [] then [] else [Abs(f, j')]);
            var steps' := steps + LogStep(j, move);
            Inv(j') && WalTheorems.Run(c, cfg, states', steps') && states'[|steps'|] == Abs(f, j')
  {
    MoveIsLogStep(c, cfg, f, bits, j, j', move);
    LogStepLen(j, move);
    var step := LogStep(j, move);
    if step == [] {
      assert states + [] == states && steps + [] == steps;
    } else {
      assert step == [step[0]];
      ExtendRun(c, cfg, states, steps, Abs(f, j'), step[0]);
    }
  }

  lemma StartProjects(c: Codec, cfg: WalRun.Config, f: Item -> WalEntry, bits: nat)
    requires bits <= 63
    ensures Inv(Start(bits)) && WalTheorems.Run(c, cfg, [Abs(f, Start(bits))], [])
  {}

  /** Seen from the log, every run of rings, receiver and flusher is a run of the log. */
  lemma {:induction false} ProjectsToRun(c: Codec, cfg: WalRun.Config, f: Item -> WalEntry, bits: nat, js: seq<State>,
      moves: seq<Move>, k: nat)
    requires bits <= 63 && Run(c, cfg, f, bits, js, moves) && k <= |moves|
    ensures Inv(js[k]) && WalTheorems.Run(c, cfg, States(f, js, moves, k), Steps(js, moves, k))
    ensures States(f, js, moves, k)[|Steps(js, moves, k)|] == Abs(f, js[k])
  {
    if k == 0 {
      StartProjects(c, cfg, f, bits);
    } else {
      ProjectsToRun(c, cfg, f, bits, js, moves, k - 1);
      assert Next(c, cfg, f, bits, js[k - 1], js[k], moves[k - 1]);
      ExtendByMove(c, cfg, f, bits, js[k - 1], js[k], moves[k - 1], States(f, js, moves, k - 1),
        Steps(js, moves, k - 1));
    }
  }

  lemma {:induction false} ProjectionGrows(f: Item -> WalEntry, js: seq<State>, moves: seq<Move>, i: nat, k: nat)
    requires i <= k <= |moves| < |js|
    ensures Steps(js, moves, i) <= Steps(js, moves, k) && States(f, js, moves, i) <= States(f, js, moves, k)
    ensures |States(f, js, moves, k)| == |Steps(js, moves, k)| + 1
  {
    if k == 0 {
    } else if i < k {
      ProjectionGrows(f, js, moves, i, k - 1);
      LogStepLen(js[k - 1], moves[k - 1]);
    } else {
      ProjectionGrows(f, js, moves, i - 1, k - 1);
      LogStepLen(js[k - 1], moves[k - 1]);
    }
  }

  /** After n moves the log is in the last of its states so far. */
  ghost predicate Tracks(f: Item -> WalEntry, js: seq<State>, moves: seq<Move>, n: nat)
    requires n <= |moves| < |js|
  {
    var states, steps := States(f, js, moves, n), Steps(js, moves, n);
    |states| == |steps| + 1 && states[|steps|] == Abs(f, js[n])
  }

  /** Log step number m of the first k moves was made by move n. */
  ghost predicate MadeBy(f: Item -> WalEntry, js: seq<State>, moves: seq<Move>, k: nat, m: nat, n: nat)
    requires n < k <= |moves| < |js|
  {
    && m < |Steps(js, moves, k)| && m < |States(f, js, moves, k)|
    && LogStep(js[n], moves[n]) == [Steps(js, moves, k)[m]] && States(f, js, moves, k)[m] == Abs(f, js[n])
  }

  lemma NewLogStep(f: Item -> WalEntry, js: seq<State>, moves: seq<Move>, k: nat, m: nat)
    requires k < |moves| < |js| && Tracks(f, js, moves, k) && |Steps(js, moves, k)| <= m < |Steps(js, moves, k + 1)|
    ensures MadeBy(f, js, moves, k + 1, m, k)
  {
    LogStepLen(js[k], moves[k]);
  }

  lemma OldLogStep(f: Item -> WalEntry, js: seq<State>, moves: seq<Move>, k: nat, m: nat, n: nat)
    requires n < k < |moves| < |js| && MadeBy(f, js, moves, k, m, n)
    ensures MadeBy(f, js, moves, k + 1, m, n)
  {}

  lemma OneMoreMove(js: seq<State>, moves: seq<Move>, i: nat, k: nat, m: nat)
    requires i <= k <= |moves| < |js| && |Steps(js, moves, i)| <= m < |Steps(js, moves, k)|
    ensures i < k
  {}

  /** Log step number m, made after the first i moves, was made by one of the moves since. */
  lemma {:induction false} StepOfMove(f: Item -> WalEntry, js: seq<State>, moves: seq<Move>, i: nat, k: nat, m: nat)
      returns (n: nat)
    requires i <= k <= |moves| < |js| && TracksAll(f, js, moves, k)
    requires |Steps(js, moves, i)| <= m < |Steps(js, moves, k)|
    ensures i <= n < k && MadeBy(f, js, moves, k, m, n)
    decreases k
  {
    OneMoreMove(js, moves, i, k, m);
    TracksBefore(f, js, moves, k);
    if m < |Steps(js, moves, k - 1)| {
      n := StepOfMove(f, js, moves, i, k - 1, m);
      OldLogStep(f, js, moves, k - 1, m, n);
    } else {
      n := k - 1;
      NewLogStep(f, js, moves, k - 1, m);
    }
  }

  ghost predicate TracksAll(f: Item -> WalEntry, js: seq<State>, moves: seq<Move>, k: nat)
    requires k <= |moves| < |js|
  {
    forall n :: 0 <= n <= k ==> Tracks(f, js, moves, n)
  }

  lemma TracksBefore(f: Item -> WalEntry, js: seq<State>, moves: seq<Move>, k: nat)
    requires 0 < k <= |moves| < |js| && TracksAll(f, js, moves, k)
    ensures TracksAll(f, js, moves, k - 1) && Tracks(f, js, moves, k - 1)
  {}

  // ----- What holds of the whole system -----

  /** Every log step of a move is benign: no pipelined fsync fails. */
  ghost predicate Faultless(cfg: WalRun.Config, moves: seq<Move>) {
    forall k :: 0 <= k < |moves| && moves[k].LogMove? ==> WalRun.Benign(cfg, moves[k].log)
  }

  /** The move deletes no segment that holds a record of `id`. */
  ghost predicate Spares(f: Item -> WalEntry, j: State, move: Move, id: TxId) {
    move.LogMove? ==> WalTheorems.Spares(Abs(f, j), move.log, id)
  }

  /** The projection as a run of the log, with the states of two moves found in it. */
  lemma Projection(c: Codec, cfg: WalRun.Config, f: Item -> WalEntry, bits: nat, js: seq<State>, moves: seq<Move>,
      i: nat, k: nat)
    returns (states: seq<WalRun.State>, steps: seq<WalRun.Step>, x: nat)
    requires bits <= 63 && Run(c, cfg, f, bits, js, moves) && i <= k <= |moves|
    ensures states == States(f, js, moves, k) && steps == Steps(js, moves, k) && x == |Steps(js, moves, i)|
    ensures WalTheorems.Run(c, cfg, states, steps) && x <= |steps| && states[x] == Abs(f, js[i])
      && states[|steps|] == Abs(f, js[k])
    ensures TracksAll(f, js, moves, k)
  {
    states, steps, x := States(f, js, moves, k), Steps(js, moves, k), |Steps(js, moves, i)|;
    ProjectsToRun(c, cfg, f, bits, js, moves, k);
    ProjectsToRun(c, cfg, f, bits, js, moves, i);
    ProjectionGrows(f, js, moves, i, k);
    forall n | 0 <= n <= k ensures Tracks(f, js, moves, n) {
      ProjectsToRun(c, cfg, f, bits, js, moves, n);
      ProjectionGrows(f, js, moves, n, n);
    }
  }

  lemma ProjectedStep(cfg: WalRun.Config, f: Item -> WalEntry, js: seq<State>, moves: seq<Move>, k: nat, m: nat, n: nat,
      id: TxId)
    requires n < k <= |moves| < |js| && MadeBy(f, js, moves, k, m, n)
    ensures (moves[n].LogMove? ==> WalRun.Benign(cfg, moves[n].log)) ==> WalRun.Benign(cfg, Steps(js, moves, k)[m])
    ensures Spares(f, js[n], moves[n], id) ==>
      WalTheorems.Spares(States(f, js, moves, k)[m], Steps(js, moves, k)[m], id)
  {}

  /** Durability of the whole system: once the waiter of a transaction has been notified, recovery
      after any later moves of writers, rings, receiver, flusher and disk, with any number of
      crashes and restarts, reports it as committed with exactly its entries in order. */
  lemma JointDurability(c: Codec, cfg: WalRun.Config, f: Item -> WalEntry, bits: nat, js: seq<State>, moves: seq<Move>,
                        i: nat, k: nat, cuts: seq<nat>, id: TxId, entries: seq<WalEntry>)
    requires Lawful(c) && bits <= 63 && Run(c, cfg, f, bits, js, moves) && Faultless(cfg, moves) && i <= k <= |moves|
    requires WalTheorems.Acked(js[i].base, id, entries)
    requires forall n :: i <= n < k ==> Spares(f, js[n], moves[n], id)
    requires WalRun.Cuts(js[k].base.files, cuts)
    ensures WalTheorems.Recovers(c, WalRun.CrashFiles(c, js[k].base.files, cuts), id, Log.CommitAction, entries)
  {
    var states, steps, x := Projection(c, cfg, f, bits, js, moves, i, k);
    AllBenign(cfg, f, js, moves, k);
    AllSpared(cfg, f, js, moves, i, k, id);
    WalTheorems.Durability(c, cfg, states, steps, x, |steps|, cuts, id, entries);
  }

  lemma AllBenign(cfg: WalRun.Config, f: Item -> WalEntry, js: seq<State>, moves: seq<Move>, k: nat)
    requires k <= |moves| < |js| && TracksAll(f, js, moves, k) && Faultless(cfg, moves)
    ensures WalTheorems.Faultless(cfg, Steps(js, moves, k))
  {
    var steps := Steps(js, moves, k);
    forall m | 0 <= m < |steps| ensures WalRun.Benign(cfg, steps[m]) {
      var n := StepOfMove(f, js, moves, 0, k, m);
      ProjectedStep(cfg, f, js, moves, k, m, n, 0);
    }
  }

  lemma AllSpared(cfg: WalRun.Config, f: Item -> WalEntry, js: seq<State>, moves: seq<Move>, i: nat, k: nat, id: TxId)
    requires i <= k <= |moves| < |js| && TracksAll(f, js, moves, k)
    requires forall n :: i <= n < k ==> Spares(f, js[n], moves[n], id)
    ensures var states, steps := States(f, js, moves, k), Steps(js, moves, k);
            |states| == |steps| + 1 &&
            forall m :: |Steps(js, moves, i)| <= m < |steps| ==> WalTheorems.Spares(states[m], steps[m], id)
  {
    var states, steps := States(f, js, moves, k), Steps(js, moves, k);
    assert Tracks(f, js, moves, k);
    forall m | |Steps(js, moves, i)| <= m < |steps| ensures WalTheorems.Spares(states[m], steps[m], id) {
      var n := StepOfMove(f, js, moves, i, k, m);
      ProjectedStep(cfg, f, js, moves, k, m, n, id);
    }
  }

  /** End to end over the whole system: after any moves, a crash at any point and recovery, each key
      that an acknowledged transaction wrote holds the value it wrote last, provided no other
      recovered commit wrote that key. */
  lemma JointWriteSurvives(c: Codec, cfg: WalRun.Config, f: Item -> WalEntry, bits: nat, js: seq<State>,
      moves: seq<Move>, i: nat, k: nat, cuts: seq<nat>, id: TxId, entries: seq<WalEntry>, dir: Recovery.Dir,
      txs: seq<Recovery.RecoveredTransaction>, m: Store.Table, key: Key)
    requires Lawful(c) && bits <= 63 && Run(c, cfg, f, bits, js, moves) && Faultless(cfg, moves) && i <= k <= |moves|
    requires WalTheorems.Acked(js[i].base, id, entries)
    requires forall n :: i <= n < k ==> Spares(f, js[n], moves[n], id)
    requires WalRun.Cuts(js[k].base.files, cuts) && EndToEnd.Stores(dir, WalRun.CrashFiles(c, js[k].base.files, cuts))
    requires Recovery.Recovered(Recovery.DirLog(c, dir), txs) && Store.OnKey(entries, key) != []
    requires forall other: TxId :: Store.Touches(other, Recovery.DirLog(c, dir), key) ==> other == id
    ensures Recovery.RecoveredTransaction(id, Log.CommitAction, entries) in txs
    ensures Store.Slot(Store.ApplyAll(m, Store.Replayed(txs)), key)
      == Store.Effect(Store.Last(Store.OnKey(entries, key)))
  {
    var states, steps, x := Projection(c, cfg, f, bits, js, moves, i, k);
    AllBenign(cfg, f, js, moves, k);
    AllSpared(cfg, f, js, moves, i, k, id);
    EndToEnd.AcknowledgedWriteSurvives(c, cfg, states, steps, x, |steps|, cuts, id, entries, dir, txs, m, key);
  }
}
