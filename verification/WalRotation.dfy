/** Truncation inside a rotation: a run in which a checkpoint deletes a segment whose last record
    is still in the application's buffer, and with it an operation of a transaction that commits
    afterwards. */
module WalRotation {
  import opened LittleEndian
  import opened Entry
  import opened Parser
  import opened Disk
  import opened Log
  import opened WalRun
  import opened WalInvariant
  import opened WalCrash
  import opened WalTheorems
  import opened Witness
  import opened Recovery

  const C2 := WalEntry.Commit(2, 0)
  const C3 := WalEntry.Commit(3, 0)
  const C4 := WalEntry.Commit(4, 0)

  /** The records fit, and belong to transactions 1 and 4. */
  ghost predicate Ops(c: Codec, op: WalEntry, op4: WalEntry) {
    && !op.IsMarker() && !op4.IsMarker() && op.txId == 1 && op4.txId == 4 && Fits(c, op) && Fits(c, op4)
    && Fits(c, COMMIT) && Fits(c, C2) && Fits(c, C3) && Fits(c, C4)
  }

  /** A process with one ring and four transactions begun. */
  function St(fs: seq<File>, queue: seq<WalEntry>, batch: seq<WalEntry>, waiters: seq<TxId>, phase: Phase,
      jobs: seq<Job>,
              txs: map<TxId, Tx>, lost: set<TxId>): (s: State)
  {
    State(fs, Some(Proc([queue], batch, waiters, phase, jobs, jobs, 5)), txs, lost)
  }

  function NewTx(entries: seq<WalEntry>, marker: WalEntry): (t: Tx) { Tx(0, entries, marker, 0, true, false, false) }

  /** The four transactions after their Begin. */
  function Begun4(op: WalEntry, op4: WalEntry): (txs: map<TxId, Tx>) {
    map[1 := NewTx([op, op], COMMIT), 2 := NewTx([], C2), 3 := NewTx([], C3), 4 := NewTx([op4], C4)]
  }

  // ----- Single steps -----

  lemma BeginOne(c: Codec, cfg: Config, s: State, id: TxId, entries: seq<WalEntry>, marker: WalEntry)
      returns (s': State)
    requires s.files == OneFile(NOTHING, []) && s.proc == Some(Proc([[]], [], [], Collect, [], [], id))
      && s.truncated == {}
    requires marker.Commit? && marker.txId == id && FitsAll(c, entries) && Fits(c, marker)
    requires forall e :: e in entries ==> e.txId == id && !e.IsMarker()
    ensures s' == State(s.files, Some(Proc([[]], [], [], Collect, [], [], id + 1)), s.txs[id := NewTx(entries, marker)],
      {})
    ensures Next(c, cfg, s, s', Begin(0, entries, marker))
  {
    s' := State(s.files, Some(Proc([[]], [], [], Collect, [], [], id + 1)), s.txs[id := NewTx(entries, marker)], {});
    assert s.truncated - {id} == {};
  }

  lemma BeginAll(c: Codec, cfg: Config, op: WalEntry, op4: WalEntry) returns (states: seq<State>, steps: seq<Step>)
    requires Ops(c, op, op4)
    ensures |steps| == 5 && Leads(c, cfg, states, steps,
      St(OneFile(NOTHING, []), [], [], [], Collect, [], Begun4(op, op4), {}))
    ensures states[0] == INIT && forall i :: 0 <= i < 5 ==> Benign(cfg, steps[i])
  {
    var s1 := Started(c, cfg);
    var s2 := BeginOne(c, cfg, s1, 1, [op, op], COMMIT);
    var s3 := BeginOne(c, cfg, s2, 2, [], C2);
    var s4 := BeginOne(c, cfg, s3, 3, [], C3);
    var s5 := BeginOne(c, cfg, s4, 4, [op4], C4);
    assert s5.txs == Begun4(op, op4);
    states := [INIT, s1, s2, s3, s4, s5];
    steps := [Restart(1, 1), Begin(0, [op, op], COMMIT), Begin(0, [], C2), Begin(0, [], C3), Begin(0, [op4], C4)];
  }

  lemma SendOne(c: Codec, cfg: Config, queue: seq<WalEntry>, txs: map<TxId, Tx>, id: TxId, x: WalEntry)
      returns (s: State, s': State)
    requires id in txs && txs[id].alive && txs[id].writer == 0 && txs[id].sent < |txs[id].Script()|
      && txs[id].Script()[txs[id].sent] == x
    ensures s == St(OneFile(NOTHING, []), queue, [], [], Collect, [], txs, {})
    ensures s' == St(OneFile(NOTHING, []), queue + [x], [], [], Collect, [],
      txs[id := txs[id].(sent := txs[id].sent + 1)], {})
    ensures Next(c, cfg, s, s', Send(id))
  {
    s := St(OneFile(NOTHING, []), queue, [], [], Collect, [], txs, {});
    s' := St(OneFile(NOTHING, []), queue + [x], [], [], Collect, [], txs[id := txs[id].(sent := txs[id].sent + 1)], {});
    assert [queue][0 := queue + [x]] == [queue + [x]];
  }

  lemma DrainOne(c: Codec, cfg: Config, queue: seq<WalEntry>, batch: seq<WalEntry>, waiters: seq<TxId>,
      txs: map<TxId, Tx>)
    returns (s: State, s': State)
    requires queue != []
    ensures s == St(OneFile(NOTHING, []), queue, batch, waiters, Collect, [], txs, {})
    ensures s' == St(OneFile(NOTHING, []), queue[1..], batch + [queue[0]],
                     if queue[0].Commit? then waiters + [queue[0].txId] else waiters, Collect, [], txs, {})
    ensures Next(c, cfg, s, s', Drain(0))
  {
    s := St(OneFile(NOTHING, []), queue, batch, waiters, Collect, [], txs, {});
    s' := St(OneFile(NOTHING, []), queue[1..], batch + [queue[0]],
             if queue[0].Commit? then waiters + [queue[0].txId] else waiters, Collect, [], txs, {});
    assert [queue][0 := queue[1..]] == [queue[1..]];
  }

  // ----- Building the run -----

  /** A run without failures that ends in `s`. */
  ghost predicate RunTo(c: Codec, cfg: Config, states: seq<State>, steps: seq<Step>, s: State) {
    Run(c, cfg, states, steps) && Faultless(cfg, steps) && states[|steps|] == s
  }

  lemma Go(c: Codec, cfg: Config, states: seq<State>, steps: seq<Step>, s: State, step: Step, s': State)
      returns (states': seq<State>, steps': seq<Step>)
    requires RunTo(c, cfg, states, steps, s) && Next(c, cfg, s, s', step) && Benign(cfg, step)
    ensures RunTo(c, cfg, states', steps', s') && steps' == steps + [step] && states' == states + [s']
  {
    states', steps' := states + [s'], steps + [step];
    forall i | 0 <= i < |steps'| ensures Next(c, cfg, states'[i], states'[i + 1], steps'[i]) {
      if i < |steps| { assert Next(c, cfg, states[i], states[i + 1], steps[i]); }
    }
  }

  /** The batch that the flusher will write. */
  function Batch(op: WalEntry, op4: WalEntry): (es: seq<WalEntry>) { [op, C3, op, op4, C4] }

  function Sent1(txs: map<TxId, Tx>, id: TxId): (r: map<TxId, Tx>)
    requires id in txs
  {
    txs[id := txs[id].(sent := txs[id].sent + 1)]
  }

  /** All five records are in the ring. */
  function AllSent(op: WalEntry, op4: WalEntry): (txs: map<TxId, Tx>)
    ensures 4 in txs && txs[4].entries == [op4] && 3 in txs && txs[3].entries == []
  {
    Sent1(Sent1(Sent1(Sent1(Sent1(Begun4(op, op4), 1), 3), 1), 4), 4)
  }

  /** `x` is what transaction `id` sends next. */
  predicate Sends(txs: map<TxId, Tx>, id: TxId, x: WalEntry) {
    && id in txs && txs[id].alive && txs[id].writer == 0
    && txs[id].sent < |txs[id].Script()| && txs[id].Script()[txs[id].sent] == x
  }

  lemma SendIn(c: Codec, cfg: Config, states: seq<State>, steps: seq<Step>, queue: seq<WalEntry>, txs: map<TxId, Tx>,
      id: TxId, x: WalEntry)
    returns (states': seq<State>, steps': seq<Step>)
    requires RunTo(c, cfg, states, steps, St(OneFile(NOTHING, []), queue, [], [], Collect, [], txs, {}))
      && Sends(txs, id, x)
    ensures RunTo(c, cfg, states', steps',
      St(OneFile(NOTHING, []), queue + [x], [], [], Collect, [], Sent1(txs, id), {}))
    ensures |steps'| == |steps| + 1
  {
    var a, b := SendOne(c, cfg, queue, txs, id, x);
    states', steps' := Go(c, cfg, states, steps, a, Send(id), b);
  }

  lemma FiveSends(op: WalEntry, op4: WalEntry)
    ensures var t0 := Begun4(op, op4);
            && Sends(t0, 1, op) && Sends(Sent1(t0, 1), 3, C3) && Sends(Sent1(Sent1(t0, 1), 3), 1, op)
            && Sends(Sent1(Sent1(Sent1(t0, 1), 3), 1), 4, op4)
              && Sends(Sent1(Sent1(Sent1(Sent1(t0, 1), 3), 1), 4), 4, C4)
  {}

  lemma SendFive(c: Codec, cfg: Config, op: WalEntry, op4: WalEntry, states: seq<State>, steps: seq<Step>)
      returns (states': seq<State>, steps': seq<Step>)
    requires RunTo(c, cfg, states, steps, St(OneFile(NOTHING, []), [], [], [], Collect, [], Begun4(op, op4), {}))
    ensures RunTo(c, cfg, states', steps',
      St(OneFile(NOTHING, []), Batch(op, op4), [], [], Collect, [], AllSent(op, op4), {}))
    ensures |steps'| == |steps| + 5
  {
    FiveSends(op, op4);
    var t := Begun4(op, op4);
    var q: seq<WalEntry> := [];
    states', steps' := SendIn(c, cfg, states, steps, q, t, 1, op);
    q, t := q + [op], Sent1(t, 1);
    states', steps' := SendIn(c, cfg, states', steps', q, t, 3, C3);
    q, t := q + [C3], Sent1(t, 3);
    states', steps' := SendIn(c, cfg, states', steps', q, t, 1, op);
    q, t := q + [op], Sent1(t, 1);
    states', steps' := SendIn(c, cfg, states', steps', q, t, 4, op4);
    q, t := q + [op4], Sent1(t, 4);
    states', steps' := SendIn(c, cfg, states', steps', q, t, 4, C4);
    assert q + [C4] == Batch(op, op4);
  }

  lemma DrainIn(c: Codec, cfg: Config, states: seq<State>, steps: seq<Step>, queue: seq<WalEntry>, batch: seq<WalEntry>,
      waiters: seq<TxId>, txs: map<TxId, Tx>)
    returns (states': seq<State>, steps': seq<Step>)
    requires queue != [] && RunTo(c, cfg, states, steps,
      St(OneFile(NOTHING, []), queue, batch, waiters, Collect, [], txs, {}))
    ensures RunTo(c, cfg, states', steps', St(OneFile(NOTHING, []), queue[1..], batch + [queue[0]],
                  if queue[0].Commit? then waiters + [queue[0].txId] else waiters, Collect, [], txs, {}))
    ensures |steps'| == |steps| + 1
  {
    var a, b := DrainOne(c, cfg, queue, batch, waiters, txs);
    states', steps' := Go(c, cfg, states, steps, a, Drain(0), b);
  }

  /** The waiters that draining `es` queues. */
  function WaitersOf(es: seq<WalEntry>): (ids: seq<TxId>) {
    if es == [] then [] else WaitersOf(es[..|es| - 1]) + (if es[|es| - 1].Commit? then [es[|es| - 1].txId] else [])
  }

  lemma NextDrained(all: seq<WalEntry>, n: nat)
    requires 0 < n <= |all|
    ensures all[n - 1..] != [] && all[n - 1..][0] == all[n - 1] && all[n - 1..][1..] == all[n..]
    ensures all[..n - 1] + [all[n - 1]] == all[..n]
    ensures WaitersOf(all[..n])
      == if all[n - 1].Commit? then WaitersOf(all[..n - 1]) + [all[n - 1].txId] else WaitersOf(all[..n - 1])
  {
    assert all[..n][..n - 1] == all[..n - 1];
    assert WaitersOf(all[..n - 1]) + [] == WaitersOf(all[..n - 1]);
  }

  /** Draining the first n of the records. */
  lemma {:induction false} DrainSome(c: Codec, cfg: Config, all: seq<WalEntry>, n: nat, txs: map<TxId, Tx>,
      states: seq<State>, steps: seq<Step>)
    returns (states': seq<State>, steps': seq<Step>)
    requires n <= |all| && RunTo(c, cfg, states, steps, St(OneFile(NOTHING, []), all, [], [], Collect, [], txs, {}))
    ensures RunTo(c, cfg, states', steps',
      St(OneFile(NOTHING, []), all[n..], all[..n], WaitersOf(all[..n]), Collect, [], txs, {}))
    ensures |steps'| == |steps| + n
    decreases n
  {
    if n == 0 {
      states', steps' := states, steps;
      assert all[0..] == all && all[..0] == [];
    } else {
      states', steps' := DrainSome(c, cfg, all, n - 1, txs, states, steps);
      states', steps' := DrainIn(c, cfg, states', steps', all[n - 1..], all[..n - 1], WaitersOf(all[..n - 1]), txs);
      NextDrained(all, n);
    }
  }

  lemma TwoWaiters(op: WalEntry, op4: WalEntry)
    requires !op.IsMarker() && !op4.IsMarker()
    ensures WaitersOf(Batch(op, op4)) == [3, 4]
  {
    var b := Batch(op, op4);
    assert b[..4] == [op, C3, op, op4] && b[..4][..3] == [op, C3, op] && b[..4][..3][..2] == [op, C3]
      && b[..4][..3][..2][..1] == [op];
    assert [op][..0] == [];
    assert WaitersOf([op]) == [];
    assert WaitersOf([op, C3]) == [3];
    assert WaitersOf([op, C3, op]) == [3];
    assert WaitersOf([op, C3, op, op4]) == [3];
  }

  // ----- Writing the batch -----

  /** The flusher is writing `batch`. */
  function Wr(fs: seq<File>, batch: seq<WalEntry>, phase: Phase, txs: map<TxId, Tx>, lost: set<TxId>): (s: State) {
    St(fs, [], batch, [3, 4], phase, [], txs, lost)
  }

  lemma AppendIn(c: Codec, cfg: Config, states: seq<State>, steps: seq<Step>, fs: seq<File>, batch: seq<WalEntry>,
      done: nat, txs: map<TxId, Tx>, lost: set<TxId>)
    returns (states': seq<State>, steps': seq<Step>)
    requires fs != [] && done < |batch| && (NeedsRotation(cfg, Last(fs)) ==> Last(fs).log == [])
    requires RunTo(c, cfg, states, steps, Wr(fs, batch, Write(done), txs, lost))
    ensures RunTo(c, cfg, states', steps',
      Wr(fs[|fs| - 1 := AppendFile(c, Last(fs), batch[done])], batch, Write(done + 1), txs, lost))
    ensures steps' == steps + [Append]
  {
    var s := Wr(fs, batch, Write(done), txs, lost);
    var s' := Wr(fs[|fs| - 1 := AppendFile(c, Last(fs), batch[done])], batch, Write(done + 1), txs, lost);
    states', steps' := Go(c, cfg, states, steps, s, Append, s');
  }

  lemma OpenIn(c: Codec, cfg: Config, states: seq<State>, steps: seq<Step>, fs: seq<File>, batch: seq<WalEntry>,
      done: nat, txs: map<TxId, Tx>, lost: set<TxId>)
    returns (states': seq<State>, steps': seq<Step>)
    requires fs != [] && done < |batch| && NeedsRotation(cfg, Last(fs))
    requires RunTo(c, cfg, states, steps, Wr(fs, batch, Write(done), txs, lost))
    ensures RunTo(c, cfg, states', steps',
      Wr(fs + [File(Last(fs).id + 1, NOTHING, [], [])], batch, Rotating(done, Last(fs).id), txs, lost))
    ensures steps' == steps + [OpenSegment]
  {
    var s := Wr(fs, batch, Write(done), txs, lost);
    var s' := Wr(fs + [File(Last(fs).id + 1, NOTHING, [], [])], batch, Rotating(done, Last(fs).id), txs, lost);
    states', steps' := Go(c, cfg, states, steps, s, OpenSegment, s');
  }

  lemma SealIn(c: Codec, cfg: Config, states: seq<State>, steps: seq<Step>, fs: seq<File>, batch: seq<WalEntry>,
      done: nat, sealing: nat, txs: map<TxId, Tx>, lost: set<TxId>)
    returns (states': seq<State>, steps': seq<Step>)
    requires RunTo(c, cfg, states, steps, Wr(fs, batch, Rotating(done, sealing), txs, lost))
    ensures RunTo(c, cfg, states', steps', Wr(SealFile(fs, sealing), batch, Write(done), txs, lost))
      && steps' == steps + [SealOld]
  {
    var s, s' := Wr(fs, batch, Rotating(done, sealing), txs, lost),
      Wr(SealFile(fs, sealing), batch, Write(done), txs, lost);
    states', steps' := Go(c, cfg, states, steps, s, SealOld, s');
  }

  /** The buffered writer of the last file spills what it holds to the kernel. */
  lemma SpillIn(c: Codec, cfg: Config, states: seq<State>, steps: seq<Step>, fs: seq<File>, f: File, bytes: Bytes,
      batch: seq<WalEntry>, done: nat, txs: map<TxId, Tx>)
    returns (states': seq<State>, steps': seq<Step>)
    requires f.tiers == Tiers([], [], bytes) && RunTo(c, cfg, states, steps, Wr(fs + [f], batch, Write(done), txs, {}))
    ensures RunTo(c, cfg, states', steps', Wr(fs + [f.(tiers := Tiers([], bytes, []))], batch, Write(done), txs, {}))
    ensures steps' == steps + [Writeback(|fs|, 0, |bytes|)]
  {
    var s, s' := Wr(fs + [f], batch, Write(done), txs, {}),
      Wr(fs + [f.(tiers := Tiers([], bytes, []))], batch, Write(done), txs, {});
    assert f.tiers.All() == bytes && f.tiers.Advance(0, |bytes|) == Tiers([], bytes, []);
    assert (fs + [f])[|fs| := f.(tiers := Tiers([], bytes, []))] == s'.files;
    states', steps' := Go(c, cfg, states, steps, s, Writeback(|fs|, 0, |bytes|), s');
  }

  lemma TruncateIn(c: Codec, cfg: Config, states: seq<State>, steps: seq<Step>, fs: seq<File>, batch: seq<WalEntry>,
      phase: Phase, txs: map<TxId, Tx>,
                   removed: set<nat>, checkpoint: nat, views: seq<nat>)
    returns (states': seq<State>, steps': seq<Step>)
    requires fs != [] && Views(fs, views) && RunTo(c, cfg, states, steps, Wr(fs, batch, phase, txs, {}))
    requires forall i :: 0 <= i < |fs| && fs[i].id in removed ==>
      i < |fs| - 1 && 0 < ScanMaxId(c, fs[i].tiers.All()[..views[i]]) < checkpoint
    ensures RunTo(c, cfg, states', steps', Wr(Keep(fs, removed), batch, phase, txs, {} + LostIds(fs, removed)))
    ensures steps' == steps + [Truncate(removed, checkpoint, views)]
  {
    var s, s' := Wr(fs, batch, phase, txs, {}), Wr(Keep(fs, removed), batch, phase, txs, {} + LostIds(fs, removed));
    states', steps' := Go(c, cfg, states, steps, s, Truncate(removed, checkpoint, views), s');
  }

  lemma EndIn(c: Codec, cfg: Config, states: seq<State>, steps: seq<Step>, fs: seq<File>, f: File, batch: seq<WalEntry>,
      txs: map<TxId, Tx>, lost: set<TxId>)
    returns (states': seq<State>, steps': seq<Step>)
    requires RunTo(c, cfg, states, steps, Wr(fs + [f], batch, Write(|batch|), txs, lost))
    ensures RunTo(c, cfg, states', steps',
      St(fs + [f.(tiers := f.tiers.Flush())], [], [], [], Collect, [Job(f.id, |f.log|, [3, 4])], txs, lost))
    ensures steps' == steps + [EndBatch]
  {
    var s := Wr(fs + [f], batch, Write(|batch|), txs, lost);
    var s' := St(fs + [f.(tiers := f.tiers.Flush())], [], [], [], Collect, [Job(f.id, |f.log|, [3, 4])], txs, lost);
    assert (fs + [f])[|fs| := f.(tiers := f.tiers.Flush())] == s'.files;
    assert [] + [Job(f.id, |f.log|, [3, 4])] == [Job(f.id, |f.log|, [3, 4])];
    states', steps' := Go(c, cfg, states, steps, s, EndBatch, s');
  }

  lemma Acknowledged(txs: map<TxId, Tx>, job: Job)
    requires 4 in txs && 4 in job.waiters
    ensures var txs' := AckAll(SecureAll(txs, [job], job), job.waiters);
            txs'.Keys == txs.Keys && txs'[4].acked && txs'[4].entries == txs[4].entries
  {}

  lemma SecondSynced(g: File, f: File, bytes: Bytes)
    requires f.tiers == Tiers([], bytes, []) && g.id != f.id
    ensures SyncFile([g, f], f.id, |bytes|) == [g, f.(tiers := Tiers(bytes, [], []))]
  {
    assert f.tiers.All() == bytes && f.tiers.Advance(|bytes|, |bytes|) == Tiers(bytes, [], []);
  }

  lemma SyncOne(c: Codec, g: File, f: File, bytes: Bytes, txs: map<TxId, Tx>, lost: set<TxId>) returns (s': State)
    requires f.tiers == Tiers([], bytes, []) && g.id != f.id && |Frames(c, f.log)| <= |bytes| && 3 in txs && 4 in txs
    ensures SyncOkStep(c, St([g, f], [], [], [], Collect, [Job(f.id, |f.log|, [3, 4])], txs, lost), s', 0, |bytes|)
    ensures s'.files == [g, f.(tiers := Tiers(bytes, [], []))] && s'.truncated == lost
    ensures s'.txs.Keys == txs.Keys && s'.txs[4].acked && s'.txs[4].entries == txs[4].entries
  {
    var job := Job(f.id, |f.log|, [3, 4]);
    var s := St([g, f], [], [], [], Collect, [job], txs, lost);
    assert f.log[..|f.log|] == f.log;
    SecondSynced(g, f, bytes);
    s' := s.(files := SyncFile(s.files, f.id, |bytes|), proc := Some(s.proc.value.(jobs := Without([job], 0))),
             txs := AckAll(SecureAll(txs, [job], job), [3, 4]));
    Acknowledged(txs, job);
  }

  /** The fsync of the only job, on a file whose bytes are all in the kernel. */
  lemma SyncIn(c: Codec, cfg: Config, states: seq<State>, steps: seq<Step>, g: File, f: File, bytes: Bytes,
      txs: map<TxId, Tx>, lost: set<TxId>)
    returns (states': seq<State>, steps': seq<Step>, s': State)
    requires f.tiers == Tiers([], bytes, []) && g.id != f.id && |Frames(c, f.log)| <= |bytes| && 3 in txs && 4 in txs
    requires RunTo(c, cfg, states, steps, St([g, f], [], [], [], Collect, [Job(f.id, |f.log|, [3, 4])], txs, lost))
    ensures RunTo(c, cfg, states', steps', s') && s'.files == [g, f.(tiers := Tiers(bytes, [], []))]
    ensures s'.txs.Keys == txs.Keys && s'.txs[4].acked && s'.txs[4].entries == txs[4].entries && s'.truncated == lost
    ensures steps' == steps + [SyncOk(0, |bytes|)]
  {
    var s := St([g, f], [], [], [], Collect, [Job(f.id, |f.log|, [3, 4])], txs, lost);
    s' := SyncOne(c, g, f, bytes, txs, lost);
    states', steps' := Go(c, cfg, states, steps, s, SyncOk(0, |bytes|), s');
  }

  // ----- The run -----

  /** The segments of the run: the first sealed, the second with its last record still buffered. */
  function Segment1(c: Codec, op: WalEntry): (f: File) {
    File(1, Tiers(Frame(c, op) + Frame(c, C3), [], []), [op, C3], [])
  }

  function Segment2(c: Codec, op: WalEntry, op4: WalEntry): (f: File) {
    File(2, Tiers([], Frame(c, op), Frame(c, op4)), [op, op4], [])
  }

  function Conf(c: Codec, op: WalEntry): (cfg: Config) { Config(Waiting, |Frame(c, op)| + 1) }

  lemma WriteFirst(c: Codec, op: WalEntry, op4: WalEntry, txs: map<TxId, Tx>, states: seq<State>, steps: seq<Step>)
    returns (states': seq<State>, steps': seq<Step>)
    requires RunTo(c, Conf(c, op), states, steps, Wr(OneFile(NOTHING, []), Batch(op, op4), Write(0), txs, {}))
    ensures RunTo(c, Conf(c, op), states', steps',
                  Wr(OneFile(Tiers([], [], Frame(c, op) + Frame(c, C3)), [op, C3]), Batch(op, op4), Write(2), txs, {}))
    ensures |steps'| == |steps| + 2
  {
    var cfg, batch, a, b := Conf(c, op), Batch(op, op4), Frame(c, op), Frame(c, C3);
    states', steps' := AppendIn(c, cfg, states, steps, OneFile(NOTHING, []), batch, 0, txs, {});
    var f1 := OneFile(Tiers([], [], a), [op]);
    assert [] + a == a && [] + [op] == [op];
    assert OneFile(NOTHING, [])[0 := AppendFile(c, Last(OneFile(NOTHING, [])), op)] == f1;
    assert Tiers([], [], a).All() == a;
    states', steps' := AppendIn(c, cfg, states', steps', f1, batch, 1, txs, {});
    var f2 := OneFile(Tiers([], [], a + b), [op, C3]);
    assert [op] + [C3] == [op, C3];
    assert f1[0 := AppendFile(c, Last(f1), C3)] == f2;
  }

  lemma RotateFirst(c: Codec, op: WalEntry, op4: WalEntry, txs: map<TxId, Tx>, states: seq<State>, steps: seq<Step>)
    returns (states': seq<State>, steps': seq<Step>)
    requires RunTo(c, Conf(c, op), states, steps,
                   Wr(OneFile(Tiers([], [], Frame(c, op) + Frame(c, C3)), [op, C3]), Batch(op, op4), Write(2), txs, {}))
    ensures RunTo(c, Conf(c, op), states', steps',
      Wr([Segment1(c, op), File(2, NOTHING, [], [])], Batch(op, op4), Write(2), txs, {}))
    ensures |steps'| == |steps| + 2
  {
    var cfg, batch, x := Conf(c, op), Batch(op, op4), Frame(c, op) + Frame(c, C3);
    var fs := OneFile(Tiers([], [], x), [op, C3]);
    assert Tiers([], [], x).All() == x;
    states', steps' := OpenIn(c, cfg, states, steps, fs, batch, 2, txs, {});
    var fs' := fs + [File(2, NOTHING, [], [])];
    states', steps' := SealIn(c, cfg, states', steps', fs', batch, 2, 1, txs, {});
    assert Tiers([], [], x).Sync() == Tiers(x, [], []);
    assert SealFile(fs', 1) == [Segment1(c, op), File(2, NOTHING, [], [])];
  }

  lemma WriteSecond(c: Codec, op: WalEntry, op4: WalEntry, txs: map<TxId, Tx>, states: seq<State>, steps: seq<Step>)
    returns (states': seq<State>, steps': seq<Step>)
    requires RunTo(c, Conf(c, op), states, steps,
      Wr([Segment1(c, op), File(2, NOTHING, [], [])], Batch(op, op4), Write(2), txs, {}))
    ensures RunTo(c, Conf(c, op), states', steps',
      Wr([Segment1(c, op), Segment2(c, op, op4)], Batch(op, op4), Write(4), txs, {}))
    ensures |steps'| == |steps| + 3
  {
    var cfg, batch, a, d, g := Conf(c, op), Batch(op, op4), Frame(c, op), Frame(c, op4), Segment1(c, op);
    var f0, f1, f2 := File(2, NOTHING, [], []), File(2, Tiers([], [], a), [op], []),
      File(2, Tiers([], a, []), [op], []);
    states', steps' := AppendIn(c, cfg, states, steps, [g, f0], batch, 2, txs, {});
    assert [] + a == a && [] + [op] == [op];
    assert [g, f0][1 := AppendFile(c, f0, op)] == [g] + [f1];
    states', steps' := SpillIn(c, cfg, states', steps', [g], f1, a, batch, 3, txs);
    assert [g] + [f2] == [g, f2] && f2.tiers.All() == a;
    states', steps' := AppendIn(c, cfg, states', steps', [g, f2], batch, 3, txs, {});
    assert [] + d == d && [op] + [op4] == [op, op4];
    assert [g, f2][1 := AppendFile(c, f2, op4)] == [g, Segment2(c, op, op4)];
  }

  /** What the checkpoint task reads: segment 1, and of segment 2 what its writer has flushed. */
  function InView(c: Codec, op: WalEntry): (views: seq<nat>) { [|Frame(c, op) + Frame(c, C3)|, |Frame(c, op)|, 0] }

  lemma InViewOk(c: Codec, op: WalEntry, op4: WalEntry)
    requires Lawful(c) && Ops(c, op, op4)
    ensures var fs, views := [Segment1(c, op), Segment2(c, op, op4), File(3, NOTHING, [], [])], InView(c, op);
            && Views(fs, views)
            && forall i :: 0 <= i < |fs| && fs[i].id in {2} ==>
              i < |fs| - 1 && 0 < ScanMaxId(c, fs[i].tiers.All()[..views[i]]) < 3
  {
    var fs, views := [Segment1(c, op), Segment2(c, op, op4), File(3, NOTHING, [], [])], InView(c, op);
    ViewOfSecond(c, op, op4);
    assert fs[0].tiers.All() == Frame(c, op) + Frame(c, C3) && fs[2].tiers.All() == [];
    assert Views(fs, views);
  }

  lemma OpenThird(c: Codec, op: WalEntry, op4: WalEntry, txs: map<TxId, Tx>, states: seq<State>, steps: seq<Step>)
    returns (states': seq<State>, steps': seq<Step>)
    requires RunTo(c, Conf(c, op), states, steps,
      Wr([Segment1(c, op), Segment2(c, op, op4)], Batch(op, op4), Write(4), txs, {}))
    ensures RunTo(c, Conf(c, op), states', steps',
                  Wr([Segment1(c, op), Segment2(c, op, op4), File(3, NOTHING, [], [])], Batch(op, op4), Rotating(4, 2),
                    txs, {}))
    ensures steps' == steps + [OpenSegment]
  {
    var f1, f2, f3 := Segment1(c, op), Segment2(c, op, op4), File(3, NOTHING, [], []);
    assert f2.tiers.All() == Frame(c, op) + Frame(c, op4);
    states', steps' := OpenIn(c, Conf(c, op), states, steps, [f1, f2], Batch(op, op4), 4, txs, {});
    assert [f1, f2] + [f3] == [f1, f2, f3];
  }

  /** The next rotation has begun when the checkpoint task deletes segment 2, of which it sees only
      the record of transaction 1. */
  lemma LoseSecond(c: Codec, op: WalEntry, op4: WalEntry, txs: map<TxId, Tx>, states: seq<State>, steps: seq<Step>)
    returns (states': seq<State>, steps': seq<Step>)
    requires Lawful(c) && Ops(c, op, op4)
    requires RunTo(c, Conf(c, op), states, steps,
                   Wr([Segment1(c, op), Segment2(c, op, op4), File(3, NOTHING, [], [])], Batch(op, op4), Rotating(4, 2),
                     txs, {}))
    ensures RunTo(c, Conf(c, op), states', steps',
                  Wr([Segment1(c, op), File(3, NOTHING, [], [])], Batch(op, op4), Rotating(4, 2), txs, {1, 4}))
    ensures steps' == steps + [Truncate({2}, 3, InView(c, op))]
  {
    var f1, f2, f3 := Segment1(c, op), Segment2(c, op, op4), File(3, NOTHING, [], []);
    InViewOk(c, op, op4);
    KeepFirstAndThird(f1, f2, f3);
    LostInSecond(f1, f2, f3, op, op4);
    states', steps' := TruncateIn(c, Conf(c, op), states, steps, [f1, f2, f3], Batch(op, op4), Rotating(4, 2), txs, {2},
      3, InView(c, op));
    assert {} + LostIds([f1, f2, f3], {2}) == {1, 4};
  }

  lemma ViewOfSecond(c: Codec, op: WalEntry, op4: WalEntry)
    requires Lawful(c) && Ops(c, op, op4)
    ensures |Frame(c, op)| <= |Segment2(c, op, op4).tiers.All()|
    ensures ScanMaxId(c, Segment2(c, op, op4).tiers.All()[..|Frame(c, op)|]) == 1
  {
    var a, d := Frame(c, op), Frame(c, op4);
    assert Segment2(c, op, op4).tiers.All() == a + d && (a + d)[..|a|] == a;
    FramesOne(c, op);
    assert a + [] == a;
    ScanMaxIdOfFrames(c, [op], []);
    assert MaxId([op]) == Max(1, MaxId([op][1..]));
  }

  lemma KeepFirstAndThird(f1: File, f2: File, f3: File)
    requires f1.id == 1 && f2.id == 2 && f3.id == 3
    ensures Keep([f1, f2, f3], {2}) == [f1, f3]
  {
    assert [f1, f2, f3][..2] == [f1, f2] && [f1, f2][..1] == [f1] && [f1][..0] == [];
    assert Keep([f1], {2}) == [f1];
    assert Keep([f1, f2], {2}) == [f1];
  }

  lemma LostInSecond(f1: File, f2: File, f3: File, op: WalEntry, op4: WalEntry)
    requires f1.id == 1 && f2.id == 2 && f3.id == 3 && f2.log == [op, op4] && op.txId == 1 && op4.txId == 4
    ensures LostIds([f1, f2, f3], {2}) == {1, 4}
  {
    var fs := [f1, f2, f3];
    assert fs[1].log[0].txId == 1 && fs[1].log[1].txId == 4;
  }

  lemma WriteThird(c: Codec, op: WalEntry, op4: WalEntry, txs: map<TxId, Tx>, states: seq<State>, steps: seq<Step>)
    returns (states': seq<State>, steps': seq<Step>)
    requires RunTo(c, Conf(c, op), states, steps,
      Wr([Segment1(c, op), File(3, NOTHING, [], [])], Batch(op, op4), Rotating(4, 2), txs, {1, 4}))
    ensures RunTo(c, Conf(c, op), states', steps',
                  Wr([Segment1(c, op)] + [File(3, Tiers([], [], Frame(c, C4)), [C4], [])], Batch(op, op4), Write(5),
                    txs, {1, 4}))
    ensures |steps'| == |steps| + 2 && steps <= steps'
  {
    var cfg, batch, g, f, x := Conf(c, op), Batch(op, op4), Segment1(c, op), File(3, NOTHING, [], []), Frame(c, C4);
    states', steps' := SealIn(c, cfg, states, steps, [g, f], batch, 4, 2, txs, {1, 4});
    assert SealFile([g, f], 2) == [g, f];
    states', steps' := AppendIn(c, cfg, states', steps', [g, f], batch, 4, txs, {1, 4});
    assert [] + x == x && [] + [C4] == [C4];
    assert [g, f][1 := AppendFile(c, f, C4)] == [g] + [File(3, Tiers([], [], x), [C4], [])];
  }

  /** The segments when transaction 4 is acknowledged. */
  function LastFiles(c: Codec, op: WalEntry): (fs: seq<File>) {
    [Segment1(c, op), File(3, Tiers(Frame(c, C4), [], []), [C4], [])]
  }

  lemma FinishThird(c: Codec, op: WalEntry, op4: WalEntry, txs: map<TxId, Tx>, states: seq<State>, steps: seq<Step>)
    returns (states': seq<State>, steps': seq<Step>, s': State)
    requires 3 in txs && 4 in txs && txs[4].entries == [op4]
    requires RunTo(c, Conf(c, op), states, steps,
                   Wr([Segment1(c, op)] + [File(3, Tiers([], [], Frame(c, C4)), [C4], [])], Batch(op, op4), Write(5),
                     txs, {1, 4}))
    ensures RunTo(c, Conf(c, op), states', steps', s') && s'.files == LastFiles(c, op)
    ensures 4 in s'.txs && s'.txs[4].acked && s'.txs[4].entries == [op4] && |steps'| == |steps| + 2 && steps <= steps'
  {
    var cfg, g, x := Conf(c, op), Segment1(c, op), Frame(c, C4);
    var f, f' := File(3, Tiers([], [], x), [C4], []), File(3, Tiers([], x, []), [C4], []);
    states', steps' := EndIn(c, cfg, states, steps, [g], f, Batch(op, op4), txs, {1, 4});
    assert [] + x == x && [g] + [f'] == [g, f'];
    FramesOne(c, C4);
    states', steps', s' := SyncIn(c, cfg, states', steps', g, f', x, txs, {1, 4});
  }

  lemma LastLog(c: Codec, op: WalEntry)
    ensures Visible(LastFiles(c, op)) == [op, C3, C4]
  {
    var fs := LastFiles(c, op);
    assert fs[..1] == [Segment1(c, op)] && fs[..1][..0] == [];
    assert Visible(fs[..1]) == [] + [op, C3];
  }

  lemma LastOutcome(op: WalEntry)
    requires op.txId == 1 && !op.IsMarker()
    ensures ActionOf(4, [op, C3, C4]) == CommitAction && DataOf(4, [op, C3, C4]) == []
  {
    ActionSnoc(4, [], op);
    ActionSnoc(4, [] + [op], C3);
    ActionSnoc(4, [] + [op] + [C3], C4);
    assert [op, C3, C4] == [] + [op] + [C3] + [C4];
    assert Proj(4, []) == [];
  }

  lemma FirstHalf(c: Codec, op: WalEntry, op4: WalEntry) returns (states: seq<State>, steps: seq<Step>)
    requires Ops(c, op, op4)
    ensures RunTo(c, Conf(c, op), states, steps,
      Wr([Segment1(c, op), Segment2(c, op, op4)], Batch(op, op4), Write(4), AllSent(op, op4), {}))
    ensures |steps| == 23
  {
    var txs := AllSent(op, op4);
    states, steps := BeginAll(c, Conf(c, op), op, op4);
    states, steps := SendFive(c, Conf(c, op), op, op4, states, steps);
    states, steps := StartBatch(c, op, op4, txs, states, steps);
    states, steps := WriteFirst(c, op, op4, txs, states, steps);
    states, steps := RotateFirst(c, op, op4, txs, states, steps);
    states, steps := WriteSecond(c, op, op4, txs, states, steps);
  }

  lemma SecondHalf(c: Codec, op: WalEntry, op4: WalEntry, states: seq<State>, steps: seq<Step>)
    returns (states': seq<State>, steps': seq<Step>, s: State)
    requires Lawful(c) && Ops(c, op, op4)
    requires RunTo(c, Conf(c, op), states, steps,
      Wr([Segment1(c, op), Segment2(c, op, op4)], Batch(op, op4), Write(4), AllSent(op, op4), {}))
    ensures RunTo(c, Conf(c, op), states', steps', s) && s.files == LastFiles(c, op) && |steps'| == |steps| + 6
    ensures 4 in s.txs && s.txs[4].acked && s.txs[4].entries == [op4]
      && steps'[|steps| + 1] == Truncate({2}, 3, InView(c, op))
  {
    var txs := AllSent(op, op4);
    states', steps' := OpenThird(c, op, op4, txs, states, steps);
    states', steps' := LoseSecond(c, op, op4, txs, states', steps');
    states', steps' := WriteThird(c, op, op4, txs, states', steps');
    states', steps', s := FinishThird(c, op, op4, txs, states', steps');
  }

  lemma LastReads(c: Codec, op: WalEntry, states: seq<State>, steps: seq<Step>, s: State)
    requires Lawful(c) && RunTo(c, Conf(c, op), states, steps, s) && s.files == LastFiles(c, op) && op.txId == 1
      && !op.IsMarker()
    ensures Recovers(c, s.files, 4, CommitAction, []) && forall f :: f in s.files ==> f.tiers.Synced()
  {
    RunInv(c, Conf(c, op), states, steps, |steps|);
    LastLog(c, op);
    LastOutcome(op);
    RecoveredIsVisible(c, s.files);
  }

  /** A run without a failing operation, in a waiting mode: segment 1 commits transaction 3; segment 2
      shows a record of transaction 1 and holds an operation of transaction 4 that its writer has
      not flushed; while the next segment is being opened a checkpoint at 3 deletes segment 2.
      Transaction 4 commits and is acknowledged, everything is on disk, and recovery reports it
      as committed without its operation. */
  lemma TruncationInRotationLosesOperation(c: Codec, op: WalEntry, op4: WalEntry)
      returns (cfg: Config, states: seq<State>, steps: seq<Step>)
    requires Lawful(c) && Ops(c, op, op4)
    ensures Run(c, cfg, states, steps) && Faultless(cfg, steps) && cfg.mode == Waiting && |steps| == 29
    ensures steps[24] == Truncate({2}, 3, InView(c, op))
    ensures var s := states[29];
            && 4 in s.txs && s.txs[4].acked && s.txs[4].entries == [op4]
              && (forall f :: f in s.files ==> f.tiers.Synced())
            && Recovers(c, s.files, 4, CommitAction, [])
  {
    cfg := Conf(c, op);
    var s: State;
    states, steps := FirstHalf(c, op, op4);
    states, steps, s := SecondHalf(c, op, op4, states, steps);
    LastReads(c, op, states, steps, s);
  }

  lemma StartBatch(c: Codec, op: WalEntry, op4: WalEntry, txs: map<TxId, Tx>, states: seq<State>, steps: seq<Step>)
    returns (states': seq<State>, steps': seq<Step>)
    requires !op.IsMarker() && !op4.IsMarker()
    requires RunTo(c, Conf(c, op), states, steps,
      St(OneFile(NOTHING, []), Batch(op, op4), [], [], Collect, [], txs, {}))
    ensures RunTo(c, Conf(c, op), states', steps', Wr(OneFile(NOTHING, []), Batch(op, op4), Write(0), txs, {}))
      && |steps'| == |steps| + 6
  {
    var b := Batch(op, op4);
    states', steps' := DrainSome(c, Conf(c, op), b, 5, txs, states, steps);
    TwoWaiters(op, op4);
    assert b[..5] == b && b[5..] == [];
    var s := St(OneFile(NOTHING, []), [], b, [3, 4], Collect, [], txs, {});
    states', steps' := Go(c, Conf(c, op), states', steps', s, StartWrite,
      Wr(OneFile(NOTHING, []), b, Write(0), txs, {}));
  }
}
