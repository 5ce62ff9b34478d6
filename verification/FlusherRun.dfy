/** The flusher's objects write what the step machine writes: `write_batch` is a path of its
    OpenSegment, SealOld and Append steps. */
module FlusherRun {
  import opened LittleEndian
  import opened Entry
  import opened Disk
  import opened Segments
  import opened Flusher
  import opened WalRun
  import opened WalInvariant

  /** A segment and the machine's file for it. */
  ghost predicate Mirrors(c: Codec, s: Seg, f: File) {
    && f.id == s.meta.id && f.tiers == s.file && f.torn == [] && s.meta.size == |f.tiers.All()| == |Frames(c, f.log)|
    && |f.log| == |s.records| && forall i :: 0 <= i < |f.log| ==> c.ser(f.log[i]) == s.records[i].data
  }

  function SegsOf(m: Manager): (ss: seq<Seg>)
    ensures ss != []
  {
    m.sealed + [m.active]
  }

  /** The files of the log are those of earlier opens followed by the manager's. */
  ghost predicate MirrorsAll(c: Codec, m: Manager, older: seq<File>, fs: seq<File>) {
    && |fs| == |older| + |SegsOf(m)| && older <= fs && Increasing(fs) && m.nextId == m.active.meta.id + 1
    && forall i :: 0 <= i < |SegsOf(m)| ==> Mirrors(c, SegsOf(m)[i], fs[|older| + i])
  }

  ghost predicate Path(c: Codec, cfg: Config, states: seq<State>, steps: seq<Step>) {
    |states| == |steps| + 1 && forall i :: 0 <= i < |steps| ==> Next(c, cfg, states[i], states[i + 1], steps[i])
  }

  lemma AppendMirrors(c: Codec, s: Seg, f: File, r: Record, e: WalEntry)
    requires Mirrors(c, s, f) && r.data == c.ser(e)
    ensures Mirrors(c, AppendSeg(c, s, r), AppendFile(c, f, e))
  {
    Assoc(f.tiers.durable + f.tiers.kernel, f.tiers.buffer, Frame(c, e));
    FramesConcat(c, f.log, [e]);
    FramesOne(c, e);
  }

  lemma AppendMirrorsAll(c: Codec, m: Manager, older: seq<File>, fs: seq<File>, r: Record, e: WalEntry)
    requires MirrorsAll(c, m, older, fs) && r.data == c.ser(e)
    ensures MirrorsAll(c, m.(active := AppendSeg(c, m.active, r)), older, fs[|fs| - 1 := AppendFile(c, Last(fs), e)])
  {
    assert Mirrors(c, SegsOf(m)[|m.sealed|], Last(fs));
    AppendMirrors(c, m.active, Last(fs), r, e);
    var m' := m.(active := AppendSeg(c, m.active, r));
    var fs' := fs[|fs| - 1 := AppendFile(c, Last(fs), e)];
    forall i | 0 <= i < |SegsOf(m')| ensures Mirrors(c, SegsOf(m')[i], fs'[|older| + i]) {
      assert Mirrors(c, SegsOf(m)[i], fs[|older| + i]);
    }
  }

  /** Opening the new segment and sealing the old one. */
  function Rotated(fs: seq<File>): (r: seq<File>)
    requires fs != []
  {
    SealFile(fs + [File(Last(fs).id + 1, Tiers([], [], []), [], [])], Last(fs).id)
  }

  lemma RotateMirrorsAll(c: Codec, m: Manager, older: seq<File>, fs: seq<File>)
    requires MirrorsAll(c, m, older, fs)
    ensures MirrorsAll(c, RotateManager(m), older, Rotated(fs))
  {
    var m', fs' := RotateManager(m), Rotated(fs);
    SyncAdvances(m.active.file);
    forall i | 0 <= i < |fs| - 1 ensures fs'[i] == fs[i] { assert fs[i].id < fs[|fs| - 1].id; }
    assert Mirrors(c, SegsOf(m)[|m.sealed|], Last(fs));
    assert Tiers([], [], []).All() == [];
    forall i | 0 <= i < |SegsOf(m')| ensures Mirrors(c, SegsOf(m')[i], fs'[|older| + i]) {
      if i < |m.sealed| { assert Mirrors(c, SegsOf(m)[i], fs[|older| + i]); }
    }
  }

  /** The machine is writing record `done` of its batch, with the manager's files. */
  ghost predicate Writing(c: Codec, cfg: Config, s: State, m: Manager, older: seq<File>, done: nat) {
    && s.proc.Some? && s.proc.value.phase == WalRun.Write(done) && done <= |s.proc.value.batch|
    && cfg.maxSegmentSize == m.maxSize && MirrorsAll(c, m, older, s.files)
  }

  lemma AppendIsStep(c: Codec, cfg: Config, s: State, m: Manager, older: seq<File>, done: nat, r: Record)
      returns (s': State)
    requires Writing(c, cfg, s, m, older, done) && done < |s.proc.value.batch|
      && r.data == c.ser(s.proc.value.batch[done])
    requires NeedsRotation(cfg, Last(s.files)) ==> Last(s.files).log == []
    ensures Next(c, cfg, s, s', Append)
    ensures Writing(c, cfg, s', m.(active := AppendSeg(c, m.active, r)), older, done + 1)
    ensures s'.proc.value == s.proc.value.(phase := WalRun.Write(done + 1)) && s'.txs == s.txs
    ensures s'.truncated == s.truncated
  {
    var p, e := s.proc.value, s.proc.value.batch[done];
    AppendMirrorsAll(c, m, older, s.files, r, e);
    s' := s.(files := s.files[|s.files| - 1 := AppendFile(c, Last(s.files), e)],
      proc := Some(p.(phase := WalRun.Write(done + 1))));
  }

  lemma RotateIsSteps(c: Codec, cfg: Config, s: State, m: Manager, older: seq<File>, done: nat)
      returns (s1: State, s2: State)
    requires Writing(c, cfg, s, m, older, done) && done < |s.proc.value.batch| && NeedsRotation(cfg, Last(s.files))
    ensures Next(c, cfg, s, s1, OpenSegment) && Next(c, cfg, s1, s2, SealOld)
    ensures Writing(c, cfg, s2, RotateManager(m), older, done) && s2.proc == s.proc && s2.txs == s.txs
      && Last(s2.files).log == [] && s2.truncated == s.truncated
  {
    var p, id := s.proc.value, Last(s.files).id;
    RotateMirrorsAll(c, m, older, s.files);
    s1 := s.(files := s.files + [File(id + 1, Tiers([], [], []), [], [])],
      proc := Some(p.(phase := Rotating(done, id))));
    s2 := s1.(files := Rotated(s.files), proc := Some(p));
  }

  /** One turn of `write_batch` is Append, after OpenSegment and SealOld when it rotates. */
  lemma PutIsPath(c: Codec, cfg: Config, s: State, m: Manager, older: seq<File>, done: nat, r: Record)
    returns (states: seq<State>, steps: seq<Step>)
    requires Writing(c, cfg, s, m, older, done) && done < |s.proc.value.batch|
      && r.data == c.ser(s.proc.value.batch[done])
    ensures Path(c, cfg, states, steps) && states[0] == s
    ensures var s' := states[|steps|];
            && Writing(c, cfg, s', Put(c, m, r), older, done + 1) && s'.txs == s.txs && s'.truncated == s.truncated
            && s'.proc.value == s.proc.value.(phase := WalRun.Write(done + 1))
  {
    assert Mirrors(c, SegsOf(m)[|m.sealed|], Last(s.files));
    if NeedsRotation(cfg, Last(s.files)) {
      var s1, s2 := RotateIsSteps(c, cfg, s, m, older, done);
      var s3 := AppendIsStep(c, cfg, s2, RotateManager(m), older, done, r);
      states, steps := [s, s1, s2, s3], [OpenSegment, SealOld, Append];
    } else {
      var s1 := AppendIsStep(c, cfg, s, m, older, done, r);
      states, steps := [s, s1], [Append];
    }
  }

  lemma JoinPaths(c: Codec, cfg: Config, a: seq<State>, x: seq<Step>, b: seq<State>, y: seq<Step>)
    requires Path(c, cfg, a, x) && Path(c, cfg, b, y) && a[|x|] == b[0]
    ensures Path(c, cfg, a + b[1..], x + y) && (a + b[1..])[|x + y|] == b[|y|]
  {
    var states, steps := a + b[1..], x + y;
    forall i | 0 <= i < |steps| ensures Next(c, cfg, states[i], states[i + 1], steps[i]) {
      if i < |x| {
        assert Next(c, cfg, a[i], a[i + 1], x[i]);
      } else {
        assert Next(c, cfg, b[i - |x|], b[i - |x| + 1], y[i - |x|]);
      }
    }
  }

  /** `write_batch` of the serialized batch takes the machine from its first record to its last,
      through steps of the machine only, and ends with the files the manager ends with. */
  lemma {:induction false} WriteBatchIsPath(c: Codec, cfg: Config, s: State, m: Manager, older: seq<File>,
      batch: seq<Record>)
    returns (states: seq<State>, steps: seq<Step>)
    requires Writing(c, cfg, s, m, older, 0) && |batch| <= |s.proc.value.batch|
    requires forall i :: 0 <= i < |batch| ==> batch[i].data == c.ser(s.proc.value.batch[i])
    ensures Path(c, cfg, states, steps) && states[0] == s
    ensures var s' := states[|steps|];
            && Writing(c, cfg, s', PutAll(c, m, batch), older, |batch|) && s'.txs == s.txs
            && s'.truncated == s.truncated
            && s'.proc.value == s.proc.value.(phase := WalRun.Write(|batch|))
    decreases |batch|
  {
    if batch == [] {
      states, steps := [s], [];
    } else {
      var n := |batch| - 1;
      var a, x := WriteBatchIsPath(c, cfg, s, m, older, batch[..n]);
      var b, y := PutIsPath(c, cfg, a[|x|], PutAll(c, m, batch[..n]), older, n, batch[n]);
      JoinPaths(c, cfg, a, x, b, y);
      states, steps := a + b[1..], x + y;
    }
  }

  // ----- Collecting and flushing -----

  /** The flusher's batch and waiters are those of the machine. */
  ghost predicate Tasked(c: Codec, p: Proc, batch: seq<Record>, waiters: seq<TxId>) {
    && |batch| == |p.batch| && (forall i :: 0 <= i < |batch| ==> batch[i].data == c.ser(p.batch[i]))
      && p.waiters == waiters
  }

  /** The envelope of a record: its commit comes with the transaction's waiter. */
  function EnvelopeOf(e: WalEntry): (env: Envelope) { if e.Commit? then CommitBarrier(e, e.txId) else EntryEnvelope(e) }

  /** `collect_envelope` is the machine's Drain step. */
  lemma CollectIsDrain(c: Codec, mode: SyncMode, s: State, s': State, w: nat, batch: seq<Record>, waiters: seq<TxId>,
      lsn: nat)
    requires DrainStep(mode, s, s', w) && Tasked(c, s.proc.value, batch, waiters)
    ensures var env := EnvelopeOf(s.proc.value.queues[w][0]);
            Tasked(c, s'.proc.value, batch + [Record(lsn, c.ser(env.entry))],
              waiters + (if env.CommitBarrier? then [env.waiter] else []))
  {
    assert waiters + [] == waiters;
  }

  lemma SyncMirrorsAll(c: Codec, m: Manager, older: seq<File>, fs: seq<File>, tiers: Tiers)
    requires MirrorsAll(c, m, older, fs) && Advances(m.active.file, tiers)
    ensures MirrorsAll(c, m.(active := m.active.(file := tiers)), older, fs[|fs| - 1 := Last(fs).(tiers := tiers)])
  {
    var m' := m.(active := m.active.(file := tiers));
    var fs' := fs[|fs| - 1 := Last(fs).(tiers := tiers)];
    assert Mirrors(c, SegsOf(m)[|m.sealed|], Last(fs));
    forall i | 0 <= i < |SegsOf(m')| ensures Mirrors(c, SegsOf(m')[i], fs'[|older| + i]) {
      assert Mirrors(c, SegsOf(m)[i], fs[|older| + i]);
    }
  }

  /** The batch is written: EndBatch hands the flushed file to the fsync. */
  lemma EndIsStep(c: Codec, cfg: Config, s: State, m: Manager, older: seq<File>) returns (s': State)
    requires s.proc.Some? && Writing(c, cfg, s, m, older, |s.proc.value.batch|)
    ensures Next(c, cfg, s, s', EndBatch) && s'.proc.Some? && s'.txs == s.txs && s'.truncated == s.truncated
    ensures MirrorsAll(c, m.(active := m.active.(file := m.active.file.Flush())), older, s'.files)
    ensures var p, job := s.proc.value, Job(Last(s.files).id, |Last(s.files).log|, s.proc.value.waiters);
            s'.proc.value == p.(phase := Collect, batch := [], waiters := [], jobs := p.jobs + [job],
              handed := p.handed + [job])
  {
    var p, f := s.proc.value, Last(s.files);
    var job := Job(f.id, |f.log|, p.waiters);
    assert Mirrors(c, SegsOf(m)[|m.sealed|], f);
    FlushAdvances(m.active.file);
    SyncMirrorsAll(c, m, older, s.files, m.active.file.Flush());
    s' := s.(files := s.files[|s.files| - 1 := f.(tiers := f.tiers.Flush())],
             proc := Some(p.(phase := Collect, batch := [], waiters := [], jobs := p.jobs + [job],
               handed := p.handed + [job])));
  }

  /** The flushed file is synced: the machine's SyncOk of the only job. */
  lemma SyncIsStep(c: Codec, cfg: Config, s: State, m: Manager, older: seq<File>, reached: nat) returns (s': State)
    requires s.proc.Some? && MirrorsAll(c, m, older, s.files) && m.active.file.buffer == []
      && reached == |m.active.file.All()|
    requires |s.proc.value.jobs| == 1 && s.proc.value.jobs[0].file == Last(s.files).id
      && s.proc.value.jobs[0].upto == |Last(s.files).log|
    ensures Next(c, cfg, s, s', SyncOk(0, reached)) && s'.proc == Some(s.proc.value.(jobs := []))
    ensures s'.truncated == s.truncated
    ensures MirrorsAll(c, m.(active := m.active.(file := m.active.file.Sync())), older, s'.files)
    ensures s'.txs == AckAll(SecureAll(s.txs, s.proc.value.handed, s.proc.value.jobs[0]), s.proc.value.jobs[0].waiters)
  {
    var p, f, n := s.proc.value, Last(s.files), |s.files| - 1;
    var t, job := f.tiers, p.jobs[0];
    assert Mirrors(c, SegsOf(m)[|m.sealed|], f);
    SyncAdvances(t);
    SyncMirrorsAll(c, m, older, s.files, t.Sync());
    assert |t.All()| == |t.durable| + |t.kernel| && f.log[..|f.log|] == f.log;
    forall i | 0 <= i < |s.files| && s.files[i].id == f.id ensures i == n {}
    var fs' := WalRun.SyncFile(s.files, f.id, reached);
    assert t.Advance(reached, reached) == t.Sync();
    assert fs' == s.files[n := f.(tiers := t.Sync())];
    assert Without(p.jobs, 0) == [];
    s' := s.(files := fs', proc := Some(p.(jobs := Without(p.jobs, 0))),
      txs := AckAll(SecureAll(s.txs, p.handed, job), job.waiters));
  }

  lemma FlushThenSync(t: Tiers)
    ensures t.Flush().Sync() == t.Sync() && t.Flush().buffer == []
  {
    assert t.kernel + t.buffer + [] == t.kernel + t.buffer;
  }

  /** From the collected batch to the hand-over: StartWrite, the batch, EndBatch. */
  lemma WriteIsPath(c: Codec, cfg: Config, s: State, m: Manager, older: seq<File>, batch: seq<Record>)
      returns (states: seq<State>, steps: seq<Step>)
    requires cfg.maxSegmentSize == m.maxSize && MirrorsAll(c, m, older, s.files)
    requires s.proc.Some? && s.proc.value.phase.Collect? && s.proc.value.jobs == []
    requires batch != [] && Tasked(c, s.proc.value, batch, s.proc.value.waiters)
    ensures Path(c, cfg, states, steps) && states[0] == s
    ensures var s', p, m1 := states[|steps|], s.proc.value, PutAll(c, m, batch);
            && s'.proc.Some? && s'.txs == s.txs && s'.files != [] && s'.truncated == s.truncated
            && MirrorsAll(c, m1.(active := m1.active.(file := m1.active.file.Flush())), older, s'.files)
            && var job := Job(Last(s'.files).id, |Last(s'.files).log|, p.waiters);
            s'.proc.value == p.(phase := Collect, batch := [], waiters := [], jobs := [job], handed := p.handed + [job])
  {
    var p := s.proc.value;
    var s1 := s.(proc := Some(p.(phase := WalRun.Write(0))));
    var first, start := [s, s1], [StartWrite];
    var a, x := WriteBatchIsPath(c, cfg, s1, m, older, batch);
    JoinPaths(c, cfg, first, start, a, x);
    var s2 := a[|x|];
    var s3 := EndIsStep(c, cfg, s2, PutAll(c, m, batch), older);
    var last, end := [s2, s3], [EndBatch];
    JoinPaths(c, cfg, first + a[1..], start + x, last, end);
    states, steps := first + a[1..] + last[1..], start + x + end;
    assert Last(s3.files).id == Last(s2.files).id && Last(s3.files).log == Last(s2.files).log;
    assert [] + s3.proc.value.jobs == s3.proc.value.jobs;
  }

  /** The machine's step after the hand-over: SyncOk notifies the waiters, SyncFail in a waiting mode
      drops them. */
  lemma OutcomeIsStep(c: Codec, cfg: Config, s: State, m: Manager, older: seq<File>, synced: bool)
      returns (s': State, step: Step)
    requires (cfg.mode.Waiting? || synced) && s.proc.Some? && MirrorsAll(c, m, older, s.files)
    requires m.active.file.buffer == []
    requires |s.proc.value.jobs| == 1 && s.proc.value.jobs[0].file == Last(s.files).id
      && s.proc.value.jobs[0].upto == |Last(s.files).log|
    ensures Next(c, cfg, s, s', step) && s'.proc == Some(s.proc.value.(jobs := [])) && s'.truncated == s.truncated
    ensures MirrorsAll(c, if synced then m.(active := m.active.(file := m.active.file.Sync())) else m, older, s'.files)
    ensures s'.txs == if synced then AckAll(SecureAll(s.txs, s.proc.value.handed, s.proc.value.jobs[0]),
      s.proc.value.jobs[0].waiters) else s.txs
  {
    if synced {
      var reached := |m.active.file.All()|;
      step := SyncOk(0, reached);
      s' := SyncIsStep(c, cfg, s, m, older, reached);
    } else {
      step := SyncFail(0);
      assert Without(s.proc.value.jobs, 0) == [];
      s' := s.(proc := Some(s.proc.value.(jobs := Without(s.proc.value.jobs, 0))));
    }
  }

  /** `flush_and_notify` in a waiting mode is a path of the machine: StartWrite, the batch with its
      rotations, EndBatch, and SyncOk or SyncFail. It ends with the segments that the flusher ends
      with, with the flusher's empty batch, and with exactly the batch's waiters notified, and only
      if the sync succeeded. */
  lemma FlushIsPath(c: Codec, cfg: Config, s: State, m: Manager, older: seq<File>, batch: seq<Record>, synced: bool)
      returns (states: seq<State>, steps: seq<Step>)
    requires (cfg.mode.Waiting? || synced) && cfg.maxSegmentSize == m.maxSize && MirrorsAll(c, m, older, s.files)
    requires s.proc.Some? && s.proc.value.phase.Collect? && s.proc.value.jobs == []
    requires batch != [] && Tasked(c, s.proc.value, batch, s.proc.value.waiters)
    ensures Path(c, cfg, states, steps) && states[0] == s
    ensures var s' := states[|steps|];
            && s'.proc.Some? && s'.proc.value.phase.Collect? && s'.proc.value.jobs == []
              && Tasked(c, s'.proc.value, [], []) && s'.proc.value.queues == s.proc.value.queues
            && MirrorsAll(c, Flushed(c, m, batch, true, synced), older, s'.files)
            && s'.txs.Keys == s.txs.Keys
            && (forall id :: id in s.txs ==>
              s'.txs[id].acked == (s.txs[id].acked || (synced && id in s.proc.value.waiters)))
            && (forall id :: id in s.txs ==>
              s'.txs[id].entries == s.txs[id].entries && s'.txs[id].sent == s.txs[id].sent)
            && s'.truncated == s.truncated
  {
    var a, x := WriteIsPath(c, cfg, s, m, older, batch);
    var m1, s1 := PutAll(c, m, batch), a[|x|];
    FlushThenSync(m1.active.file);
    var s2, step := OutcomeIsStep(c, cfg, s1, m1.(active := m1.active.(file := m1.active.file.Flush())), older, synced);
    var last, end := [s1, s2], [step];
    JoinPaths(c, cfg, a, x, last, end);
    states, steps := a + last[1..], x + end;
  }
}
