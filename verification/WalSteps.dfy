/** Each step of the write-ahead log keeps the invariant. */
module WalSteps {
  import opened LittleEndian
  import opened Entry
  import opened Parser
  import opened Disk
  import opened Log
  import opened WalRun
  import opened WalInvariant

  // ----- Moving bytes between tiers: SealOld, Writeback, SyncOk, SyncFail, EndBatch -----

  lemma SettleDisk(c: Codec, fs: seq<File>, fs': seq<File>, phase: Phase, phase': Phase)
    requires Increasing(fs) && FilesInv(c, fs) && ActiveInv(fs, phase) && FilesAdvance(fs, fs')
    requires phase'.Rotating? ==> phase' == phase
    requires phase.Rotating? && phase' != phase ==>
               forall i :: 0 <= i < |fs'| && fs'[i].id == phase.sealing ==> fs'[i].tiers.Synced()
    ensures Increasing(fs') && FilesInv(c, fs') && ActiveInv(fs', phase')
  {
    forall i | 0 <= i < |fs|
      ensures FileInv(c, fs'[i]) && (fs[i].tiers.Synced() ==> fs'[i].tiers.Synced())
    {
      AdvanceFile(c, fs[i], fs'[i]);
    }
  }

  lemma SettleJob(c: Codec, fs: seq<File>, fs': seq<File>, phase: Phase, phase': Phase, job: Job)
    requires FilesInv(c, fs) && FilesAdvance(fs, fs') && JobInv(fs, phase, job)
    requires phase'.Rotating? ==> phase' == phase
    ensures JobInv(fs', phase', job)
  {
    forall i | 0 <= i < |fs| ensures fs[i].tiers.Synced() ==> fs'[i].tiers.Synced() {
      AdvanceFile(c, fs[i], fs'[i]);
    }
  }

  lemma SettleMark(fs: seq<File>, fs': seq<File>, job: Job, id: TxId)
    requires FilesAdvance(fs, fs') && BeforeMark(fs, job, id)
    ensures BeforeMark(fs', job, id)
  {}

  /** The process goes on with the same rings, and with fsyncs that were there before or that
      cover everything of `id`. */
  ghost predicate Goes(fs: seq<File>, p: Proc, p': Proc, id: TxId, t: Tx) {
    && p'.queues == p.queues && p'.Unwritten() == p.Unwritten()
    && (id in p'.waiters ==> id in p.waiters)
    && (forall job :: job in p'.handed && id in job.waiters ==> job in p.handed || Covered(fs, p, id, t, job))
    && (forall job :: job in p.handed ==> job in p'.handed)
  }

  lemma SettleLive(c: Codec, fs: seq<File>, fs': seq<File>, p: Proc, p': Proc, id: TxId, t: Tx)
    requires FilesInv(c, fs) && FilesAdvance(fs, fs') && Goes(fs, p, p', id, t)
    requires Live(c, fs, Some(p), id, t)
    ensures Live(c, fs', Some(p'), id, t)
  {
    AdvanceFiles(c, fs, fs', id);
    if t.alive {
      forall job | job in p'.handed && id in job.waiters ensures Covered(fs', p', id, t, job) {
        assert Covered(fs, p, id, t, job);
        SettleMark(fs, fs', job, id);
      }
    }
  }

  lemma SealOldKeeps(c: Codec, s: State, s': State)
    requires Inv(c, s) && SealOldStep(s, s')
    ensures Inv(c, s')
  {
    var p, p' := s.proc.value, s'.proc.value;
    forall i | 0 <= i < |s.files| ensures FileAdvances(s.files[i], s'.files[i]) {
      SyncAdvances(s.files[i].tiers);
    }
    SettleDisk(c, s.files, s'.files, p.phase, p'.phase);
    forall job | job in p'.handed ensures JobInv(s'.files, p'.phase, job) {
      SettleJob(c, s.files, s'.files, p.phase, p'.phase, job);
    }
    assert p'.Unwritten() == p.Unwritten();
    forall id | id in s'.txs && id !in s'.truncated ensures Live(c, s'.files, s'.proc, id, s'.txs[id]) {
      SettleLive(c, s.files, s'.files, p, p', id, s.txs[id]);
    }
  }

  lemma WritebackKeeps(c: Codec, s: State, s': State, i: nat, from: nat, to: nat)
    requires Inv(c, s) && WritebackStep(s, s', i, from, to)
    ensures Inv(c, s')
  {
    var p := s.proc.value;
    AdvanceAdvances(s.files[i].tiers, from, to);
    assert FilesAdvance(s.files, s'.files);
    SettleDisk(c, s.files, s'.files, p.phase, p.phase);
    forall job | job in p.handed ensures JobInv(s'.files, p.phase, job) {
      SettleJob(c, s.files, s'.files, p.phase, p.phase, job);
    }
    forall id | id in s'.txs && id !in s'.truncated ensures Live(c, s'.files, s'.proc, id, s'.txs[id]) {
      SettleLive(c, s.files, s'.files, p, p, id, s.txs[id]);
    }
  }

  lemma WithoutIn<T>(xs: seq<T>, i: nat)
    requires i < |xs|
    ensures forall x :: x in Without(xs, i) ==> x in xs
  {}

  /** Acknowledging a transaction that was handed over changes nothing else. */
  lemma AckLive(c: Codec, fs: seq<File>, p: Proc, id: TxId, t: Tx)
    requires Live(c, fs, Some(p), id, t) && (t.alive ==> HandedOver(p, id))
    ensures Live(c, fs, Some(p), id, t.(acked := true))
  {
    var t' := t.(acked := true);
    assert t'.Script() == t.Script();
    if t.alive {
      forall job | job in p.handed && id in job.waiters ensures Covered(fs, p, id, t', job) {
        assert Covered(fs, p, id, t, job);
      }
    }
  }

  /** So does noting that it is durable. */
  lemma SecureLive(c: Codec, fs: seq<File>, p: Proc, id: TxId, t: Tx)
    requires Live(c, fs, Some(p), id, t) && AckInv(c, fs, id, t)
    ensures Live(c, fs, Some(p), id, t.(safe := true))
  {
    var t' := t.(safe := true);
    assert t'.Script() == t.Script();
    if t.alive {
      forall job | job in p.handed && id in job.waiters ensures Covered(fs, p, id, t', job) {
        assert Covered(fs, p, id, t, job);
      }
    }
  }

  lemma SyncFailTx(c: Codec, mode: SyncMode, s: State, s': State, j: nat, id: TxId)
    requires Inv(c, s) && SyncFailStep(mode, s, s', j) && id in s.txs && id !in s.truncated
    ensures Live(c, s'.files, s'.proc, id, s'.txs[id])
  {
    var p, p' := s.proc.value, s'.proc.value;
    assert p'.Unwritten() == p.Unwritten();
    assert FilesAdvance(s.files, s'.files);
    SettleLive(c, s.files, s'.files, p, p', id, s.txs[id]);
    if mode.Pipelined? && id in p.jobs[j].waiters {
      assert p.jobs[j] in p.handed;
      AckLive(c, s'.files, p', id, s.txs[id]);
    }
  }

  lemma SyncFailKeeps(c: Codec, mode: SyncMode, s: State, s': State, j: nat)
    requires Inv(c, s) && SyncFailStep(mode, s, s', j)
    ensures Inv(c, s')
  {
    var p, p' := s.proc.value, s'.proc.value;
    assert FilesAdvance(s.files, s'.files);
    JobDone(c, s.files, s'.files, s.txs, s'.txs, p, p', j);
    forall id | id in s'.txs ensures TxInv(c, s', id) {
      assert TxInv(c, s, id) && s'.txs[id].Script() == s.txs[id].Script();
      if id !in s.truncated { SyncFailTx(c, mode, s, s', j, id); }
    }
  }

  /** A transaction with its commit on disk before the point an fsync covers is durable. */
  lemma MarkedIsDurable(c: Codec, gs: seq<File>, fs: seq<File>, phase: Phase, job: Job, id: TxId)
    requires FilesInv(c, gs) && FilesAdvance(gs, fs)
    requires JobInv(gs, phase, job) && BeforeMark(gs, job, id)
    requires forall i :: 0 <= i < |fs| && fs[i].id == job.file ==>
      |Frames(c, fs[i].log[..job.upto])| <= |fs[i].tiers.durable|
    ensures AllDurable(c, fs, id)
  {
    forall i | 0 <= i < |fs| ensures Absent(id, Undurable(c, fs[i])) {
      AdvanceFile(c, gs[i], fs[i]);
      if fs[i].id < job.file {
        SyncedIsDurable(c, fs[i]);
      } else if fs[i].id == job.file {
        WholeAtLeast(c, fs[i].log, job.upto, |fs[i].tiers.durable|);
        assert forall e :: e in Undurable(c, fs[i]) ==> e in gs[i].log[job.upto..];
      } else {
        assert Absent(id, gs[i].log);
      }
    }
  }

  lemma DrainedOnDisk(fs: seq<File>, p: Proc, id: TxId, t: Tx)
    requires Stream(fs, p, id, t) && Drained(p, id, t) && Absent(id, p.Unwritten())
    ensures Proj(id, Visible(fs)) == t.Script()
  {
    ProjAbsent(id, p.Unwritten());
    ProjAbsent(id, p.queues[t.writer]);
    assert t.Script()[..t.sent] == t.Script();
  }

  /** A mark not later than `job` lies before it. */
  lemma LaterMark(fs: seq<File>, phase: Phase, h: Job, job: Job, id: TxId)
    requires BeforeMark(fs, h, id) && MarkLe(h, job) && JobInv(fs, phase, job)
    ensures BeforeMark(fs, job, id)
  {
    forall i | 0 <= i < |fs| && fs[i].id == job.file ensures Absent(id, fs[i].log[job.upto..]) {
      if h.file == job.file {
        assert forall e :: e in fs[i].log[job.upto..] ==> e in fs[i].log[h.upto..];
      } else {
        assert Absent(id, fs[i].log);
      }
    }
  }

  lemma SyncOkLive(c: Codec, fs: seq<File>, fs': seq<File>, p: Proc, h: Job, job: Job, id: TxId, t: Tx)
    requires FilesInv(c, fs) && FilesAdvance(fs, fs') && Live(c, fs, Some(p), id, t) && t.alive
    requires h in p.handed && id in h.waiters && MarkLe(h, job) && JobInv(fs, p.phase, job)
    requires forall i :: 0 <= i < |fs'| && fs'[i].id == job.file ==>
      |Frames(c, fs'[i].log[..job.upto])| <= |fs'[i].tiers.durable|
    ensures AckInv(c, fs', id, t)
  {
    assert Covered(fs, p, id, t, h);
    DrainedOnDisk(fs, p, id, t);
    AdvanceFiles(c, fs, fs', id);
    LaterMark(fs, p.phase, h, job, id);
    MarkedIsDurable(c, fs, fs', p.phase, job, id);
  }

  lemma SyncFileAdvances(c: Codec, s: State, s': State, j: nat, reached: nat)
    requires SyncOkStep(c, s, s', j, reached)
    ensures FilesAdvance(s.files, s'.files)
    ensures var job := s.proc.value.jobs[j];
            forall i :: 0 <= i < |s'.files| && s'.files[i].id == job.file ==>
              job.upto <= |s'.files[i].log| && |Frames(c, s'.files[i].log[..job.upto])| <= |s'.files[i].tiers.durable|
  {
    forall i | 0 <= i < |s.files| ensures FileAdvances(s.files[i], s'.files[i]) {
      if s.files[i].id == s.proc.value.jobs[j].file {
        var t := s.files[i].tiers;
        AdvanceAdvances(t, reached, |t.durable| + |t.kernel|);
      }
    }
  }

  /** The part of the invariant about hand-overs, for one id. */
  lemma HandedAlive(c: Codec, s: State, h: Job, id: TxId)
    requires Inv(c, s) && s.proc.Some? && h in s.proc.value.handed && id in h.waiters && id !in s.truncated
    ensures id in s.txs && s.txs[id].alive && Live(c, s.files, s.proc, id, s.txs[id])
  {
    assert Alive(s.txs, id) && TxInv(c, s, id);
  }

  lemma HandedSecured(c: Codec, fs: seq<File>, fs': seq<File>, p: Proc, job: Job, id: TxId, t: Tx)
    requires FilesInv(c, fs) && FilesAdvance(fs, fs') && Live(c, fs, Some(p), id, t) && t.alive
    requires HandedBy(p.handed, job, id) && JobInv(fs, p.phase, job)
    requires forall i :: 0 <= i < |fs'| && fs'[i].id == job.file ==>
      |Frames(c, fs'[i].log[..job.upto])| <= |fs'[i].tiers.durable|
    ensures AckInv(c, fs', id, t)
  {
    var h :| h in p.handed && MarkLe(h, job) && id in h.waiters;
    SyncOkLive(c, fs, fs', p, h, job, id, t);
  }

  lemma SyncOkSecured(c: Codec, s: State, s': State, j: nat, reached: nat, id: TxId)
    requires Inv(c, s) && SyncOkStep(c, s, s', j, reached) && id in s.txs && id !in s.truncated
    requires HandedBy(s.proc.value.handed, s.proc.value.jobs[j], id)
    ensures AckInv(c, s'.files, id, s.txs[id])
  {
    var p := s.proc.value;
    var h :| h in p.handed && id in h.waiters;
    HandedAlive(c, s, h, id);
    SyncFileAdvances(c, s, s', j, reached);
    assert p.jobs[j] in p.handed;
    HandedSecured(c, s.files, s'.files, p, p.jobs[j], id, s.txs[id]);
  }

  lemma SyncOkTx(c: Codec, s: State, s': State, j: nat, reached: nat, id: TxId)
    requires Inv(c, s) && SyncOkStep(c, s, s', j, reached) && id in s.txs && id !in s.truncated
    ensures Live(c, s'.files, s'.proc, id, s'.txs[id])
  {
    var p, p', t := s.proc.value, s'.proc.value, s.txs[id];
    SyncFileAdvances(c, s, s', j, reached);
    assert p'.Unwritten() == p.Unwritten() && TxInv(c, s, id);
    SettleLive(c, s.files, s'.files, p, p', id, t);
    var secured := HandedBy(p.handed, p.jobs[j], id);
    if secured {
      SyncOkSecured(c, s, s', j, reached, id);
      SecureLive(c, s'.files, p', id, t);
    }
    if id in p.jobs[j].waiters {
      assert p.jobs[j] in p'.handed;
      AckLive(c, s'.files, p', id, if secured then t.(safe := true) else t);
    }
  }

  lemma SyncOkDisk(c: Codec, s: State, s': State, j: nat, reached: nat)
    requires DiskInv(c, s.files, s.proc) && SyncOkStep(c, s, s', j, reached) && FilesAdvance(s.files, s'.files)
    ensures DiskInv(c, s'.files, s'.proc)
  {
    SettleDisk(c, s.files, s'.files, s.proc.value.phase, s.proc.value.phase);
  }

  /** Transactions keep their ids, their writers and whether they are alive. */
  ghost predicate SameLives(txs: map<TxId, Tx>, txs': map<TxId, Tx>) {
    txs'.Keys == txs.Keys && forall id :: id in txs ==>
      txs'[id].alive == txs[id].alive && txs'[id].writer == txs[id].writer
  }

  /** Dropping a finished job. */
  lemma JobDone(c: Codec, fs: seq<File>, fs': seq<File>, txs: map<TxId, Tx>, txs': map<TxId, Tx>, p: Proc, p': Proc,
      j: nat)
    requires FilesInv(c, fs) && FilesAdvance(fs, fs') && ProcInv(c, fs, txs, p) && SameLives(txs, txs')
    requires j < |p.jobs| && p' == p.(jobs := Without(p.jobs, j))
    ensures ProcInv(c, fs', txs', p')
  {
    WithoutIn(p.jobs, j);
    forall job | job in p'.handed ensures JobInv(fs', p.phase, job) {
      SettleJob(c, fs, fs', p.phase, p.phase, job);
    }
    assert p'.Unwritten() == p.Unwritten();
  }

  lemma SettleIds(fs: seq<File>, fs': seq<File>, txs: map<TxId, Tx>, txs': map<TxId, Tx>, p: Proc, p': Proc)
    requires FilesAdvance(fs, fs') && IdsInv(fs, txs, Some(p)) && txs'.Keys == txs.Keys && p'.nextTx == p.nextTx
    ensures IdsInv(fs', txs', Some(p'))
  {}

  lemma SyncOkProc(c: Codec, s: State, s': State, j: nat, reached: nat)
    requires Inv(c, s) && SyncOkStep(c, s, s', j, reached)
    ensures DiskInv(c, s'.files, s'.proc) && ProcInv(c, s'.files, s'.txs, s'.proc.value)
    ensures IdsInv(s'.files, s'.txs, s'.proc)
  {
    SyncFileAdvances(c, s, s', j, reached);
    SyncOkDisk(c, s, s', j, reached);
    JobDone(c, s.files, s'.files, s.txs, s'.txs, s.proc.value, s'.proc.value, j);
    SettleIds(s.files, s'.files, s.txs, s'.txs, s.proc.value, s'.proc.value);
  }

  lemma SyncOkKeeps(c: Codec, s: State, s': State, j: nat, reached: nat)
    requires Inv(c, s) && SyncOkStep(c, s, s', j, reached)
    ensures Inv(c, s')
  {
    SyncOkProc(c, s, s', j, reached);
    forall id | id in s'.txs ensures TxInv(c, s', id) {
      assert TxInv(c, s, id) && s'.txs[id].Script() == s.txs[id].Script();
      if id !in s.truncated { SyncOkTx(c, s, s', j, reached, id); }
    }
  }

  lemma EndBatchProc(c: Codec, s: State, s': State)
    requires Inv(c, s) && EndBatchStep(s, s') && FilesAdvance(s.files, s'.files)
    ensures DiskInv(c, s'.files, s'.proc) && ProcInv(c, s'.files, s'.txs, s'.proc.value)
  {
    var p, p' := s.proc.value, s'.proc.value;
    SettleDisk(c, s.files, s'.files, p.phase, p'.phase);
    forall job | job in p'.handed ensures JobInv(s'.files, p'.phase, job) {
      if job in p.handed {
        SettleJob(c, s.files, s'.files, p.phase, p'.phase, job);
      }
    }
  }

  /** The waiters handed over have all their records in the file so far. */
  lemma EndBatchGoes(fs: seq<File>, p: Proc, p': Proc, id: TxId, t: Tx)
    requires fs != [] && Increasing(fs) && p.phase == Write(|p.batch|)
    requires p' == p.(phase := Collect, batch := [], waiters := [],
      jobs := p.jobs + [Job(Last(fs).id, |Last(fs).log|, p.waiters)],
                    handed := p.handed + [Job(Last(fs).id, |Last(fs).log|, p.waiters)])
    requires id in p.waiters ==> Drained(p, id, t)
    ensures Goes(fs, p, p', id, t)
  {
    assert p'.Unwritten() == p.Unwritten() == [];
    assert Last(fs).log[|Last(fs).log|..] == [];
  }

  lemma EndBatchKeeps(c: Codec, s: State, s': State)
    requires Inv(c, s) && EndBatchStep(s, s')
    ensures Inv(c, s')
  {
    var p, p' := s.proc.value, s'.proc.value;
    FlushAdvances(Last(s.files).tiers);
    assert FilesAdvance(s.files, s'.files);
    EndBatchProc(c, s, s');
    forall id | id in s'.txs ensures TxInv(c, s', id) {
      assert TxInv(c, s, id);
      if id !in s.truncated {
        EndBatchGoes(s.files, p, p', id, s.txs[id]);
        SettleLive(c, s.files, s'.files, p, p', id, s.txs[id]);
      }
    }
  }

  lemma StartWriteKeeps(c: Codec, mode: SyncMode, s: State, s': State)
    requires Inv(c, s) && StartWriteStep(mode, s, s')
    ensures Inv(c, s')
  {
    var p, p' := s.proc.value, s'.proc.value;
    assert p'.Unwritten() == p.Unwritten();
    assert FilesAdvance(s.files, s'.files);
    forall id | id in s'.txs && id !in s'.truncated ensures Live(c, s'.files, s'.proc, id, s'.txs[id]) {
      SettleLive(c, s.files, s'.files, p, p', id, s.txs[id]);
    }
  }

  // ----- A new, empty segment: OpenSegment -----

  lemma OpenedWaits(fs: seq<File>, f: File, p: Proc, p': Proc, id: TxId, t: Tx)
    requires f.log == [] && Waits(fs, p, id, t) && forall job :: job in p.handed ==> job.file < f.id
    requires p'.queues == p.queues && p'.Unwritten() == p.Unwritten() && p'.waiters == p.waiters
      && p'.handed == p.handed
    ensures Waits(fs + [f], p', id, t)
  {
    forall job | job in p.handed && id in job.waiters ensures Covered(fs + [f], p', id, t, job) {
      assert Covered(fs, p, id, t, job);
    }
  }

  lemma OpenedLive(c: Codec, fs: seq<File>, f: File, p: Proc, p': Proc, id: TxId, t: Tx)
    requires f.log == [] && Live(c, fs, Some(p), id, t) && forall job :: job in p.handed ==> job.file < f.id
    requires p'.queues == p.queues && p'.Unwritten() == p.Unwritten() && p'.waiters == p.waiters
      && p'.handed == p.handed
    ensures Live(c, fs + [f], Some(p'), id, t)
  {
    OpenedVisible(fs, f);
    if t.alive { OpenedWaits(fs, f, p, p', id, t); }
    if t.safe { OpenedDurable(c, fs, f, id); }
  }

  lemma EmptyFileInv(c: Codec, id: nat)
    ensures FileInv(c, File(id, Tiers([], [], []), [], []))
  {
    assert Tiers([], [], []).All() == Frames(c, []) + [];
  }

  lemma OpenedDisk(c: Codec, fs: seq<File>, f: File, phase: Phase, phase': Phase)
    requires Increasing(fs) && FilesInv(c, fs) && ActiveInv(fs, phase) && phase.Write?
    requires FileInv(c, f) && f.log == [] && f.torn == [] && f.id == Last(fs).id + 1
    requires phase'.Rotating? && phase'.sealing == Last(fs).id
    ensures Increasing(fs + [f]) && FilesInv(c, fs + [f]) && ActiveInv(fs + [f], phase')
  {}

  lemma OpenSegmentDisk(c: Codec, cfg: Config, s: State, s': State)
    requires DiskInv(c, s.files, s.proc) && OpenSegmentStep(cfg, s, s')
    ensures DiskInv(c, s'.files, s'.proc)
  {
    EmptyFileInv(c, Last(s.files).id + 1);
    OpenedDisk(c, s.files, Last(s'.files), s.proc.value.phase, s'.proc.value.phase);
  }

  lemma OpenSegmentProc(c: Codec, cfg: Config, s: State, s': State)
    requires Inv(c, s) && OpenSegmentStep(cfg, s, s')
    ensures ProcInv(c, s'.files, s'.txs, s'.proc.value)
    ensures forall job :: job in s.proc.value.handed ==> job.file < Last(s'.files).id
  {
    var p, p', f := s.proc.value, s'.proc.value, Last(s'.files);
    assert p'.Unwritten() == p.Unwritten();
    forall job | job in p'.handed ensures JobInv(s'.files, p'.phase, job) && job.file < f.id {
      assert JobInv(s.files, p.phase, job);
    }
  }

  lemma OpenSegmentKeeps(c: Codec, cfg: Config, s: State, s': State)
    requires Inv(c, s) && OpenSegmentStep(cfg, s, s')
    ensures Inv(c, s')
  {
    var p, p', f := s.proc.value, s'.proc.value, Last(s'.files);
    OpenSegmentDisk(c, cfg, s, s');
    OpenSegmentProc(c, cfg, s, s');
    assert p'.Unwritten() == p.Unwritten();
    forall id | id in s'.txs ensures TxInv(c, s', id) {
      assert TxInv(c, s, id);
      if id !in s.truncated { OpenedLive(c, s.files, f, p, p', id, s.txs[id]); }
    }
  }

  // ----- Append -----

  lemma AppendBytes(c: Codec, f: File, e: WalEntry)
    requires f.tiers.All() == Frames(c, f.log) + f.torn && f.torn == []
    ensures AppendFile(c, f, e).tiers.All() == Frames(c, f.log + [e]) + [] && |f.tiers.durable| <= |Frames(c, f.log)|
  {
    Assoc(f.tiers.durable + f.tiers.kernel, f.tiers.buffer, Frame(c, e));
    FramesConcat(c, f.log, [e]);
    FramesOne(c, e);
    assert Frames(c, f.log) + [] == Frames(c, f.log);
  }

  lemma AppendFileInv(c: Codec, f: File, e: WalEntry)
    requires FileInv(c, f) && f.torn == [] && Fits(c, e)
    ensures FileInv(c, AppendFile(c, f, e))
    ensures Undurable(c, AppendFile(c, f, e)) == Undurable(c, f) + [e]
  {
    AppendBytes(c, f, e);
    WholeAppend(c, f.log, e, |f.tiers.durable|);
  }

  lemma AppendMark(fs: seq<File>, f: File, e: WalEntry, job: Job, id: TxId)
    requires fs != [] && f.id == Last(fs).id && f.log == Last(fs).log + [e]
    requires e.txId != id && BeforeMark(fs, job, id)
    ensures BeforeMark(fs[|fs| - 1 := f], job, id)
  {
    if f.id == job.file {
      assert f.log[job.upto..] == Last(fs).log[job.upto..] + [e];
    }
  }

  lemma AppendStream(fs: seq<File>, f: File, p: Proc, p': Proc, e: WalEntry, id: TxId, t: Tx)
    requires fs != [] && f.log == Last(fs).log + [e]
    requires p.Unwritten() == [e] + p'.Unwritten() && p'.queues == p.queues && Stream(fs, p, id, t)
    ensures Stream(fs[|fs| - 1 := f], p', id, t)
  {
    ProjConcat(id, [e], p'.Unwritten());
    VisibleAppend(fs, f, e);
    ProjConcat(id, Visible(fs), [e]);
    Regroup(Proj(id, Visible(fs)), Proj(id, [e]), Proj(id, p'.Unwritten()));
  }

  lemma AppendWaits(fs: seq<File>, f: File, p: Proc, p': Proc, e: WalEntry, id: TxId, t: Tx)
    requires fs != [] && f.id == Last(fs).id && f.log == Last(fs).log + [e]
    requires p.Unwritten() == [e] + p'.Unwritten() && p'.queues == p.queues && p'.waiters == p.waiters
      && p'.handed == p.handed
    requires Waits(fs, p, id, t)
    ensures Waits(fs[|fs| - 1 := f], p', id, t)
  {
    forall job | job in p.handed && id in job.waiters ensures Covered(fs[|fs| - 1 := f], p', id, t, job) {
      assert Covered(fs, p, id, t, job);
      assert e in p.Unwritten();
      AppendMark(fs, f, e, job, id);
    }
  }

  lemma AppendAck(c: Codec, fs: seq<File>, e: WalEntry, id: TxId, t: Tx)
    requires fs != [] && FileInv(c, Last(fs)) && Last(fs).torn == [] && Fits(c, e) && e.txId != id
      && AckInv(c, fs, id, t)
    ensures AckInv(c, fs[|fs| - 1 := AppendFile(c, Last(fs), e)], id, t)
  {
    var f' := AppendFile(c, Last(fs), e);
    var fs' := fs[|fs| - 1 := f'];
    VisibleAppend(fs, f', e);
    ProjConcat(id, Visible(fs), [e]);
    ProjOne(id, e);
    AppendFileInv(c, Last(fs), e);
    forall i | 0 <= i < |fs'| ensures Absent(id, Undurable(c, fs'[i])) {
      assert Absent(id, Undurable(c, fs[i]));
    }
  }

  lemma AppendLive(c: Codec, fs: seq<File>, p: Proc, p': Proc, e: WalEntry, id: TxId, t: Tx)
    requires fs != [] && FileInv(c, Last(fs)) && Last(fs).torn == [] && Fits(c, e)
    requires p.Unwritten() == [e] + p'.Unwritten() && p'.queues == p.queues && p'.waiters == p.waiters
      && p'.handed == p.handed
    requires Live(c, fs, Some(p), id, t) && (e.txId == id ==> t.alive)
    ensures Live(c, fs[|fs| - 1 := AppendFile(c, Last(fs), e)], Some(p'), id, t)
  {
    var f := AppendFile(c, Last(fs), e);
    if t.alive {
      AppendStream(fs, f, p, p', e, id, t);
      AppendWaits(fs, f, p, p', e, id, t);
      if t.safe {
        assert Proj(id, p.Unwritten()) == [];
        ProjAbsent(id, p.Unwritten());
        assert e in p.Unwritten();
      }
    } else {
      VisibleAppend(fs, f, e);
      ProjConcat(id, Visible(fs), [e]);
      ProjOne(id, e);
    }
    if t.safe { AppendAck(c, fs, e, id, t); }
  }

  lemma AppendIds(fs: seq<File>, f: File, e: WalEntry, txs: map<TxId, Tx>, p: Proc, p': Proc)
    requires fs != [] && f.log == Last(fs).log + [e] && IdsInv(fs, txs, Some(p)) && p'.nextTx == p.nextTx
    requires e.txId in txs && e.txId < p.nextTx
    ensures IdsInv(fs[|fs| - 1 := f], txs, Some(p'))
  {}

  lemma AppendDisk(c: Codec, cfg: Config, s: State, s': State)
    requires DiskInv(c, s.files, s.proc) && AppendStep(c, cfg, s, s')
      && Fits(c, s.proc.value.batch[s.proc.value.phase.done])
    ensures DiskInv(c, s'.files, s'.proc)
  {
    AppendFileInv(c, Last(s.files), s.proc.value.batch[s.proc.value.phase.done]);
  }

  lemma AppendProc(c: Codec, cfg: Config, s: State, s': State, e: WalEntry)
    requires Inv(c, s) && AppendStep(c, cfg, s, s') && e == s.proc.value.batch[s.proc.value.phase.done]
    requires s.proc.value.Unwritten() == [e] + s'.proc.value.Unwritten()
    ensures ProcInv(c, s'.files, s'.txs, s'.proc.value)
    ensures IdsInv(s'.files, s'.txs, s'.proc)
  {
    var p, p' := s.proc.value, s'.proc.value;
    assert e in p.Unwritten();
    assert Alive(s.txs, e.txId) && TxInv(c, s, e.txId);
    AppendIds(s.files, AppendFile(c, Last(s.files), e), e, s.txs, p, p');
    forall job | job in p'.handed ensures JobInv(s'.files, p'.phase, job) {
      assert JobInv(s.files, p.phase, job);
    }
  }

  lemma AppendTx(c: Codec, cfg: Config, s: State, s': State, e: WalEntry, id: TxId)
    requires id in s.txs && TxInv(c, s, id) && DiskInv(c, s.files, s.proc) && AppendStep(c, cfg, s, s')
      && e == s.proc.value.batch[s.proc.value.phase.done]
    requires s.proc.value.Unwritten() == [e] + s'.proc.value.Unwritten() && Fits(c, e)
      && (e.txId == id ==> s.txs[id].alive)
    ensures TxInv(c, s', id)
  {
    if id !in s.truncated { AppendLive(c, s.files, s.proc.value, s'.proc.value, e, id, s.txs[id]); }
  }

  lemma AppendKeeps(c: Codec, cfg: Config, s: State, s': State)
    requires Inv(c, s) && AppendStep(c, cfg, s, s')
    ensures Inv(c, s')
  {
    var p, p' := s.proc.value, s'.proc.value;
    var e := p.batch[p.phase.done];
    assert p.Unwritten() == [e] + p'.Unwritten();
    assert e in p.Unwritten();
    AppendDisk(c, cfg, s, s');
    AppendProc(c, cfg, s, s', e);
    forall id | id in s'.txs ensures TxInv(c, s', id) {
      AppendTx(c, cfg, s, s', e, id);
    }
  }

  // ----- Writers and collection: Begin, Send, Drain -----

  /** The id counter is ahead of everything in the log, the batch and the rings. */
  lemma NothingOf(c: Codec, s: State, id: TxId)
    requires Inv(c, s) && s.proc.Some? && id >= s.proc.value.nextTx
    ensures Absent(id, Visible(s.files)) && Absent(id, s.proc.value.Unwritten())
    ensures forall w :: 0 <= w < |s.proc.value.queues| ==> Absent(id, s.proc.value.queues[w])
    ensures !Alive(s.txs, id) && id !in s.proc.value.waiters
    ensures forall job :: job in s.proc.value.handed ==> id !in job.waiters
  {
    assert id in s.txs ==> TxInv(c, s, id);
    forall e | e in Visible(s.files) ensures e.txId != id { InVisible(s.files, e); }
  }

  lemma BeginLive(c: Codec, fs: seq<File>, p: Proc, id: TxId, t: Tx)
    requires t.sent == 0 && t.alive && !t.acked && !t.safe && t.writer < |p.queues|
    requires Absent(id, Visible(fs)) && Absent(id, p.Unwritten()) && Absent(id, p.queues[t.writer])
    requires id !in p.waiters && forall job :: job in p.handed ==> id !in job.waiters
    ensures Live(c, fs, Some(p), id, t)
  {
    ProjAbsent(id, Visible(fs));
    ProjAbsent(id, p.Unwritten());
    ProjAbsent(id, p.queues[t.writer]);
    assert t.Script()[..0] == [];
  }

  lemma BeginProc(c: Codec, s: State, s': State, writer: nat, entries: seq<WalEntry>, marker: WalEntry)
    requires Inv(c, s) && BeginStep(c, s, s', writer, entries, marker)
    ensures DiskInv(c, s'.files, s'.proc) && ProcInv(c, s'.files, s'.txs, s'.proc.value)
    ensures IdsInv(s'.files, s'.txs, s'.proc)
  {
    var p, p' := s.proc.value, s'.proc.value;
    assert p'.Unwritten() == p.Unwritten();
    assert p.nextTx in s.txs ==> TxInv(c, s, p.nextTx);
    forall id | Alive(s.txs, id) ensures Alive(s'.txs, id) && s'.txs[id] == s.txs[id] {
      assert TxInv(c, s, id);
    }
  }

  lemma BeginOther(c: Codec, s: State, s': State, writer: nat, entries: seq<WalEntry>, marker: WalEntry, id: TxId)
    requires id in s.txs && TxInv(c, s, id) && FilesInv(c, s.files) && BeginStep(c, s, s', writer, entries, marker)
    requires id != s.proc.value.nextTx
    ensures TxInv(c, s', id)
  {
    var p, p' := s.proc.value, s'.proc.value;
    assert p'.Unwritten() == p.Unwritten();
    if id !in s.truncated {
      assert Goes(s.files, p, p', id, s.txs[id]);
      SettleLive(c, s.files, s.files, p, p', id, s.txs[id]);
    }
  }

  lemma BeginNew(c: Codec, s: State, s': State, writer: nat, entries: seq<WalEntry>, marker: WalEntry)
    requires Inv(c, s) && BeginStep(c, s, s', writer, entries, marker)
    ensures TxInv(c, s', s.proc.value.nextTx)
  {
    var p, p' := s.proc.value, s'.proc.value;
    NothingOf(c, s, p.nextTx);
    assert p'.Unwritten() == p.Unwritten();
    BeginLive(c, s.files, p', p.nextTx, s'.txs[p.nextTx]);
  }

  lemma BeginKeeps(c: Codec, s: State, s': State, writer: nat, entries: seq<WalEntry>, marker: WalEntry)
    requires Inv(c, s) && BeginStep(c, s, s', writer, entries, marker)
    ensures Inv(c, s')
  {
    BeginProc(c, s, s', writer, entries, marker);
    forall id | id in s'.txs ensures TxInv(c, s', id) {
      if id == s.proc.value.nextTx {
        BeginNew(c, s, s', writer, entries, marker);
      } else {
        BeginOther(c, s, s', writer, entries, marker, id);
      }
    }
  }

  /** Only ring `w` changes, and only by records of other transactions. */
  lemma OtherRing(c: Codec, fs: seq<File>, p: Proc, p': Proc, w: nat, id: TxId, t: Tx)
    requires Live(c, fs, Some(p), id, t) && w < |p.queues| == |p'.queues| && p'.Unwritten() == p.Unwritten()
    requires forall v :: 0 <= v < |p.queues| && v != w ==> p'.queues[v] == p.queues[v]
    requires Proj(id, p'.queues[w]) == Proj(id, p.queues[w])
    requires p'.waiters == p.waiters && p'.handed == p.handed
    ensures Live(c, fs, Some(p'), id, t)
  {
    if t.alive {
      ProjAbsent(id, p.queues[t.writer]);
      ProjAbsent(id, p'.queues[t.writer]);
      forall job | job in p'.handed && id in job.waiters ensures Covered(fs, p', id, t, job) {
        assert Covered(fs, p, id, t, job);
      }
    }
  }

  lemma ScriptTx(id: TxId, t: Tx, i: nat)
    requires TxShape(id, t) && i < |t.Script()|
    ensures t.Script()[i].txId == id
  {
    if i < |t.entries| { assert t.entries[i] in t.entries; }
  }

  lemma SendStream(fs: seq<File>, p: Proc, p': Proc, id: TxId, t: Tx)
    requires Stream(fs, p, id, t) && TxShape(id, t) && t.sent < |t.Script()|
    requires p' == p.(queues := p.queues[t.writer := p.queues[t.writer] + [t.Script()[t.sent]]])
    ensures Stream(fs, p', id, t.(sent := t.sent + 1))
  {
    var q, x := p.queues[t.writer], t.Script()[t.sent];
    ScriptTx(id, t, t.sent);
    ProjSnoc(id, q, x);
    PushLast(Proj(id, Visible(fs)) + Proj(id, p.Unwritten()), Proj(id, q), t.Script(), t.sent);
    assert t.(sent := t.sent + 1).Script() == t.Script() && p'.Unwritten() == p.Unwritten();
    assert Proj(id, p'.queues[t.writer]) == Proj(id, q) + [x];
  }

  lemma SendLive(c: Codec, fs: seq<File>, p: Proc, p': Proc, id: TxId, t: Tx)
    requires Live(c, fs, Some(p), id, t) && t.alive && TxShape(id, t) && t.sent < |t.Script()|
    requires t.writer < |p.queues|
    requires p' == p.(queues := p.queues[t.writer := p.queues[t.writer] + [t.Script()[t.sent]]])
    ensures Live(c, fs, Some(p'), id, t.(sent := t.sent + 1))
  {
    SendStream(fs, p, p', id, t);
    assert id !in p.waiters;
    assert forall job :: job in p.handed ==> id !in job.waiters;
  }

  lemma SendQueues(c: Codec, fs: seq<File>, txs: map<TxId, Tx>, txs': map<TxId, Tx>, p: Proc, p': Proc, w: nat,
      x: WalEntry)
    requires ProcInv(c, fs, txs, p) && SameLives(txs, txs') && w < |p.queues|
      && p' == p.(queues := p.queues[w := p.queues[w] + [x]])
    requires Fits(c, x) && Alive(txs, x.txId) && txs[x.txId].writer == w
    ensures ProcInv(c, fs, txs', p')
  {
    assert p'.Unwritten() == p.Unwritten();
    forall v, e | 0 <= v < |p'.queues| && e in p'.queues[v] ensures e in p.queues[v] || (v == w && e == x) {}
  }

  lemma SendProc(c: Codec, s: State, s': State, id: TxId)
    requires Inv(c, s) && SendStep(s, s', id)
    ensures DiskInv(c, s'.files, s'.proc) && ProcInv(c, s'.files, s'.txs, s'.proc.value)
    ensures IdsInv(s'.files, s'.txs, s'.proc)
  {
    var p, p', t := s.proc.value, s'.proc.value, s.txs[id];
    assert TxInv(c, s, id);
    ScriptTx(id, t, t.sent);
    assert t.Script()[t.sent] in t.Script();
    SendQueues(c, s.files, s.txs, s'.txs, p, p', t.writer, t.Script()[t.sent]);
  }

  lemma SendKeeps(c: Codec, s: State, s': State, id: TxId)
    requires Inv(c, s) && SendStep(s, s', id)
    ensures Inv(c, s')
  {
    var p, p', t := s.proc.value, s'.proc.value, s.txs[id];
    SendProc(c, s, s', id);
    assert TxInv(c, s, id);
    var x := t.Script()[t.sent];
    assert x.txId == id;
    forall other | other in s'.txs ensures TxInv(c, s', other) {
      assert TxInv(c, s, other);
      if other == id {
        assert t.(sent := t.sent + 1).Script() == t.Script();
        if id !in s.truncated { SendLive(c, s.files, p, p', id, t); }
      } else if other !in s.truncated {
        ProjConcat(other, p.queues[t.writer], [x]);
        ProjOne(other, x);
        assert p'.Unwritten() == p.Unwritten();
        OtherRing(c, s.files, p, p', t.writer, other, s.txs[other]);
      }
    }
  }

  lemma DrainProjections(a: seq<WalEntry>, b: seq<WalEntry>, e: WalEntry, d: seq<WalEntry>, id: TxId)
    ensures var x := if e.txId == id then [e] else [];
            a + (b + x) + d == a + b + (x + d)
  {
    ShiftMiddle(a, b, if e.txId == id then [e] else [], d);
  }

  /** Moving the head of a ring to the end of the batch keeps the order of its transaction. */
  lemma DrainStream(fs: seq<File>, p: Proc, p': Proc, w: nat, id: TxId, t: Tx)
    requires Stream(fs, p, id, t) && w < |p.queues| && p.queues[w] != []
    requires p'.queues == p.queues[w := p.queues[w][1..]] && p'.Unwritten() == p.Unwritten() + [p.queues[w][0]]
    requires p.queues[w][0].txId == id ==> t.writer == w
    ensures Stream(fs, p', id, t)
  {
    var e := p.queues[w][0];
    ProjSnoc(id, p.Unwritten(), e);
    if t.writer == w {
      ProjHead(id, p.queues[w]);
      DrainProjections(Proj(id, Visible(fs)), Proj(id, p.Unwritten()), e, Proj(id, p.queues[w][1..]), id);
    } else {
      assert Proj(id, p.Unwritten()) + [] == Proj(id, p.Unwritten());
    }
  }

  /** When a commit barrier leaves the ring, it is the last thing its transaction sends. */
  lemma BarrierIsLast(fs: seq<File>, p: Proc, p': Proc, w: nat, id: TxId, t: Tx)
    requires Stream(fs, p, id, t) && TxShape(id, t) && t.writer == w < |p.queues| && p.queues[w] != []
    requires p.queues[w][0].txId == id && p.queues[w][0].Commit?
    requires p'.queues == p.queues[w := p.queues[w][1..]]
    ensures Drained(p', id, t)
  {
    var e := p.queues[w][0];
    ProjHead(id, p.queues[w]);
    var a, d := Proj(id, Visible(fs)) + Proj(id, p.Unwritten()), Proj(id, p.queues[w][1..]);
    assert a + ([e] + d) == t.Script()[..t.sent];
    assert t.Script()[..t.sent][|a|] == e;
    assert |a| == |t.entries|;
    assert d == [];
    ProjAbsent(id, p.queues[w][1..]);
  }

  lemma DrainWaits(fs: seq<File>, p: Proc, p': Proc, w: nat, id: TxId, t: Tx)
    requires Stream(fs, p, id, t) && Waits(fs, p, id, t) && TxShape(id, t) && w < |p.queues| && p.queues[w] != []
    requires p'.queues == p.queues[w := p.queues[w][1..]] && p'.Unwritten() == p.Unwritten() + [p.queues[w][0]]
    requires p.queues[w][0].txId == id ==> t.writer == w
    requires p'.handed == p.handed
    requires id in p'.waiters ==> id in p.waiters || (p.queues[w][0].txId == id && p.queues[w][0].Commit?)
    ensures Waits(fs, p', id, t)
  {
    if id in p'.waiters && id !in p.waiters { BarrierIsLast(fs, p, p', w, id, t); }
    forall job | job in p'.handed && id in job.waiters ensures Covered(fs, p', id, t, job) {
      assert Covered(fs, p, id, t, job);
      assert p.queues[w][0] in p.queues[w];
    }
  }

  lemma DrainProc(c: Codec, mode: SyncMode, s: State, s': State, w: nat)
    requires Inv(c, s) && DrainStep(mode, s, s', w)
    ensures DiskInv(c, s'.files, s'.proc) && ProcInv(c, s'.files, s'.txs, s'.proc.value)
  {
    var p, p' := s.proc.value, s'.proc.value;
    assert p.queues[w][0] in p.queues[w];
    forall v, e | 0 <= v < |p'.queues| && e in p'.queues[v] ensures e in p.queues[v] {}
  }

  lemma DrainKeeps(c: Codec, mode: SyncMode, s: State, s': State, w: nat)
    requires Inv(c, s) && DrainStep(mode, s, s', w)
    ensures Inv(c, s')
  {
    var p, p' := s.proc.value, s'.proc.value;
    DrainProc(c, mode, s, s', w);
    assert p.queues[w][0] in p.queues[w];
    forall id | id in s'.txs ensures TxInv(c, s', id) {
      assert TxInv(c, s, id);
      var t := s.txs[id];
      if id !in s.truncated && t.alive {
        DrainStream(s.files, p, p', w, id, t);
        DrainWaits(s.files, p, p', w, id, t);
      }
    }
  }
}
