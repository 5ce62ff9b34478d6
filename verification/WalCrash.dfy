/** Crashes, restarts and truncation: what they leave of the log, and that they keep the
    invariant. */
module WalCrash {
  import opened LittleEndian
  import opened Entry
  import opened Parser
  import opened Disk
  import opened Log
  import opened WalRun
  import opened WalInvariant

  // ----- Reading the files back -----

  lemma ParseFile(c: Codec, f: File)
    requires Lawful(c) && FileInv(c, f)
    ensures Parse(c, f.tiers.All()).entries == f.log
    ensures ScanMaxId(c, f.tiers.All()) == MaxId(f.log)
  {
    ParseFrames(c, f.log, f.torn);
    ParseTornTail(c, f.torn);
    ScanMaxIdOfFrames(c, f.log, f.torn);
    assert f.log + [] == f.log;
  }

  /** `recover` reads exactly the whole records on disk. */
  lemma {:induction false} RecoveredIsVisible(c: Codec, fs: seq<File>)
    requires Lawful(c) && FilesInv(c, fs)
    ensures RecoveredLog(c, fs) == Visible(fs)
  {
    if fs != [] {
      RecoveredIsVisible(c, fs[..|fs| - 1]);
      ParseFile(c, Last(fs));
    }
  }

  // ----- Crash -----

  lemma CrashFileInv(c: Codec, f: File, k: nat)
    requires FileInv(c, f) && |f.tiers.durable| <= k <= |f.tiers.All()|
    ensures FileInv(c, CrashFile(c, f, k)) && CrashFile(c, f, k).tiers.Synced()
    ensures CrashFile(c, f, k).log <= f.log
    ensures DurableCount(c, f) <= |CrashFile(c, f, k).log|
    ensures f.tiers.Synced() ==> CrashFile(c, f, k).log == f.log
  {
    var f' := CrashFile(c, f, k);
    WholeMono(c, f.log, |f.tiers.durable|, k);
    assert f'.tiers.All() == f.tiers.All()[..k];
    if f.torn == [] {
      assert f.tiers.All() == Frames(c, f.log);
      var torn := CutSplits(c, f.log, k);
      assert f'.torn == torn;
    } else {
      assert f.tiers.All()[..k] == f.tiers.All();
      WholeAll(c, f.log, k);
      assert f.log[..|f.log|] == f.log;
    }
    if f.tiers.Synced() { SyncedIsDurable(c, f); }
  }

  lemma {:induction false} VisiblePrefix(fs: seq<File>, fs': seq<File>, k: nat)
    requires |fs| == |fs'| && k < |fs|
    requires forall i :: 0 <= i < k ==> fs'[i].log == fs[i].log
    requires fs'[k].log <= fs[k].log
    requires forall i :: k < i < |fs| ==> fs'[i].log == fs[i].log == []
    ensures Visible(fs') <= Visible(fs)
  {
    var n := |fs| - 1;
    if k == n {
      VisibleSame(fs[..n], fs'[..n]);
      assert Last(fs).log == Last(fs').log + Last(fs).log[|Last(fs').log|..];
    } else {
      VisiblePrefix(fs[..n], fs'[..n], k);
    }
  }

  /** Log prefix: whatever a crash leaves, torn tail included, is a prefix of what the segments
      held, because a segment is sealed before its successor receives bytes. */
  lemma CrashLeavesPrefix(c: Codec, fs: seq<File>, proc: Option<Proc>, cuts: seq<nat>)
    requires DiskInv(c, fs, proc) && Cuts(fs, cuts)
    ensures Visible(CrashFiles(c, fs, cuts)) <= Visible(fs)
  {
    var fs' := CrashFiles(c, fs, cuts);
    forall i | 0 <= i < |fs|
      ensures fs'[i].log <= fs[i].log && (fs[i].tiers.Synced() ==> fs'[i].log == fs[i].log)
    {
      CrashFileInv(c, fs[i], cuts[i]);
    }
    if proc.None? || fs == [] {
      VisibleSame(fs, fs');
    } else if !proc.value.phase.Rotating? || |fs| == 1 {
      VisiblePrefix(fs, fs', |fs| - 1);
    } else {
      var sealing := proc.value.phase.sealing;
      forall i | 0 <= i < |fs| - 2 ensures fs'[i].log == fs[i].log {
        assert fs[i].id < fs[|fs| - 2].id < fs[|fs| - 1].id;
      }
      VisiblePrefix(fs, fs', |fs| - 2);
    }
  }

  lemma CrashFileProj(c: Codec, f: File, k: nat, id: TxId)
    requires FileInv(c, f) && |f.tiers.durable| <= k <= |f.tiers.All()| && Absent(id, Undurable(c, f))
    ensures Proj(id, CrashFile(c, f, k).log) == Proj(id, f.log)
  {
    var log := CrashFile(c, f, k).log;
    CrashFileInv(c, f, k);
    var rest := f.log[|log|..];
    assert f.log == log + rest;
    assert forall e :: e in rest ==> e in Undurable(c, f);
    ProjAbsent(id, rest);
    ProjConcat(id, log, rest);
  }

  lemma {:induction false} VisibleProj(fs: seq<File>, fs': seq<File>, id: TxId)
    requires |fs| == |fs'| && forall i :: 0 <= i < |fs| ==> Proj(id, fs'[i].log) == Proj(id, fs[i].log)
    ensures Proj(id, Visible(fs')) == Proj(id, Visible(fs))
  {
    if fs != [] {
      var n := |fs| - 1;
      VisibleProj(fs[..n], fs'[..n], id);
      ProjConcat(id, Visible(fs[..n]), fs[n].log);
      ProjConcat(id, Visible(fs'[..n]), fs'[n].log);
    }
  }

  /** Records of `id` that are all durable survive every crash. */
  lemma CrashKeepsDurable(c: Codec, fs: seq<File>, cuts: seq<nat>, id: TxId)
    requires FilesInv(c, fs) && Cuts(fs, cuts) && AllDurable(c, fs, id)
    ensures Proj(id, Visible(CrashFiles(c, fs, cuts))) == Proj(id, Visible(fs))
  {
    var fs' := CrashFiles(c, fs, cuts);
    forall i | 0 <= i < |fs| ensures Proj(id, fs'[i].log) == Proj(id, fs[i].log) {
      CrashFileProj(c, fs[i], cuts[i], id);
    }
    VisibleProj(fs, fs', id);
  }

  lemma StreamPrefix(fs: seq<File>, p: Proc, id: TxId, t: Tx)
    requires Stream(fs, p, id, t)
    ensures Proj(id, Visible(fs)) <= t.Script()
  {
    var a, b := Proj(id, Visible(fs)), Proj(id, p.Unwritten());
    assert a <= a + b <= t.Script()[..t.sent];
  }

  /** On every reachable disk the records of a transaction are a prefix of its script. */
  lemma LivePrefix(c: Codec, fs: seq<File>, proc: Option<Proc>, id: TxId, t: Tx)
    requires Live(c, fs, proc, id, t)
    ensures Proj(id, Visible(fs)) <= t.Script()
  {
    if t.alive { StreamPrefix(fs, proc.value, id, t); }
  }

  lemma CrashLive(c: Codec, fs: seq<File>, proc: Option<Proc>, cuts: seq<nat>, id: TxId, t: Tx)
    requires DiskInv(c, fs, proc) && Cuts(fs, cuts) && Live(c, fs, proc, id, t)
    ensures Live(c, CrashFiles(c, fs, cuts), None, id, t.(alive := false))
  {
    var fs', t' := CrashFiles(c, fs, cuts), t.(alive := false);
    assert t'.Script() == t.Script();
    LivePrefix(c, fs, proc, id, t);
    CrashLeavesPrefix(c, fs, proc, cuts);
    ProjPrefix(id, Visible(fs'), Visible(fs));
    if t.safe {
      CrashKeepsDurable(c, fs, cuts, id);
      forall i | 0 <= i < |fs'| ensures Absent(id, Undurable(c, fs'[i])) {
        CrashFileInv(c, fs[i], cuts[i]);
        SyncedIsDurable(c, fs'[i]);
      }
    }
  }

  lemma CrashKeeps(c: Codec, s: State, s': State, cuts: seq<nat>)
    requires Inv(c, s) && CrashStep(c, s, s', cuts)
    ensures Inv(c, s')
  {
    forall i | 0 <= i < |s.files|
      ensures FileInv(c, s'.files[i]) && s'.files[i].tiers.Synced() && s'.files[i].log <= s.files[i].log
    {
      CrashFileInv(c, s.files[i], cuts[i]);
    }
    forall id | id in s'.txs ensures TxInv(c, s', id) {
      assert TxInv(c, s, id);
      assert s'.txs[id].Script() == s.txs[id].Script();
      if id !in s.truncated { CrashLive(c, s.files, s.proc, cuts, id, s.txs[id]); }
    }
  }

  // ----- Restart -----

  /** The counter set by `recover` is above every id on disk. */
  lemma CounterIsFresh(c: Codec, fs: seq<File>, counter: nat)
    requires Lawful(c) && FilesInv(c, fs)
    requires counter >= 1 && (MaxId(RecoveredLog(c, fs)) > 0 ==> counter >= MaxId(RecoveredLog(c, fs)) + 1)
    ensures forall i, e :: 0 <= i < |fs| && e in fs[i].log ==> e.txId < counter
  {
    RecoveredIsVisible(c, fs);
    forall i, e | 0 <= i < |fs| && e in fs[i].log ensures e.txId < counter { InVisible(fs, e); }
  }

  lemma RestartDisk(c: Codec, fs: seq<File>, f: File, p: Proc)
    requires DiskInv(c, fs, None) && f == File(if fs == [] then 1 else Last(fs).id + 1, Tiers([], [], []), [], [])
    requires p.phase.Collect?
    ensures DiskInv(c, fs + [f], Some(p))
  {
    assert f.tiers.All() == Frames(c, []) + [];
  }

  lemma RestartLive(c: Codec, fs: seq<File>, f: File, proc: Option<Proc>, id: TxId, t: Tx)
    requires Live(c, fs, None, id, t) && f.log == []
    ensures Live(c, fs + [f], proc, id, t)
  {
    OpenedVisible(fs, f);
    if t.safe { OpenedDurable(c, fs, f, id); }
  }

  lemma RestartProc(c: Codec, s: State, s': State, writers: nat, counter: nat)
    requires Lawful(c) && FilesInv(c, s.files) && IdsInv(s.files, s.txs, s.proc)
      && RestartStep(c, s, s', writers, counter)
    ensures ProcInv(c, s'.files, s'.txs, s'.proc.value) && IdsInv(s'.files, s'.txs, s'.proc)
  {
    CounterIsFresh(c, s.files, counter);
  }

  lemma RestartKeeps(c: Codec, s: State, s': State, writers: nat, counter: nat)
    requires Lawful(c) && Inv(c, s) && RestartStep(c, s, s', writers, counter)
    ensures Inv(c, s')
  {
    RestartDisk(c, s.files, Last(s'.files), s'.proc.value);
    RestartProc(c, s, s', writers, counter);
    forall id | id in s'.txs ensures TxInv(c, s', id) {
      assert TxInv(c, s, id);
      if id !in s.truncated { RestartLive(c, s.files, Last(s'.files), s'.proc, id, s.txs[id]); }
    }
  }

  // ----- Truncation -----

  lemma {:induction false} KeepHas(fs: seq<File>, removed: set<nat>)
    ensures forall f :: f in Keep(fs, removed) <==> f in fs && f.id !in removed
  {
    if fs != [] {
      var n := |fs| - 1;
      KeepHas(fs[..n], removed);
      assert fs == fs[..n] + [fs[n]];
    }
  }

  lemma {:induction false} KeepIncreasing(fs: seq<File>, removed: set<nat>)
    requires Increasing(fs)
    ensures Increasing(Keep(fs, removed))
  {
    if fs != [] {
      var n := |fs| - 1;
      KeepIncreasing(fs[..n], removed);
      KeepHas(fs[..n], removed);
      forall f | f in Keep(fs[..n], removed) ensures f.id < fs[n].id {
        var j :| 0 <= j < n && fs[j] == f;
      }
    }
  }

  lemma KeepIs(fs: seq<File>, removed: set<nat>)
    requires Increasing(fs)
    ensures Increasing(Keep(fs, removed))
    ensures forall f :: f in Keep(fs, removed) <==> f in fs && f.id !in removed
    ensures fs != [] && Last(fs).id !in removed ==> Keep(fs, removed) != [] && Last(Keep(fs, removed)) == Last(fs)
  {
    KeepIncreasing(fs, removed);
    KeepHas(fs, removed);
  }

  lemma {:induction false} KeepProj(fs: seq<File>, removed: set<nat>, id: TxId)
    requires forall i :: 0 <= i < |fs| && fs[i].id in removed ==> Absent(id, fs[i].log)
    ensures Proj(id, Visible(Keep(fs, removed))) == Proj(id, Visible(fs))
  {
    if fs != [] {
      var n := |fs| - 1;
      var k := Keep(fs[..n], removed);
      KeepProj(fs[..n], removed, id);
      ProjConcat(id, Visible(fs[..n]), fs[n].log);
      if fs[n].id in removed {
        ProjAbsent(id, fs[n].log);
        assert Keep(fs, removed) == k;
      } else {
        VisiblePush(k, fs[n]);
        ProjConcat(id, Visible(k), fs[n].log);
      }
    }
  }

  lemma NotLost(fs: seq<File>, removed: set<nat>, id: TxId)
    requires id !in LostIds(fs, removed)
    ensures forall i :: 0 <= i < |fs| && fs[i].id in removed ==> Absent(id, fs[i].log)
  {
    forall i, e | 0 <= i < |fs| && fs[i].id in removed && e in fs[i].log ensures e.txId != id {
      var j :| 0 <= j < |fs[i].log| && fs[i].log[j] == e;
    }
  }

  lemma KeepMark(fs: seq<File>, fs': seq<File>, job: Job, id: TxId)
    requires BeforeMark(fs, job, id) && forall f :: f in fs' ==> f in fs
    ensures BeforeMark(fs', job, id)
  {
    forall i | 0 <= i < |fs'|
      ensures fs'[i].id > job.file ==> Absent(id, fs'[i].log)
      ensures fs'[i].id == job.file ==> job.upto <= |fs'[i].log| && Absent(id, fs'[i].log[job.upto..])
    {
      assert fs'[i] in fs;
      var j :| 0 <= j < |fs| && fs[j] == fs'[i];
    }
  }

  lemma KeepLive(c: Codec, fs: seq<File>, fs': seq<File>, proc: Option<Proc>, id: TxId, t: Tx)
    requires Live(c, fs, proc, id, t) && forall f :: f in fs' ==> f in fs
    requires Proj(id, Visible(fs')) == Proj(id, Visible(fs))
    ensures Live(c, fs', proc, id, t)
  {
    if t.alive {
      forall job | job in proc.value.handed && id in job.waiters ensures Covered(fs', proc.value, id, t, job) {
        assert Covered(fs, proc.value, id, t, job);
        KeepMark(fs, fs', job, id);
      }
    }
    if t.safe {
      forall i | 0 <= i < |fs'| ensures Absent(id, Undurable(c, fs'[i])) {
        assert fs'[i] in fs;
        var j :| 0 <= j < |fs| && fs[j] == fs'[i];
        assert Absent(id, Undurable(c, fs[j]));
      }
    }
  }

  lemma TruncateDisk(c: Codec, fs: seq<File>, fs': seq<File>, proc: Option<Proc>)
    requires DiskInv(c, fs, proc) && fs != [] && fs' != [] && Last(fs') == Last(fs)
    requires Increasing(fs') && forall f :: f in fs' ==> f in fs
    ensures DiskInv(c, fs', proc)
  {
    forall i | 0 <= i < |fs'|
      ensures FileInv(c, fs'[i])
      ensures proc.None? ==> fs'[i].tiers.Synced()
      ensures proc.Some? && i < |fs'| - 1 ==>
                fs'[i].tiers.Synced() || (proc.value.phase.Rotating? && fs'[i].id == proc.value.phase.sealing)
    {
      assert fs'[i] in fs;
      var j :| 0 <= j < |fs| && fs[j] == fs'[i];
      assert FileInv(c, fs[j]);
    }
  }

  lemma TruncateJob(fs: seq<File>, fs': seq<File>, phase: Phase, job: Job)
    requires JobInv(fs, phase, job) && fs' != [] && Last(fs') == Last(fs) && forall f :: f in fs' ==> f in fs
    ensures JobInv(fs', phase, job)
  {
    forall i | 0 <= i < |fs'|
      ensures fs'[i].id < job.file ==> fs'[i].tiers.Synced()
      ensures fs'[i].id == job.file ==> job.upto <= |fs'[i].log|
    {
      assert fs'[i] in fs;
      var j :| 0 <= j < |fs| && fs[j] == fs'[i];
    }
  }

  lemma TruncateKeeps(c: Codec, s: State, s': State, removed: set<nat>, checkpoint: nat, views: seq<nat>)
    requires Inv(c, s) && TruncateStep(c, s, s', removed, checkpoint, views)
    ensures Inv(c, s')
  {
    KeepIs(s.files, removed);
    assert Last(s.files).id !in removed;
    TruncateDisk(c, s.files, s'.files, s.proc);
    forall i, e | 0 <= i < |s'.files| && e in s'.files[i].log
      ensures e.txId in s'.txs && (s.proc.Some? ==> e.txId < s.proc.value.nextTx)
    {
      assert s'.files[i] in s.files;
      var j :| 0 <= j < |s.files| && s.files[j] == s'.files[i];
    }
    if s.proc.Some? {
      forall job | job in s.proc.value.handed ensures JobInv(s'.files, s.proc.value.phase, job) {
        TruncateJob(s.files, s'.files, s.proc.value.phase, job);
      }
    }
    forall id | id in s'.txs ensures TxInv(c, s', id) {
      assert TxInv(c, s, id);
      if id !in s'.truncated {
        NotLost(s.files, removed, id);
        KeepProj(s.files, removed, id);
        KeepLive(c, s.files, s'.files, s.proc, id, s.txs[id]);
      }
    }
  }

  /** The records of a file that lie behind what is in view. */
  function Unseen(c: Codec, f: File, view: nat): (r: seq<WalEntry>) { f.log[Whole(c, f.log, view)..] }

  /** The scan finds the largest id of the whole records in view. */
  lemma ScanOfView(c: Codec, f: File, view: nat)
    requires Lawful(c) && FileInv(c, f) && |f.tiers.durable| + |f.tiers.kernel| <= view <= |f.tiers.All()|
    ensures ScanMaxId(c, f.tiers.All()[..view]) == MaxId(f.log[..Whole(c, f.log, view)])
  {
    if f.torn == [] {
      assert f.tiers.All() == Frames(c, f.log);
      var torn := CutSplits(c, f.log, view);
      ScanMaxIdOfFrames(c, f.log[..Whole(c, f.log, view)], torn);
    } else {
      assert f.tiers.All()[..view] == f.tiers.All();
      WholeAll(c, f.log, view);
      assert f.log[..|f.log|] == f.log;
      ScanMaxIdOfFrames(c, f.log, f.torn);
    }
  }

  /** In a deleted file, an id at or above the checkpoint can only be behind the view. */
  lemma OnlyUnseen(c: Codec, f: File, view: nat, checkpoint: nat, id: TxId)
    requires Lawful(c) && FileInv(c, f) && |f.tiers.durable| + |f.tiers.kernel| <= view <= |f.tiers.All()|
    requires ScanMaxId(c, f.tiers.All()[..view]) < checkpoint <= id
    ensures Absent(id, f.log) <==> Absent(id, Unseen(c, f, view))
  {
    var n := Whole(c, f.log, view);
    ScanOfView(c, f, view);
    assert f.log == f.log[..n] + f.log[n..];
  }

  lemma LostIff(fs: seq<File>, removed: set<nat>, id: TxId)
    ensures id !in LostIds(fs, removed) <==> forall i :: 0 <= i < |fs| && fs[i].id in removed ==> Absent(id, fs[i].log)
  {
    if id !in LostIds(fs, removed) {
      NotLost(fs, removed, id);
    } else if forall i :: 0 <= i < |fs| && fs[i].id in removed ==> Absent(id, fs[i].log) {
      NoneLost(fs, removed, id);
    }
  }

  /** Exactly what truncation may cost an id at or above the checkpoint: the records behind the
      view of a deleted segment. */
  lemma TruncationSparesIff(c: Codec, s: State, s': State, removed: set<nat>, checkpoint: nat, views: seq<nat>,
      id: TxId)
    requires Lawful(c) && FilesInv(c, s.files) && TruncateStep(c, s, s', removed, checkpoint, views) && id >= checkpoint
    ensures id !in LostIds(s.files, removed) <==>
            forall i :: 0 <= i < |s.files| && s.files[i].id in removed ==> Absent(id, Unseen(c, s.files[i], views[i]))
  {
    LostIff(s.files, removed, id);
    forall i | 0 <= i < |s.files| && s.files[i].id in removed
      ensures Absent(id, s.files[i].log) <==> Absent(id, Unseen(c, s.files[i], views[i]))
    {
      OnlyUnseen(c, s.files[i], views[i], checkpoint, id);
    }
  }

  /** No rotation is under way: no segment but the active one has bytes in the application. */
  ghost predicate NotRotating(s: State) { s.proc.Some? ==> !s.proc.value.phase.Rotating? }

  /** Outside a rotation truncation below a checkpoint costs no transaction at or above it a record. */
  lemma TruncationSparesCheckpoint(c: Codec, s: State, s': State, removed: set<nat>, checkpoint: nat, views: seq<nat>,
      id: TxId)
    requires Lawful(c) && Inv(c, s) && TruncateStep(c, s, s', removed, checkpoint, views) && id >= checkpoint
      && NotRotating(s)
    ensures id !in LostIds(s.files, removed)
    ensures id in s'.truncated <==> id in s.truncated
  {
    forall i | 0 <= i < |s.files| && s.files[i].id in removed ensures Absent(id, Unseen(c, s.files[i], views[i])) {
      var f := s.files[i];
      assert f.tiers.Synced();
      WholeAll(c, f.log, views[i]);
    }
    TruncationSparesIff(c, s, s', removed, checkpoint, views, id);
  }

  lemma NoneLost(fs: seq<File>, removed: set<nat>, id: TxId)
    requires forall i :: 0 <= i < |fs| && fs[i].id in removed ==> Absent(id, fs[i].log)
    ensures id !in LostIds(fs, removed)
  {
    forall i, j | 0 <= i < |fs| && fs[i].id in removed && 0 <= j < |fs[i].log| ensures fs[i].log[j].txId != id {
      assert fs[i].log[j] in fs[i].log;
    }
  }
}
