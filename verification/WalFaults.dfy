/** The documented promise that fails: the pipelined modes notify commit waiters after a failed
    fsync too. A run that loses an acknowledged commit, and exactly when none is lost. */
module WalFaults {
  import opened LittleEndian
  import opened Entry
  import opened Parser
  import opened Disk
  import opened Log
  import opened WalRun
  import opened WalInvariant
  import opened WalSteps
  import opened WalCrash
  import opened WalTheorems

  const COMMIT := WalEntry.Commit(1, 0)

  /** Restart, then a transaction without operations begins and sends its commit barrier. */
  lemma DoomedSend(c: Codec, cfg: Config) returns (states: seq<State>, steps: seq<Step>)
    requires Fits(c, COMMIT)
    ensures |steps| == 3 && Run(c, cfg, states, steps)
    ensures states[3] == State([File(1, Tiers([], [], []), [], [])], Some(Proc([[COMMIT]], [], [], Collect, [], [], 2)),
                               map[1 := Tx(0, [], COMMIT, 1, true, false, false)], {})
  {
    var s0 := INIT;
    var s1 := s0.(files := [File(1, Tiers([], [], []), [], [])], proc := Some(Proc([[]], [], [], Collect, [], [], 1)));
    var none: seq<WalEntry> := [];
    assert seq(1, _ => none) == [none];
    assert s0.files + s1.files == s1.files;
    var s2 := s1.(proc := Some(s1.proc.value.(nextTx := 2)), txs := map[1 := Tx(0, [], COMMIT, 0, true, false, false)]);
    assert s1.truncated - {1} == {};
    var s3 := s2.(proc := Some(s2.proc.value.(queues := [[COMMIT]])),
      txs := map[1 := Tx(0, [], COMMIT, 1, true, false, false)]);
    assert none + [COMMIT] == [COMMIT];
    assert [none][0 := [COMMIT]] == [[COMMIT]];
    states, steps := [s0, s1, s2, s3], [Restart(1, 1), Begin(0, [], COMMIT), Send(1)];
  }

  /** From there: drained, written, flushed, and its fsync fails. */
  lemma DoomedFlush(c: Codec, cfg: Config, s3: State) returns (rest: seq<State>, steps: seq<Step>)
    requires cfg == Config(Pipelined, 1)
    requires s3 == State([File(1, Tiers([], [], []), [], [])], Some(Proc([[COMMIT]], [], [], Collect, [], [], 2)),
                         map[1 := Tx(0, [], COMMIT, 1, true, false, false)], {})
    ensures |steps| == 5 && |rest| == 6 && rest[0] == s3
    ensures forall i :: 0 <= i < 5 ==> Next(c, cfg, rest[i], rest[i + 1], steps[i])
    ensures Acked(rest[5], 1, []) && |rest[5].files| == 1
    ensures rest[5].files[0].tiers.durable == [] && rest[5].files[0].log != []
  {
    var p3 := s3.proc.value;
    var s4 := s3.(proc := Some(p3.(queues := p3.queues[0 := p3.queues[0][1..]], batch := [] + [COMMIT],
      waiters := [] + [1])));
    var s5 := s4.(proc := Some(s4.proc.value.(phase := WalRun.Write(0))));
    var s6 := s5.(files := s5.files[0 := AppendFile(c, s5.files[0], COMMIT)],
      proc := Some(s4.proc.value.(phase := WalRun.Write(1))));
    var f := s6.files[0];
    var job := Job(1, |f.log|, [] + [1]);
    var s7 := s6.(files := s6.files[0 := f.(tiers := f.tiers.Flush())],
                  proc := Some(s6.proc.value.(phase := Collect, batch := [], waiters := [], jobs := [] + [job],
                    handed := [] + [job])));
    var s8 := s7.(proc := Some(s7.proc.value.(jobs := Without(s7.proc.value.jobs, 0))),
      txs := AckAll(s7.txs, [] + [1]));
    rest, steps := [s3, s4, s5, s6, s7, s8], [Drain(0), StartWrite, Append, EndBatch, SyncFail(0)];
  }

  /** One writer, one transaction, one failed fsync: acknowledged, then lost to a crash. */
  lemma FailedPipelinedFsyncLosesCommit(c: Codec) returns (cfg: Config, states: seq<State>, steps: seq<Step>)
    requires Fits(c, COMMIT)
    ensures cfg.mode.Pipelined? && Run(c, cfg, states, steps) && |steps| == 8
    ensures Acked(states[8], 1, [])
    ensures Cuts(states[8].files, [0]) && Recovers(c, CrashFiles(c, states[8].files, [0]), 1, IncompleteAction, [])
  {
    cfg := Config(Pipelined, 1);
    var first, steps1 := DoomedSend(c, cfg);
    var rest, steps2 := DoomedFlush(c, cfg, first[3]);
    states, steps := first + rest[1..], steps1 + steps2;
    forall i | 0 <= i < 8 ensures Next(c, cfg, states[i], states[i + 1], steps[i]) {
      if i >= 3 { assert Next(c, cfg, rest[i - 3], rest[i - 2], steps2[i - 3]); }
    }
    var f := states[8].files[0];
    assert states[8].files == [f];
    NothingLeft(c, f);
  }

  lemma NothingLeft(c: Codec, f: File)
    requires f.tiers.durable == [] && f.log != []
    ensures Cuts([f], [0]) && Recovers(c, CrashFiles(c, [f], [0]), 1, IncompleteAction, [])
  {
    var g := CrashFile(c, f, 0);
    assert CrashFiles(c, [f], [0]) == [g];
    assert g.tiers.All() == [];
    assert Parse(c, []).entries == [];
    assert RecoveredLog(c, [g][..0]) == [];
  }

  // ----- Exactly when the notification is safe -----

  function Count(fs: seq<File>, id: TxId): (n: nat) {
    if fs == [] then 0 else Count(fs[..|fs| - 1], id) + |Proj(id, Last(fs).log)|
  }

  lemma {:induction false} VisibleCount(fs: seq<File>, id: TxId)
    ensures |Proj(id, Visible(fs))| == Count(fs, id)
  {
    if fs != [] {
      VisibleCount(fs[..|fs| - 1], id);
      ProjConcat(id, Visible(fs[..|fs| - 1]), Last(fs).log);
    }
  }

  ghost predicate NoLonger(fs: seq<File>, fs': seq<File>, id: TxId) {
    |fs| == |fs'| && forall i :: 0 <= i < |fs| ==> |Proj(id, fs'[i].log)| <= |Proj(id, fs[i].log)|
  }

  lemma NoLongerFront(fs: seq<File>, fs': seq<File>, id: TxId)
    requires NoLonger(fs, fs', id) && fs != []
    ensures NoLonger(fs[..|fs| - 1], fs'[..|fs| - 1], id) && |Proj(id, Last(fs').log)| <= |Proj(id, Last(fs).log)|
  {}

  lemma {:induction false} CountNoMore(fs: seq<File>, fs': seq<File>, id: TxId)
    requires NoLonger(fs, fs', id)
    ensures Count(fs', id) <= Count(fs, id)
  {
    if fs != [] {
      NoLongerFront(fs, fs', id);
      CountNoMore(fs[..|fs| - 1], fs'[..|fs| - 1], id);
    }
  }

  /** A file that lost a record of `id` shows in the total. */
  lemma {:induction false} CountDrops(fs: seq<File>, fs': seq<File>, id: TxId, k: nat)
    requires NoLonger(fs, fs', id) && k < |fs| && |Proj(id, fs'[k].log)| < |Proj(id, fs[k].log)|
    ensures Count(fs', id) < Count(fs, id)
  {
    var n := |fs| - 1;
    NoLongerFront(fs, fs', id);
    if k == n { CountNoMore(fs[..n], fs'[..n], id); } else { CountDrops(fs[..n], fs'[..n], id, k); }
  }

  /** The crash that keeps only durable bytes loses the undurable records of each file. */
  lemma DurableCrash(c: Codec, f: File, id: TxId)
    requires FileInv(c, f)
    ensures var log := CrashFile(c, f, |f.tiers.durable|).log;
            && |Proj(id, log)| <= |Proj(id, f.log)|
            && (|Proj(id, log)| == |Proj(id, f.log)| ==> Absent(id, Undurable(c, f)))
  {
    var log, rest := CrashFile(c, f, |f.tiers.durable|).log, Undurable(c, f);
    assert f.log == log + rest;
    ProjConcat(id, log, rest);
    ProjAbsent(id, rest);
  }

  function DurableCuts(fs: seq<File>): (cuts: seq<nat>)
    ensures |cuts| == |fs|
  {
    seq(|fs|, i requires 0 <= i < |fs| => |fs[i].tiers.durable|)
  }

  /** What a crash that keeps only durable bytes takes from a transaction. */
  lemma SurvivingIsDurable(c: Codec, fs: seq<File>, id: TxId)
    requires FilesInv(c, fs) && Cuts(fs, DurableCuts(fs))
    requires Proj(id, Visible(CrashFiles(c, fs, DurableCuts(fs)))) == Proj(id, Visible(fs))
    ensures AllDurable(c, fs, id)
  {
    var fs' := CrashFiles(c, fs, DurableCuts(fs));
    forall i | 0 <= i < |fs|
      ensures |Proj(id, fs'[i].log)| <= |Proj(id, fs[i].log)|
      ensures |Proj(id, fs'[i].log)| == |Proj(id, fs[i].log)| ==> Absent(id, Undurable(c, fs[i]))
    {
      DurableCrash(c, fs[i], id);
    }
    VisibleCount(fs, id);
    VisibleCount(fs', id);
    forall i | 0 <= i < |fs| ensures Absent(id, Undurable(c, fs[i])) {
      if |Proj(id, fs'[i].log)| < |Proj(id, fs[i].log)| { CountDrops(fs, fs', id, i); }
    }
  }

  /** All of the transaction is in the log and on disk. */
  ghost predicate WholeAndDurable(c: Codec, fs: seq<File>, id: TxId, t: Tx) {
    t.marker.Commit? && Proj(id, Visible(fs)) == t.Script() && AllDurable(c, fs, id)
  }

  /** Whatever a crash now leaves, recovery reports the transaction as committed, with its entries. */
  ghost predicate SurvivesCrashes(c: Codec, fs: seq<File>, id: TxId, t: Tx) {
    forall cuts :: Cuts(fs, cuts) ==> Recovers(c, CrashFiles(c, fs, cuts), id, CommitAction, t.entries)
  }

  lemma DurableSurvives(c: Codec, fs: seq<File>, cuts: seq<nat>, id: TxId, t: Tx)
    requires Lawful(c) && FilesInv(c, fs) && Cuts(fs, cuts) && TxShape(id, t) && WholeAndDurable(c, fs, id, t)
    ensures Recovers(c, CrashFiles(c, fs, cuts), id, CommitAction, t.entries)
  {
    ScriptReads(id, t);
    CrashFilesInv(c, fs, cuts);
    RecoveredIsVisible(c, CrashFiles(c, fs, cuts));
    CrashKeepsDurable(c, fs, cuts, id);
  }

  lemma SurvivorIsDurable(c: Codec, fs: seq<File>, proc: Option<Proc>, id: TxId, t: Tx)
    requires Lawful(c) && DiskInv(c, fs, proc) && TxShape(id, t) && Live(c, fs, proc, id, t)
    requires Cuts(fs, DurableCuts(fs)) && Recovers(c, CrashFiles(c, fs, DurableCuts(fs)), id, CommitAction, t.entries)
    ensures WholeAndDurable(c, fs, id, t)
  {
    var fs' := CrashFiles(c, fs, DurableCuts(fs));
    CrashFilesInv(c, fs, DurableCuts(fs));
    RecoveredIsVisible(c, fs');
    CrashLeavesPrefix(c, fs, proc, DurableCuts(fs));
    ProjPrefix(id, Visible(fs'), Visible(fs));
    LivePrefix(c, fs, proc, id, t);
    ScriptReads(id, t);
    var part := Proj(id, Visible(fs'));
    if part != t.Script() { PartialScriptReads(id, t, part); }
    SurvivingIsDurable(c, fs, id);
  }

  lemma SurvivesIff(c: Codec, fs: seq<File>, proc: Option<Proc>, id: TxId, t: Tx)
    requires Lawful(c) && DiskInv(c, fs, proc) && TxShape(id, t) && Live(c, fs, proc, id, t)
    ensures SurvivesCrashes(c, fs, id, t) <==> WholeAndDurable(c, fs, id, t)
  {
    if WholeAndDurable(c, fs, id, t) {
      forall cuts | Cuts(fs, cuts) ensures Recovers(c, CrashFiles(c, fs, cuts), id, CommitAction, t.entries) {
        DurableSurvives(c, fs, cuts, id, t);
      }
    } else if SurvivesCrashes(c, fs, id, t) {
      assert Cuts(fs, DurableCuts(fs));
      SurvivorIsDurable(c, fs, proc, id, t);
    }
  }

  /** Until a crash, all records of a notified transaction are in the log. */
  lemma AckedIsWhole(c: Codec, fs: seq<File>, p: Proc, id: TxId, t: Tx)
    requires Live(c, fs, Some(p), id, t) && t.alive && t.acked
    ensures t.marker.Commit? && Proj(id, Visible(fs)) == t.Script()
  {
    var job :| job in p.handed && id in job.waiters;
    assert Covered(fs, p, id, t, job);
    DrainedOnDisk(fs, p, id, t);
  }

  /** In every state of every run, however many fsyncs have failed and however often waiters were
      notified regardless: a transaction survives every crash if and only if all its records are
      in the log and durable. For an acknowledged one of the running process the first half
      always holds, so it survives if and only if its records are durable. */
  lemma AcknowledgedSurvivesIff(c: Codec, cfg: Config, states: seq<State>, steps: seq<Step>, j: nat, id: TxId)
    requires Lawful(c) && Run(c, cfg, states, steps) && j < |states|
    requires id in states[j].txs && id !in states[j].truncated
    ensures var s := states[j];
            SurvivesCrashes(c, s.files, id, s.txs[id]) <==> WholeAndDurable(c, s.files, id, s.txs[id])
    ensures var s := states[j];
            s.txs[id].acked && s.txs[id].alive ==>
              (SurvivesCrashes(c, s.files, id, s.txs[id]) <==> AllDurable(c, s.files, id))
  {
    RunInv(c, cfg, states, steps, j);
    var s := states[j];
    assert TxInv(c, s, id);
    SurvivesIff(c, s.files, s.proc, id, s.txs[id]);
    if s.txs[id].acked && s.txs[id].alive { AckedIsWhole(c, s.files, s.proc.value, id, s.txs[id]); }
  }
}
