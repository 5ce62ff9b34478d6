/** Durability, atomicity and the pipelined fsync rule over every run of the write-ahead log. */
module WalTheorems {
  import opened LittleEndian
  import opened Entry
  import opened Parser
  import opened Disk
  import opened Log
  import opened WalRun
  import opened WalInvariant
  import opened WalSteps
  import opened WalCrash

  // ----- Runs -----

  /** A run from the empty directory: any interleaving of writers, flusher, fsyncs, kernel,
      checkpoint truncation, any number of crashes and restarts. */
  ghost predicate Run(c: Codec, cfg: Config, states: seq<State>, steps: seq<Step>) {
    && |states| == |steps| + 1
    && states[0] == INIT
    && forall i :: 0 <= i < |steps| ==> Next(c, cfg, states[i], states[i + 1], steps[i])
  }

  /** No fsync of a pipelined mode fails; those of the waiting modes may. */
  ghost predicate Faultless(cfg: Config, steps: seq<Step>) {
    forall i :: 0 <= i < |steps| ==> Benign(cfg, steps[i])
  }

  lemma NextKeeps(c: Codec, cfg: Config, s: State, s': State, step: Step)
    requires Lawful(c) && Inv(c, s) && Next(c, cfg, s, s', step)
    ensures Inv(c, s')
  {
    match step
    case Begin(writer, entries, marker) => BeginKeeps(c, s, s', writer, entries, marker);
    case Send(id) => SendKeeps(c, s, s', id);
    case Drain(w) => DrainKeeps(c, cfg.mode, s, s', w);
    case StartWrite => StartWriteKeeps(c, cfg.mode, s, s');
    case OpenSegment => OpenSegmentKeeps(c, cfg, s, s');
    case SealOld => SealOldKeeps(c, s, s');
    case Append => AppendKeeps(c, cfg, s, s');
    case EndBatch => EndBatchKeeps(c, s, s');
    case SyncOk(j, reached) => SyncOkKeeps(c, s, s', j, reached);
    case SyncFail(j) => SyncFailKeeps(c, cfg.mode, s, s', j);
    case Writeback(i, p, q) => WritebackKeeps(c, s, s', i, p, q);
    case Truncate(removed, checkpoint, views) => TruncateKeeps(c, s, s', removed, checkpoint, views);
    case Crash(cuts) => CrashKeeps(c, s, s', cuts);
    case Restart(writers, counter) => RestartKeeps(c, s, s', writers, counter);
  }

  lemma {:induction false} RunInv(c: Codec, cfg: Config, states: seq<State>, steps: seq<Step>, i: nat)
    requires Lawful(c) && Run(c, cfg, states, steps) && i < |states|
    ensures Inv(c, states[i])
  {
    if i > 0 {
      RunInv(c, cfg, states, steps, i - 1);
      NextKeeps(c, cfg, states[i - 1], states[i], steps[i - 1]);
    }
  }

  // ----- Recovery after a crash -----

  /** What `recover` reports about `id` on these files. */
  ghost predicate Recovers(c: Codec, fs: seq<File>, id: TxId, action: RecoveryAction, entries: seq<WalEntry>) {
    var log := RecoveredLog(c, fs);
    ActionOf(id, log) == action && DataOf(id, log) == entries
  }

  lemma ScriptReads(id: TxId, t: Tx)
    requires TxShape(id, t)
    ensures NonMarkers(t.Script()) == t.entries
    ensures LastMarker(t.Script()) == if t.marker.Commit? then CommitAction else RollbackAction
  {
    assert t.Script()[..|t.entries|] == t.entries;
    NonMarkersOfData(t.entries);
  }

  /** A proper part of a script has no marker yet. */
  lemma PartialScriptReads(id: TxId, t: Tx, part: seq<WalEntry>)
    requires TxShape(id, t) && part <= t.Script() && part != t.Script()
    ensures LastMarker(part) == IncompleteAction
  {
    assert part == t.Script()[..|part|] == t.entries[..|part|];
    assert forall e :: e in part ==> e in t.entries;
    NonMarkersOfData(part);
  }

  lemma CrashFilesInv(c: Codec, fs: seq<File>, cuts: seq<nat>)
    requires FilesInv(c, fs) && Cuts(fs, cuts)
    ensures FilesInv(c, CrashFiles(c, fs, cuts))
  {
    forall i | 0 <= i < |fs| ensures FileInv(c, CrashFiles(c, fs, cuts)[i]) {
      CrashFileInv(c, fs[i], cuts[i]);
    }
  }

  /** Atomicity: at every crash point of every run, torn tails included, the recovered log is a
      prefix of what was on the segments; a transaction recovered as committed, acknowledged or
      not, is reported with exactly the operations it buffered; and one recovered as rolled
      back is reported with none. */
  lemma Atomicity(c: Codec, cfg: Config, states: seq<State>, steps: seq<Step>, i: nat, cuts: seq<nat>, id: TxId)
    requires Lawful(c) && Run(c, cfg, states, steps) && i < |states|
    requires Cuts(states[i].files, cuts)
    ensures RecoveredLog(c, CrashFiles(c, states[i].files, cuts)) <= Visible(states[i].files)
    ensures var log := RecoveredLog(c, CrashFiles(c, states[i].files, cuts));
            id !in states[i].truncated && ActionOf(id, log) != IncompleteAction ==>
              && id in states[i].txs
              && DataOf(id, log) == states[i].txs[id].entries
              && (ActionOf(id, log) == CommitAction <==> states[i].txs[id].marker.Commit?)
  {
    RunInv(c, cfg, states, steps, i);
    AtomicityAt(c, states[i], cuts, id);
  }

  lemma AtomicityAt(c: Codec, s: State, cuts: seq<nat>, id: TxId)
    requires Lawful(c) && Inv(c, s) && Cuts(s.files, cuts)
    ensures RecoveredLog(c, CrashFiles(c, s.files, cuts)) <= Visible(s.files)
    ensures var log := RecoveredLog(c, CrashFiles(c, s.files, cuts));
            id !in s.truncated && ActionOf(id, log) != IncompleteAction ==>
              && id in s.txs
              && DataOf(id, log) == s.txs[id].entries
              && (ActionOf(id, log) == CommitAction <==> s.txs[id].marker.Commit?)
  {
    CrashFilesInv(c, s.files, cuts);
    RecoveredIsVisible(c, CrashFiles(c, s.files, cuts));
    CrashLeavesPrefix(c, s.files, s.proc, cuts);
    var log := Visible(CrashFiles(c, s.files, cuts));
    ProjPrefix(id, log, Visible(s.files));
    if id in s.txs && id !in s.truncated {
      assert TxInv(c, s, id);
      PrefixReads(c, s.files, s.proc, id, s.txs[id], Proj(id, log));
    } else if id !in s.txs {
      UnknownAbsent(s, id);
    }
  }

  lemma UnknownAbsent(s: State, id: TxId)
    requires IdsInv(s.files, s.txs, s.proc) && id !in s.txs
    ensures Proj(id, Visible(s.files)) == []
  {
    forall e | e in Visible(s.files) ensures e.txId != id { InVisible(s.files, e); }
    ProjAbsent(id, Visible(s.files));
  }

  lemma PrefixReads(c: Codec, fs: seq<File>, proc: Option<Proc>, id: TxId, t: Tx, part: seq<WalEntry>)
    requires TxShape(id, t) && Live(c, fs, proc, id, t) && part <= Proj(id, Visible(fs))
    ensures LastMarker(part) != IncompleteAction ==>
              NonMarkers(part) == t.entries && (LastMarker(part) == CommitAction <==> t.marker.Commit?)
  {
    LivePrefix(c, fs, proc, id, t);
    ScriptReads(id, t);
    if part != t.Script() { PartialScriptReads(id, t, part); }
  }

  // ----- Durability -----

  /** The waiter of `id` was notified. */
  ghost predicate Acked(s: State, id: TxId, entries: seq<WalEntry>) {
    id in s.txs && s.txs[id].acked && s.txs[id].entries == entries && id !in s.truncated
  }

  /** The fsync of its own or a later hand-over returned Ok. */
  ghost predicate Secured(s: State, id: TxId, entries: seq<WalEntry>) {
    id in s.txs && s.txs[id].safe && s.txs[id].entries == entries && id !in s.truncated
  }

  /** The step deletes no segment that holds a record of `id`. */
  ghost predicate Spares(s: State, step: Step, id: TxId) {
    step.Truncate? ==> id !in LostIds(s.files, step.removed)
  }

  lemma SecuredBelowCounter(c: Codec, s: State, id: TxId, entries: seq<WalEntry>)
    requires Inv(c, s) && Secured(s, id, entries) && s.proc.Some?
    ensures id < s.proc.value.nextTx
  {
    var t := s.txs[id];
    assert TxInv(c, s, id);
    assert t.Script()[|t.entries|] == t.marker;
    assert t.marker in Proj(id, Visible(s.files));
    InVisible(s.files, t.marker);
  }

  lemma SecuredPersists(c: Codec, cfg: Config, s: State, s': State, step: Step, id: TxId, entries: seq<WalEntry>)
    requires Next(c, cfg, s, s', step) && Spares(s, step, id) && Secured(s, id, entries)
    requires s.proc.Some? ==> id < s.proc.value.nextTx
    ensures Secured(s', id, entries)
  {}

  lemma SecuredRecovers(c: Codec, s: State, cuts: seq<nat>, id: TxId, entries: seq<WalEntry>)
    requires Lawful(c) && Inv(c, s) && Secured(s, id, entries) && Cuts(s.files, cuts)
    ensures Recovers(c, CrashFiles(c, s.files, cuts), id, CommitAction, entries)
    ensures Recovers(c, s.files, id, CommitAction, entries)
  {
    assert TxInv(c, s, id);
    CrashFilesInv(c, s.files, cuts);
    RecoveredIsVisible(c, CrashFiles(c, s.files, cuts));
    RecoveredIsVisible(c, s.files);
    CrashKeepsDurable(c, s.files, cuts, id);
    ScriptReads(id, s.txs[id]);
  }

  lemma SecuredInRun(c: Codec, cfg: Config, states: seq<State>, steps: seq<Step>, k: nat, id: TxId,
      entries: seq<WalEntry>)
    requires Lawful(c) && Run(c, cfg, states, steps)
    requires k < |steps| && Secured(states[k], id, entries) && Spares(states[k], steps[k], id)
    ensures Secured(states[k + 1], id, entries)
  {
    RunInv(c, cfg, states, steps, k);
    if states[k].proc.Some? { SecuredBelowCounter(c, states[k], id, entries); }
    SecuredPersists(c, cfg, states[k], states[k + 1], steps[k], id, entries);
  }

  lemma {:induction false} SecuredForever(c: Codec, cfg: Config, states: seq<State>, steps: seq<Step>, i: nat, j: nat,
                                          id: TxId, entries: seq<WalEntry>)
    requires Lawful(c) && Run(c, cfg, states, steps)
    requires i <= j < |states| && Secured(states[i], id, entries)
    requires forall k :: i <= k < j ==> Spares(states[k], steps[k], id)
    ensures Secured(states[j], id, entries)
    decreases j - i
  {
    if i < j {
      SecuredForever(c, cfg, states, steps, i, j - 1, id, entries);
      SecuredInRun(c, cfg, states, steps, j - 1, id, entries);
    }
  }

  /** In every run, whatever fsyncs fail: once the fsync of a transaction's own or a later
      hand-over has returned Ok, recovery after any later steps reports it as committed with
      exactly its buffered operations in order, unless truncation deletes records of it. */
  lemma SecuredDurability(c: Codec, cfg: Config, states: seq<State>, steps: seq<Step>, i: nat, j: nat,
                          cuts: seq<nat>, id: TxId, entries: seq<WalEntry>)
    requires Lawful(c) && Run(c, cfg, states, steps)
    requires i <= j < |states| && Secured(states[i], id, entries)
    requires forall k :: i <= k < j ==> Spares(states[k], steps[k], id)
    requires Cuts(states[j].files, cuts)
    ensures Recovers(c, CrashFiles(c, states[j].files, cuts), id, CommitAction, entries)
    ensures Recovers(c, states[j].files, id, CommitAction, entries)
  {
    SecuredForever(c, cfg, states, steps, i, j, id, entries);
    RunInv(c, cfg, states, steps, j);
    SecuredRecovers(c, states[j], cuts, id, entries);
  }

  ghost predicate AckedIsSafe(s: State) { forall id :: id in s.txs && s.txs[id].acked ==> s.txs[id].safe }

  lemma AckedIsSafeStep(c: Codec, cfg: Config, s: State, s': State, step: Step)
    requires Inv(c, s) && AckedIsSafe(s) && Next(c, cfg, s, s', step) && Benign(cfg, step)
    ensures AckedIsSafe(s')
  {
    if step.SyncOk? {
      var p := s.proc.value;
      assert p.jobs[step.job] in p.handed;
    }
  }

  /** Where no fsync fails behind a waiter's back, notified means safe. */
  lemma {:induction false} AckedIsSafeInRun(c: Codec, cfg: Config, states: seq<State>, steps: seq<Step>, i: nat)
    requires Lawful(c) && Run(c, cfg, states, steps) && Faultless(cfg, steps) && i < |states|
    ensures AckedIsSafe(states[i])
  {
    if i > 0 {
      AckedIsSafeInRun(c, cfg, states, steps, i - 1);
      RunInv(c, cfg, states, steps, i - 1);
      AckedIsSafeStep(c, cfg, states[i - 1], states[i], steps[i - 1]);
    }
  }

  /** Durability: once a commit is acknowledged, recovery after any later steps, including any
      number of crashes and restarts, reports that transaction as committed with exactly its
      buffered operations in order, provided truncation deletes none of its records. */
  lemma Durability(c: Codec, cfg: Config, states: seq<State>, steps: seq<Step>, i: nat, j: nat,
                   cuts: seq<nat>, id: TxId, entries: seq<WalEntry>)
    requires Lawful(c) && Run(c, cfg, states, steps) && Faultless(cfg, steps)
    requires i <= j < |states| && Acked(states[i], id, entries)
    requires forall k :: i <= k < j ==> Spares(states[k], steps[k], id)
    requires Cuts(states[j].files, cuts)
    ensures Recovers(c, CrashFiles(c, states[j].files, cuts), id, CommitAction, entries)
    ensures Recovers(c, states[j].files, id, CommitAction, entries)
  {
    AckedIsSafeInRun(c, cfg, states, steps, i);
    SecuredDurability(c, cfg, states, steps, i, j, cuts, id, entries);
  }

  /** Ids at or above every checkpoint used for truncation are always spared, by truncations that
      do not fall into a rotation. */
  lemma CheckpointSpares(c: Codec, cfg: Config, states: seq<State>, steps: seq<Step>, k: nat, id: TxId)
    requires Lawful(c) && Run(c, cfg, states, steps) && k < |steps|
    requires steps[k].Truncate? ==> id >= steps[k].checkpoint && NotRotating(states[k])
    ensures Spares(states[k], steps[k], id)
  {
    if steps[k].Truncate? {
      RunInv(c, cfg, states, steps, k);
      TruncationSparesCheckpoint(c, states[k], states[k + 1], steps[k].removed, steps[k].checkpoint, steps[k].views,
        id);
    }
  }

  // ----- Pipelined fsyncs -----

  /** Every byte written up to the hand-over `mark` is durable. */
  ghost predicate MarkDurable(c: Codec, fs: seq<File>, mark: Job) {
    forall i :: 0 <= i < |fs| ==>
      && (fs[i].id < mark.file ==> fs[i].tiers.Synced())
      && (fs[i].id == mark.file ==>
        mark.upto <= |fs[i].log| && |Frames(c, fs[i].log[..mark.upto])| <= |fs[i].tiers.durable|)
  }

  function HandOver(s: State): (job: Job)
    requires s.files != [] && s.proc.Some?
  {
    Job(Last(s.files).id, |Last(s.files).log|, s.proc.value.waiters)
  }

  /** The log reaches at least as far as `mark`. */
  ghost predicate Reaches(fs: seq<File>, mark: Job) {
    && fs != [] && mark.file <= Last(fs).id
    && forall i :: 0 <= i < |fs| && fs[i].id == mark.file ==> mark.upto <= |fs[i].log|
  }

  lemma ReachesAfterKeep(fs: seq<File>, removed: set<nat>, mark: Job)
    requires Increasing(fs) && Reaches(fs, mark) && Last(fs).id !in removed
    ensures Reaches(Keep(fs, removed), mark)
  {
    KeepIs(fs, removed);
    var fs' := Keep(fs, removed);
    forall i | 0 <= i < |fs'| && fs'[i].id == mark.file ensures mark.upto <= |fs'[i].log| {
      assert fs'[i] in fs;
    }
  }

  lemma ReachesStep(c: Codec, cfg: Config, s: State, s': State, step: Step, mark: Job)
    requires Increasing(s.files) && Next(c, cfg, s, s', step) && s.proc.Some? && !step.Crash? && Reaches(s.files, mark)
    ensures s'.proc.Some? && Reaches(s'.files, mark)
  {
    if step.Truncate? { ReachesAfterKeep(s.files, step.removed, mark); }
  }

  /** Between crashes the log never falls behind a mark it has reached. */
  lemma {:induction false} ReachesInRun(c: Codec, cfg: Config, states: seq<State>, steps: seq<Step>, x: nat, y: nat,
      mark: Job)
    requires Lawful(c) && Run(c, cfg, states, steps) && x <= y < |states|
    requires states[x].proc.Some? && Reaches(states[x].files, mark) && forall k :: x <= k < y ==> !steps[k].Crash?
    ensures states[y].proc.Some? && Reaches(states[y].files, mark)
    decreases y - x
  {
    if x < y {
      ReachesInRun(c, cfg, states, steps, x, y - 1, mark);
      ReachesStepInRun(c, cfg, states, steps, y - 1, mark);
    }
  }

  lemma ReachesStepInRun(c: Codec, cfg: Config, states: seq<State>, steps: seq<Step>, k: nat, mark: Job)
    requires Lawful(c) && Run(c, cfg, states, steps) && k < |steps|
    requires states[k].proc.Some? && !steps[k].Crash? && Reaches(states[k].files, mark)
    ensures states[k + 1].proc.Some? && Reaches(states[k + 1].files, mark)
  {
    RunInv(c, cfg, states, steps, k);
    ReachesStep(c, cfg, states[k], states[k + 1], steps[k], mark);
  }

  lemma EarlierMarkDurable(c: Codec, fs: seq<File>, a: Job, b: Job)
    requires FilesInv(c, fs) && MarkLe(a, b) && MarkDurable(c, fs, b) && Reaches(fs, a)
    ensures MarkDurable(c, fs, a)
  {
    forall i | 0 <= i < |fs| && fs[i].id == a.file ensures |Frames(c, fs[i].log[..a.upto])| <= |fs[i].tiers.durable| {
      var f := fs[i];
      if a.file == b.file {
        FramesLen(c, f.log, a.upto, b.upto);
      } else {
        FramesLen(c, f.log, a.upto, |f.log|);
        assert f.log[..|f.log|] == f.log && f.tiers.All() == f.tiers.durable;
      }
    }
  }

  lemma SyncOkCovers(c: Codec, s: State, s': State, j: nat, reached: nat)
    requires Inv(c, s) && SyncOkStep(c, s, s', j, reached)
    ensures MarkDurable(c, s'.files, s.proc.value.jobs[j])
  {
    var job := s.proc.value.jobs[j];
    SyncFileAdvances(c, s, s', j, reached);
    assert job in s.proc.value.handed && JobInv(s.files, s.proc.value.phase, job);
    forall i | 0 <= i < |s.files| && s.files[i].id < job.file ensures s'.files[i].tiers.Synced() {
      AdvanceFile(c, s.files[i], s'.files[i]);
    }
  }

  /** Pipelined fsync: background fsyncs may finish in any order, yet when the waiters of the
      batch handed over at step `y` are notified at step `z`, every byte of every batch handed
      over at a step `x <= y` of the same process is durable, also when batches rotated
      segments midway. */
  lemma PipelinedFsync(c: Codec, cfg: Config, states: seq<State>, steps: seq<Step>, x: nat, y: nat, z: nat)
    requires Lawful(c) && Run(c, cfg, states, steps)
    requires x <= y < z < |steps| && steps[x].EndBatch? && steps[y].EndBatch? && steps[z].SyncOk?
    requires forall k :: x <= k < z ==> !steps[k].Crash?
    requires states[y].files != [] && states[y].proc.Some? && states[z].proc.Some?
    requires steps[z].job < |states[z].proc.value.jobs|
      && states[z].proc.value.jobs[steps[z].job] == HandOver(states[y])
    ensures states[x].files != [] && states[x].proc.Some?
    ensures MarkDurable(c, states[z + 1].files, HandOver(states[x]))
  {
    assert Next(c, cfg, states[x], states[x + 1], steps[x]);
    HandOverReached(c, cfg, states, steps, x);
    var a, b := HandOver(states[x]), HandOver(states[y]);
    HandOversInOrder(c, cfg, states, steps, x, y);
    ReachesInRun(c, cfg, states, steps, x, z, a);
    CoveredInRun(c, cfg, states, steps, z, a, b);
  }

  lemma HandOverReached(c: Codec, cfg: Config, states: seq<State>, steps: seq<Step>, x: nat)
    requires Lawful(c) && Run(c, cfg, states, steps) && x < |states|
    requires states[x].files != [] && states[x].proc.Some?
    ensures Reaches(states[x].files, HandOver(states[x]))
  {
    RunInv(c, cfg, states, steps, x);
  }

  lemma CoveredInRun(c: Codec, cfg: Config, states: seq<State>, steps: seq<Step>, z: nat, a: Job, b: Job)
    requires Lawful(c) && Run(c, cfg, states, steps)
    requires z < |steps| && steps[z].SyncOk? && states[z].proc.Some?
    requires steps[z].job < |states[z].proc.value.jobs| && states[z].proc.value.jobs[steps[z].job] == b
    requires MarkLe(a, b) && Reaches(states[z].files, a)
    ensures MarkDurable(c, states[z + 1].files, a)
  {
    RunInv(c, cfg, states, steps, z);
    ReachesStepInRun(c, cfg, states, steps, z, a);
    RunInv(c, cfg, states, steps, z + 1);
    SyncOkCovers(c, states[z], states[z + 1], steps[z].job, steps[z].reached);
    EarlierMarkDurable(c, states[z + 1].files, a, b);
  }

  // ----- Who is safe -----

  lemma HandedStep(c: Codec, cfg: Config, s: State, s': State, step: Step, job: Job)
    requires Next(c, cfg, s, s', step) && s.proc.Some? && !step.Crash? && job in s.proc.value.handed
    ensures s'.proc.Some? && job in s'.proc.value.handed
  {}

  lemma HandedStepInRun(c: Codec, cfg: Config, states: seq<State>, steps: seq<Step>, k: nat, job: Job)
    requires Run(c, cfg, states, steps) && k < |steps|
    requires states[k].proc.Some? && !steps[k].Crash? && job in states[k].proc.value.handed
    ensures states[k + 1].proc.Some? && job in states[k + 1].proc.value.handed
  {
    HandedStep(c, cfg, states[k], states[k + 1], steps[k], job);
  }

  lemma {:induction false} HandedInRun(c: Codec, cfg: Config, states: seq<State>, steps: seq<Step>, x: nat, z: nat,
      job: Job)
    requires Run(c, cfg, states, steps) && x <= z < |states|
    requires states[x].proc.Some? && job in states[x].proc.value.handed && forall k :: x <= k < z ==> !steps[k].Crash?
    ensures states[z].proc.Some? && job in states[z].proc.value.handed
    decreases z - x
  {
    if x < z {
      HandedInRun(c, cfg, states, steps, x, z - 1, job);
      HandedStepInRun(c, cfg, states, steps, z - 1, job);
    }
  }

  lemma SyncOkMakesSafe(c: Codec, s: State, s': State, j: nat, reached: nat, h: Job, id: TxId)
    requires Inv(c, s) && SyncOkStep(c, s, s', j, reached)
    requires h in s.proc.value.handed && MarkLe(h, s.proc.value.jobs[j]) && id in h.waiters
    ensures id in s'.txs && s'.txs[id].safe && s'.txs[id].entries == s.txs[id].entries
  {
    assert Alive(s.txs, id);
    assert HandedBy(s.proc.value.handed, s.proc.value.jobs[j], id);
  }

  lemma HandOverIsHanded(s: State, s': State)
    requires EndBatchStep(s, s')
    ensures HandOver(s) in s'.proc.value.handed
  {}

  /** Hand-overs of one process are in log order. */
  lemma HandOversInOrder(c: Codec, cfg: Config, states: seq<State>, steps: seq<Step>, x: nat, y: nat)
    requires Lawful(c) && Run(c, cfg, states, steps) && x <= y < |states|
    requires states[x].files != [] && states[x].proc.Some? && forall k :: x <= k < y ==> !steps[k].Crash?
    requires states[y].files != [] && states[y].proc.Some?
    ensures MarkLe(HandOver(states[x]), HandOver(states[y]))
  {
    HandOverReached(c, cfg, states, steps, x);
    ReachesInRun(c, cfg, states, steps, x, y, HandOver(states[x]));
  }

  lemma SafeInRun(c: Codec, cfg: Config, states: seq<State>, steps: seq<Step>, z: nat, h: Job, id: TxId)
    requires Lawful(c) && Run(c, cfg, states, steps) && z < |steps| && steps[z].SyncOk? && states[z].proc.Some?
    requires h in states[z].proc.value.handed && id in h.waiters
    requires steps[z].job < |states[z].proc.value.jobs| && MarkLe(h, states[z].proc.value.jobs[steps[z].job])
    ensures id in states[z + 1].txs && states[z + 1].txs[id].safe
  {
    RunInv(c, cfg, states, steps, z);
    assert Next(c, cfg, states[z], states[z + 1], steps[z]);
    SyncOkMakesSafe(c, states[z], states[z + 1], steps[z].job, steps[z].reached, h, id);
  }

  /** The condition a caller can see: in every run, however many fsyncs fail before, between or
      after, a transaction handed over at step `x` is safe once the fsync of a hand-over `y >= x`
      of the same process has returned Ok. */
  lemma LaterFsyncSecures(c: Codec, cfg: Config, states: seq<State>, steps: seq<Step>, x: nat, y: nat, z: nat, id: TxId)
    requires Lawful(c) && Run(c, cfg, states, steps)
    requires x <= y < z < |steps| && steps[x].EndBatch? && steps[y].EndBatch? && steps[z].SyncOk?
    requires forall k :: x <= k < z ==> !steps[k].Crash?
    requires states[x].proc.Some? && id in states[x].proc.value.waiters
    requires states[y].files != [] && states[y].proc.Some? && states[z].proc.Some?
    requires steps[z].job < |states[z].proc.value.jobs|
      && states[z].proc.value.jobs[steps[z].job] == HandOver(states[y])
    ensures id in states[z + 1].txs && states[z + 1].txs[id].safe
  {
    assert Next(c, cfg, states[x], states[x + 1], steps[x]);
    HandOverIsHanded(states[x], states[x + 1]);
    HandOversInOrder(c, cfg, states, steps, x, y);
    HandedInRun(c, cfg, states, steps, x + 1, z, HandOver(states[x]));
    SafeInRun(c, cfg, states, steps, z, HandOver(states[x]), id);
  }
}
