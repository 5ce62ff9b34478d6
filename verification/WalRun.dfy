/** The write-ahead log over whole runs: writers, flusher, segment files, background fsyncs,
    crashes, restarts and truncation as one step system. */
module WalRun {
  import opened LittleEndian
  import opened Entry
  import opened Parser
  import opened Disk
  import opened Log

  // ----- State -----

  /** A segment file. `log` and `torn` are history: the whole records the bytes hold, and what
      a crash left of one more record. */
  datatype File = File(id: nat, tiers: Tiers, log: seq<WalEntry>, torn: Bytes)

  /** A transaction: what its buffer holds, the marker it ends with, and how far it got.
      `alive` says that it belongs to the running process, `acked` that its waiter was notified,
      and `safe` that the fsync of its own or of a later hand-over returned Ok. */
  datatype Tx = Tx(writer: nat, entries: seq<WalEntry>, marker: WalEntry, sent: nat, alive: bool, acked: bool,
      safe: bool) {
    function Script(): (s: seq<WalEntry>)
      ensures |s| == |entries| + 1
    {
      entries + [marker]
    }
  }

  datatype Phase = Collect | Write(done: nat) | Rotating(done: nat, sealing: nat)

  /** A hand-over to fsync: the active file and its record count when the batch was flushed. */
  datatype Job = Job(file: nat, upto: nat, waiters: seq<TxId>)

  /** Hand-over `a` is not later than `b`. */
  predicate MarkLe(a: Job, b: Job) { a.file < b.file || (a.file == b.file && a.upto <= b.upto) }

  /** The running process. A queue is one writer's ring together with the receiver's buffer.
      `jobs` are the fsyncs under way; `handed` is history: every hand-over of the process. */
  datatype Proc = Proc(queues: seq<seq<WalEntry>>, batch: seq<WalEntry>, waiters: seq<TxId>, phase: Phase,
                       jobs: seq<Job>, handed: seq<Job>, nextTx: TxId) {
    function Unwritten(): (r: seq<WalEntry>) {
      match phase
      case Collect => batch
      case Write(done) => if done <= |batch| then batch[done..] else []
      case Rotating(done, _) => if done <= |batch| then batch[done..] else []
    }
  }

  /** `truncated` holds the ids that lost a record to truncation (until the id is used anew). */
  datatype State = State(files: seq<File>, proc: Option<Proc>, txs: map<TxId, Tx>, truncated: set<TxId>)

  /** Waiting covers Full, DataOnly and Background; Pipelined the three pipelined modes. */
  datatype SyncMode = Waiting | Pipelined

  datatype Config = Config(mode: SyncMode, maxSegmentSize: nat)

  function Last(fs: seq<File>): (f: File)
    requires fs != []
  {
    fs[|fs| - 1]
  }

  /** All whole records on disk, in segment order. */
  function Visible(fs: seq<File>): (r: seq<WalEntry>) {
    if fs == [] then [] else Visible(fs[..|fs| - 1]) + Last(fs).log
  }

  function DurableCount(c: Codec, f: File): (n: nat)
    ensures n <= |f.log|
  {
    Whole(c, f.log, |f.tiers.durable|)
  }

  function Undurable(c: Codec, f: File): (r: seq<WalEntry>) { f.log[DurableCount(c, f)..] }

  // ----- Steps -----

  datatype Step =
    | Begin(writer: nat, entries: seq<WalEntry>, marker: WalEntry)
    | Send(id: TxId)
    | Drain(queue: nat)
    | StartWrite
    | OpenSegment
    | SealOld
    | Append
    | EndBatch
    | SyncOk(job: nat, reached: nat)
    | SyncFail(job: nat)
    | Writeback(index: nat, p: nat, q: nat)
    | Truncate(removed: set<nat>, checkpoint: nat, views: seq<nat>)
    | Crash(cuts: seq<nat>)
    | Restart(writers: nat, counter: nat)

  const INIT := State([], None, map[], {})

  /** `Transaction::new` takes the next id; its operations and its end are fixed here and only
      become visible through Send. `abort` discards the buffer before sending its marker. Every
      record serializes, to a length that its header can hold. */
  ghost predicate BeginStep(c: Codec, s: State, s': State, writer: nat, entries: seq<WalEntry>, marker: WalEntry) {
    && s.proc.Some?
    && var p := s.proc.value;
    var id := p.nextTx;
    && writer < |p.queues|
    && (forall e :: e in entries ==> e.txId == id && !e.IsMarker())
    && marker.IsMarker() && marker.txId == id
    && FitsAll(c, entries) && Fits(c, marker)
    && (marker.Abort? ==> entries == [])
    && s' == s.(proc := Some(p.(nextTx := id + 1)),
                txs := s.txs[id := Tx(writer, entries, marker, 0, true, false, false)],
                truncated := s.truncated - {id})
  }

  /** `append`, `commit` or `abort` pushes the transaction's next record into its ring. */
  ghost predicate SendStep(s: State, s': State, id: TxId) {
    && s.proc.Some? && id in s.txs
    && var p := s.proc.value;
    var t := s.txs[id];
    && t.alive && t.sent < |t.Script()| && t.writer < |p.queues|
    && s' == s.(proc := Some(p.(queues := p.queues[t.writer := p.queues[t.writer] + [t.Script()[t.sent]]])),
                txs := s.txs[id := t.(sent := t.sent + 1)])
  }

  /** The flusher may collect and write while no fsync keeps it waiting. */
  ghost predicate FlusherFree(mode: SyncMode, p: Proc) { mode.Pipelined? || p.jobs == [] }

  /** `collect_envelope`: a commit barrier also queues its waiter. */
  ghost predicate DrainStep(mode: SyncMode, s: State, s': State, w: nat) {
    && s.proc.Some?
    && var p := s.proc.value;
    && FlusherFree(mode, p) && p.phase.Collect? && w < |p.queues| && p.queues[w] != []
    && var e := p.queues[w][0];
    s' == s.(proc := Some(p.(queues := p.queues[w := p.queues[w][1..]],
                             batch := p.batch + [e],
                             waiters := if e.Commit? then p.waiters + [e.txId] else p.waiters)))
  }

  ghost predicate StartWriteStep(mode: SyncMode, s: State, s': State) {
    && s.proc.Some?
    && var p := s.proc.value;
    && FlusherFree(mode, p) && p.phase.Collect? && p.batch != []
    && s' == s.(proc := Some(p.(phase := Write(0))))
  }

  predicate NeedsRotation(cfg: Config, f: File) { |f.tiers.All()| >= cfg.maxSegmentSize }

  /** First half of `rotate`: the new segment becomes the active one. */
  ghost predicate OpenSegmentStep(cfg: Config, s: State, s': State) {
    && s.proc.Some? && s.files != [] && NeedsRotation(cfg, Last(s.files))
    && var p := s.proc.value;
    && p.phase.Write? && p.phase.done < |p.batch|
    && var id := Last(s.files).id;
    s' == s.(files := s.files + [File(id + 1, Tiers([], [], []), [], [])],
             proc := Some(p.(phase := Rotating(p.phase.done, id))))
  }

  /** Second half of `rotate`: the old segment is sealed before the new one receives bytes. */
  ghost predicate SealOldStep(s: State, s': State) {
    && s.proc.Some?
    && var p := s.proc.value;
    && p.phase.Rotating?
    && s' == s.(files := SealFile(s.files, p.phase.sealing), proc := Some(p.(phase := Write(p.phase.done))))
  }

  function SealFile(fs: seq<File>, id: nat): (r: seq<File>)
    ensures |r| == |fs|
  {
    seq(|fs|, i requires 0 <= i < |fs| => if fs[i].id == id then fs[i].(tiers := fs[i].tiers.Sync()) else fs[i])
  }

  function AppendFile(c: Codec, f: File, e: WalEntry): (r: File) {
    f.(tiers := f.tiers.Write(Frame(c, e)), log := f.log + [e])
  }

  /** `append_entry` on the active segment. */
  ghost predicate AppendStep(c: Codec, cfg: Config, s: State, s': State) {
    && s.proc.Some? && s.files != []
    && (NeedsRotation(cfg, Last(s.files)) ==> Last(s.files).log == [])
    && var p := s.proc.value;
    && p.phase.Write? && p.phase.done < |p.batch|
    && s' == s.(files := s.files[|s.files| - 1 := AppendFile(c, Last(s.files), p.batch[p.phase.done])],
                proc := Some(p.(phase := Write(p.phase.done + 1))))
  }

  /** The batch is written: flush the active segment and hand it and the waiters to fsync. */
  ghost predicate EndBatchStep(s: State, s': State) {
    && s.proc.Some? && s.files != []
    && var p := s.proc.value;
    && p.phase.Write? && p.phase.done == |p.batch|
    && var f := Last(s.files);
    s' == s.(files := s.files[|s.files| - 1 := f.(tiers := f.tiers.Flush())],
             proc := Some(p.(phase := Collect, batch := [], waiters := [],
                             jobs := p.jobs + [Job(f.id, |f.log|, p.waiters)],
                             handed := p.handed + [Job(f.id, |f.log|, p.waiters)])))
  }

  ghost function AckAll(txs: map<TxId, Tx>, ids: seq<TxId>): (r: map<TxId, Tx>)
    ensures r.Keys == txs.Keys
  {
    map id | id in txs :: if id in ids then txs[id].(acked := true) else txs[id]
  }

  /** `id` was handed over no later than `job`. */
  ghost predicate HandedBy(handed: seq<Job>, job: Job, id: TxId) {
    exists h :: h in handed && MarkLe(h, job) && id in h.waiters
  }

  ghost function SecureAll(txs: map<TxId, Tx>, handed: seq<Job>, job: Job): (r: map<TxId, Tx>)
    ensures r.Keys == txs.Keys
  {
    map id | id in txs :: if HandedBy(handed, job, id) then txs[id].(safe := true) else txs[id]
  }

  function Without<T>(xs: seq<T>, i: nat): (r: seq<T>)
    requires i < |xs|
  {
    xs[..i] + xs[i + 1..]
  }

  /** An fsync of a flushed file succeeds: at least what its batch had flushed is durable now,
      perhaps more; in any order with other fsyncs. Then its waiters are notified, and all
      transactions handed over no later are safe. */
  ghost predicate SyncOkStep(c: Codec, s: State, s': State, j: nat, reached: nat) {
    && s.proc.Some?
    && var p := s.proc.value;
    && j < |p.jobs|
    && var job := p.jobs[j];
    && (forall i :: 0 <= i < |s.files| && s.files[i].id == job.file ==>
          && |s.files[i].tiers.durable| <= reached <= |s.files[i].tiers.durable| + |s.files[i].tiers.kernel|
          && job.upto <= |s.files[i].log|
          && |Frames(c, s.files[i].log[..job.upto])| <= reached)
    && s' == s.(files := SyncFile(s.files, job.file, reached),
                proc := Some(p.(jobs := Without(p.jobs, j))),
                txs := AckAll(SecureAll(s.txs, p.handed, job), job.waiters))
  }

  ghost function SyncFile(fs: seq<File>, id: nat, k: nat): (r: seq<File>)
    requires forall i :: 0 <= i < |fs| && fs[i].id == id ==>
      |fs[i].tiers.durable| <= k <= |fs[i].tiers.durable| + |fs[i].tiers.kernel|
    ensures |r| == |fs|
  {
    seq(|fs|, i requires 0 <= i < |fs| =>
      if fs[i].id == id then fs[i].(tiers := fs[i].tiers.Advance(k, |fs[i].tiers.durable| + |fs[i].tiers.kernel|))
        else fs[i])
  }

  /** A failed fsync: the waiting modes drop the waiters, the pipelined modes notify them. */
  ghost predicate SyncFailStep(mode: SyncMode, s: State, s': State, j: nat) {
    && s.proc.Some?
    && var p := s.proc.value;
    && j < |p.jobs|
    && s' == s.(proc := Some(p.(jobs := Without(p.jobs, j))),
                txs := if mode.Pipelined? then AckAll(s.txs, p.jobs[j].waiters) else s.txs)
  }

  /** Buffers spill and the kernel writes back whenever it likes. */
  ghost predicate WritebackStep(s: State, s': State, i: nat, p: nat, q: nat) {
    && s.proc.Some? && i < |s.files|
    && var t := s.files[i].tiers;
    && |t.durable| <= p <= q && |t.durable| + |t.kernel| <= q <= |t.All()|
    && s' == s.(files := s.files[i := s.files[i].(tiers := t.Advance(p, q))])
  }

  /** How much of each file another task can read: all that has left the application, and perhaps
      its buffer. The simulator shows everything, a real file only what its writer has flushed. */
  ghost predicate Views(fs: seq<File>, views: seq<nat>) {
    && |views| == |fs|
    && forall i :: 0 <= i < |fs| ==> |fs[i].tiers.durable| + |fs[i].tiers.kernel| <= views[i] <= |fs[i].tiers.All()|
  }

  /** The files `truncate_segments_before` deletes: never the last one, and only segments whose
      largest id in view is positive and below the checkpoint (a deletion may also fail). */
  ghost predicate TruncateStep(c: Codec, s: State, s': State, removed: set<nat>, checkpoint: nat, views: seq<nat>) {
    && s.files != [] && Views(s.files, views)
    && (forall i :: 0 <= i < |s.files| && s.files[i].id in removed ==>
          && i < |s.files| - 1
          && 0 < ScanMaxId(c, s.files[i].tiers.All()[..views[i]]) < checkpoint)
    && s' == s.(files := Keep(s.files, removed), truncated := s.truncated + LostIds(s.files, removed))
  }

  function Keep(fs: seq<File>, removed: set<nat>): (r: seq<File>) {
    if fs == [] then []
    else Keep(fs[..|fs| - 1], removed) + (if Last(fs).id in removed then [] else [Last(fs)])
  }

  ghost function LostIds(fs: seq<File>, removed: set<nat>): (r: set<TxId>) {
    set i, j | 0 <= i < |fs| && fs[i].id in removed && 0 <= j < |fs[i].log| :: fs[i].log[j].txId
  }

  /** What a crash leaves of one file: its first `k` bytes. */
  function CrashFile(c: Codec, f: File, k: nat): (r: File)
    requires |f.tiers.durable| <= k <= |f.tiers.All()|
  {
    var n := Whole(c, f.log, k);
    WholeIsMaximal(c, f.log, k);
    File(f.id, f.tiers.Crash(k), f.log[..n], f.tiers.All()[..k][|Frames(c, f.log[..n])|..])
  }

  ghost predicate Cuts(fs: seq<File>, cuts: seq<nat>) {
    && |cuts| == |fs|
    && forall i :: 0 <= i < |fs| ==> |fs[i].tiers.durable| <= cuts[i] <= |fs[i].tiers.All()|
  }

  ghost function CrashFiles(c: Codec, fs: seq<File>, cuts: seq<nat>): (r: seq<File>)
    requires Cuts(fs, cuts)
    ensures |r| == |fs|
  {
    seq(|fs|, i requires 0 <= i < |fs| => CrashFile(c, fs[i], cuts[i]))
  }

  ghost predicate CrashStep(c: Codec, s: State, s': State, cuts: seq<nat>) {
    && Cuts(s.files, cuts)
    && s' == s.(files := CrashFiles(c, s.files, cuts), proc := None,
                txs := map id | id in s.txs :: s.txs[id].(alive := false))
  }

  /** The log that `recover` reads from the bytes of the files. */
  function RecoveredLog(c: Codec, fs: seq<File>): (r: seq<WalEntry>) {
    if fs == [] then [] else RecoveredLog(c, fs[..|fs| - 1]) + Parse(c, Last(fs).tiers.All()).entries
  }

  /** `recover` then `Wal::open`: the id counter passes every recovered id, and writing goes to
      a new segment behind the last one. */
  ghost predicate RestartStep(c: Codec, s: State, s': State, writers: nat, counter: nat) {
    && s.proc.None?
    && var m := MaxId(RecoveredLog(c, s.files));
    && counter >= 1 && (m > 0 ==> counter >= m + 1)
    && var id := if s.files == [] then 1 else Last(s.files).id + 1;
    s' == s.(files := s.files + [File(id, Tiers([], [], []), [], [])],
             proc := Some(Proc(seq(writers, _ => []), [], [], Collect, [], [], counter)))
  }

  ghost predicate Next(c: Codec, cfg: Config, s: State, s': State, step: Step) {
    match step
    case Begin(writer, entries, marker) => BeginStep(c, s, s', writer, entries, marker)
    case Send(id) => SendStep(s, s', id)
    case Drain(w) => DrainStep(cfg.mode, s, s', w)
    case StartWrite => StartWriteStep(cfg.mode, s, s')
    case OpenSegment => OpenSegmentStep(cfg, s, s')
    case SealOld => SealOldStep(s, s')
    case Append => AppendStep(c, cfg, s, s')
    case EndBatch => EndBatchStep(s, s')
    case SyncOk(j, reached) => SyncOkStep(c, s, s', j, reached)
    case SyncFail(j) => SyncFailStep(cfg.mode, s, s', j)
    case Writeback(i, p, q) => WritebackStep(s, s', i, p, q)
    case Truncate(removed, checkpoint, views) => TruncateStep(c, s, s', removed, checkpoint, views)
    case Crash(cuts) => CrashStep(c, s, s', cuts)
    case Restart(writers, counter) => RestartStep(c, s, s', writers, counter)
  }

  /** The fault model: an fsync may fail only where the flusher waits for it. */
  ghost predicate Benign(cfg: Config, step: Step) { step.SyncFail? ==> cfg.mode.Waiting? }
}
