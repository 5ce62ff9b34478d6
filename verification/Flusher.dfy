/** The objects behind the flusher task: a segment over its file, the segment manager, and the
    flusher's own batch and waiters. Each method is tied to the functions of `Segments`. */
module Flusher {
  import opened LittleEndian
  import opened Entry
  import opened Disk
  import opened Segments

  class Segment {
    const id: nat
    const file: SimFile
    var size: nat
    var entryCount: nat
    var firstLsn: nat
    var lastLsn: nat
    ghost var records: seq<Record>

    function GetMeta(): (m: Meta)
      reads this
    {
      Meta(id, size, entryCount, firstLsn, lastLsn)
    }

    ghost function View(): (s: Seg)
      reads this, file
    {
      Seg(GetMeta(), file.View(), records)
    }

    constructor (id: nat)
      ensures View() == OpenSeg(id) && fresh(file)
    {
      this.id := id;
      file := new SimFile();
      size, entryCount, firstLsn, lastLsn, records := 0, 0, 0, 0, [];
    }

    method AppendEntry(c: Codec, r: Record) returns (total: nat)
      requires HeaderFits(NewHeader(c, r.data))
      modifies this, file
      ensures View() == AppendSeg(c, old(View()), r)
      ensures total == HEADER_SIZE + |r.data|
    {
      var header := HeaderToBytes(NewHeader(c, r.data));
      total := HEADER_SIZE + |r.data|;
      file.Append(header[..]);
      file.Append(r.data);
      assert file.writeBuffer == old(file.writeBuffer) + FrameData(c, r.data);
      size := size + total;
      entryCount := entryCount + 1;
      if firstLsn == 0 { firstLsn := r.lsn; }
      lastLsn := r.lsn;
      records := records + [r];
    }

    predicate NeedsRotation(maxSize: nat)
      reads this
    {
      size >= maxSize
    }

    method SealSegment() returns (meta: Meta)
      modifies file
      ensures View() == Seal(old(View())) && meta == GetMeta()
    {
      file.Sync();
      meta := GetMeta();
    }
  }

  class SegmentManager {
    const maxSegmentSize: nat
    var active: Segment
    var sealed: seq<Meta>
    var nextSegmentId: nat
    ghost var sealedSegs: seq<Seg>

    ghost predicate Valid()
      reads this
    {
      |sealed| == |sealedSegs| && forall i :: 0 <= i < |sealed| ==> sealed[i] == sealedSegs[i].meta
    }

    ghost function View(): (m: Manager)
      reads this, active, active.file
    {
      Manager(maxSegmentSize, active.View(), sealedSegs, nextSegmentId)
    }

    /** `open`: always a new segment, one past the highest id found. */
    constructor (maxSize: nat, highest: Option<nat>)
      ensures Valid() && fresh(active) && fresh(active.file)
      ensures View() == OpenManager(maxSize, if highest.Some? then highest.value + 1 else 1)
      ensures active.id == (if highest.Some? then highest.value + 1 else 1) && nextSegmentId == active.id + 1
      ensures active.file.View().All() == [] && sealed == [] && maxSegmentSize == maxSize
    {
      var nextId := if highest.Some? then highest.value + 1 else 1;
      maxSegmentSize := maxSize;
      active := new Segment(nextId);
      sealed, sealedSegs, nextSegmentId := [], [], nextId + 1;
    }

    method Rotate()
      requires Valid()
      modifies this, active, active.file
      ensures Valid() && fresh(active) && fresh(active.file)
      ensures View() == RotateManager(old(View()))
    {
      var newId := nextSegmentId;
      nextSegmentId := nextSegmentId + 1;
      var newSegment := new Segment(newId);
      var oldSegment := active;
      active := newSegment;
      var meta := oldSegment.SealSegment();
      sealed := sealed + [meta];
      sealedSegs := sealedSegs + [oldSegment.View()];
    }

    /** One turn of the `write_batch` loop. */
    method WriteRecord(c: Codec, r: Record)
      requires Valid() && HeaderFits(NewHeader(c, r.data))
      modifies this, active, active.file
      ensures Valid() && (active == old(active) || (fresh(active) && fresh(active.file)))
      ensures View() == Put(c, old(View()), r)
    {
      if active.NeedsRotation(maxSegmentSize) {
        Rotate();
      }
      var _ := active.AppendEntry(c, r);
    }

    method WriteBatch(c: Codec, batch: seq<Record>)
      requires Valid() && forall r :: r in batch ==> HeaderFits(NewHeader(c, r.data))
      modifies this, active, active.file
      ensures Valid() && (active == old(active) || (fresh(active) && fresh(active.file)))
      ensures View() == PutAll(c, old(View()), batch)
      ensures Stored(View()) == old(Stored(View())) + batch
    {
      ghost var start := View();
      var i := 0;
      while i < |batch|
        invariant i <= |batch| && Valid()
        invariant active == old(active) || (fresh(active) && fresh(active.file))
        invariant View() == PutAll(c, start, batch[..i])
      {
        WriteRecord(c, batch[i]);
        i := i + 1;
        assert batch[..i][..i - 1] == batch[..i - 1];
      }
      assert batch[..i] == batch;
      PutAllStores(c, start, batch);
    }

    /** `truncate_before`: the `retain` loop over the sealed list. */
    method TruncateBefore(lsn: nat) returns (removed: nat)
      requires Valid()
      modifies this
      ensures Valid() && active == old(active) && nextSegmentId == old(nextSegmentId)
      ensures sealedSegs == Retained(old(sealedSegs), lsn)
      ensures removed == |old(sealed)| - |sealed|
    {
      removed := 0;
      var kept: seq<Meta>, i := [], 0;
      ghost var keptSegs: seq<Seg> := [];
      while i < |sealed|
        invariant i <= |sealed| == |sealedSegs| && |kept| == |keptSegs| && removed + |kept| == i
        invariant forall k :: 0 <= k < |kept| ==> kept[k] == keptSegs[k].meta
        invariant keptSegs == Retained(sealedSegs[..i], lsn)
      {
        assert sealedSegs[..i + 1][..i] == sealedSegs[..i];
        if sealed[i].lastLsn < lsn {
          removed := removed + 1;
        } else {
          kept := kept + [sealed[i]];
          keptSegs := keptSegs + [sealedSegs[i]];
        }
        i := i + 1;
      }
      assert sealedSegs[..i] == sealedSegs;
      sealed, sealedSegs := kept, keptSegs;
    }
  }

  /** An envelope from a ring; a commit barrier carries the waiter to notify. */
  datatype Envelope = EntryEnvelope(entry: WalEntry) | CommitBarrier(entry: WalEntry, waiter: TxId)

  datatype FlushMode = Full | DataOnly | Background | NoSync

  /** The active file after the attempt to sync it: the flush that comes first may fail, and the
      sync after it. */
  function AfterSync(t: Tiers, flushed: bool, synced: bool): (t': Tiers) {
    if synced then t.Sync() else if flushed then t.Flush() else t
  }

  lemma AfterSyncAdvances(t: Tiers, flushed: bool, synced: bool)
    ensures Advances(t, AfterSync(t, flushed, synced)) && (synced ==> AfterSync(t, flushed, synced).Synced())
  {
    FlushAdvances(t);
    SyncAdvances(t);
  }

  /** The `match sync_mode` of `flush_and_notify` on the active file. */
  method SyncFile(file: SimFile, mode: FlushMode, flushed: bool, syncOk: bool) returns (ok: bool)
    requires syncOk ==> flushed
    modifies file
    ensures ok == (syncOk || mode.NoSync?)
    ensures file.View() == AfterSync(old(file.View()), flushed, syncOk && !mode.NoSync?)
  {
    match mode {
      case NoSync => if flushed { file.Flush(); }
      case _ =>
        if syncOk {
          file.Sync();
        } else if flushed {
          file.Flush();
        }
    }
    ok := syncOk || mode.NoSync?;
  }

  /** What the flusher has collected: LSNs handed out one after the other, 1, 2, 3 and so on unless
      entries did not serialize, and a batch above the LSNs written. */
  ghost predicate Collected(c: Codec, batch: seq<Record>, collected: seq<Record>, failures: nat, nextLsn: nat,
      floor: nat) {
    && nextLsn == |collected| + failures + 1 && (failures == 0 ==> FromOne(collected))
    && 0 < floor <= nextLsn && Numbered(batch, floor)
    && forall r :: r in batch ==> r.lsn < nextLsn && HeaderFits(NewHeader(c, r.data))
  }

  lemma CollectOne(c: Codec, batch: seq<Record>, collected: seq<Record>, failures: nat, nextLsn: nat, floor: nat,
      data: Bytes)
    requires Collected(c, batch, collected, failures, nextLsn, floor) && HeaderFits(NewHeader(c, data))
    ensures Collected(c, batch + [Record(nextLsn, data)], collected + [Record(nextLsn, data)], failures, nextLsn + 1,
      floor)
  {
    var batch' := batch + [Record(nextLsn, data)];
    forall i | 0 <= i < |batch| ensures batch[i].lsn < nextLsn { assert batch[i] in batch; }
  }

  lemma CollectNone(c: Codec, batch: seq<Record>, collected: seq<Record>, failures: nat, nextLsn: nat, floor: nat)
    requires Collected(c, batch, collected, failures, nextLsn, floor)
    ensures Collected(c, batch + [], collected + [], failures + 1, nextLsn + 1, floor)
  {
    assert batch + [] == batch && collected + [] == collected;
  }

  /** The batch is written and the active file synced, or not. */
  function Flushed(c: Codec, m: Manager, batch: seq<Record>, flushed: bool, synced: bool): (m': Manager) {
    var m1 := PutAll(c, m, batch);
    m1.(active := m1.active.(file := AfterSync(m1.active.file, flushed, synced)))
  }

  lemma FlushedShape(c: Codec, m: Manager, floor: nat, batch: seq<Record>, flushed: bool, synced: bool)
    requires Shape(c, m, floor) && floor > 0 && Numbered(batch, floor) && batch != []
    ensures Shape(c, Flushed(c, m, batch, flushed, synced), batch[|batch| - 1].lsn + 1)
  {
    var m1 := PutAll(c, m, batch);
    PutAllShape(c, m, floor, batch);
    AfterSyncAdvances(m1.active.file, flushed, synced);
    SyncShape(c, m1, batch[|batch| - 1].lsn + 1, AfterSync(m1.active.file, flushed, synced));
  }

  /** One call of `flush_and_notify`: what it wrote and how the sync went. */
  datatype Flush = Flush(batch: seq<Record>, flushed: bool, synced: bool)

  function AfterFlushes(c: Codec, m: Manager, fs: seq<Flush>): (m': Manager) {
    if fs == [] then m
    else
      var f := fs[|fs| - 1];
      Flushed(c, AfterFlushes(c, m, fs[..|fs| - 1]), f.batch, f.flushed, f.synced)
  }

  /** One past the last LSN written, 1 if none was. */
  function FloorOf(fs: seq<Flush>): (n: nat)
    ensures n > 0
  {
    if fs == [] || fs[|fs| - 1].batch == [] then 1 else fs[|fs| - 1].batch[|fs[|fs| - 1].batch| - 1].lsn + 1
  }

  ghost predicate Ordered(fs: seq<Flush>) {
    fs == [] ||
    (var n := |fs| - 1; fs[n].batch != [] && Numbered(fs[n].batch, FloorOf(fs[..n])) && Ordered(fs[..n]))
  }

  /** Over every sequence of flushes, whatever syncs fail, the flusher's own segments keep their
      shape. */
  lemma {:induction false} FlushesShape(c: Codec, maxSize: nat, id: nat, fs: seq<Flush>)
    requires maxSize > 0 && Ordered(fs)
    ensures Shape(c, AfterFlushes(c, OpenManager(maxSize, id), fs), FloorOf(fs))
  {
    if fs == [] {
      OpenShape(c, maxSize, id);
    } else {
      var n := |fs| - 1;
      FlushesShape(c, maxSize, id, fs[..n]);
      FlushedShape(c, AfterFlushes(c, OpenManager(maxSize, id), fs[..n]), FloorOf(fs[..n]), fs[n].batch, fs[n].flushed,
        fs[n].synced);
    }
  }

  lemma OneMoreFlush(c: Codec, m: Manager, fs: seq<Flush>, f: Flush)
    requires Ordered(fs) && f.batch != [] && Numbered(f.batch, FloorOf(fs))
    ensures Ordered(fs + [f]) && FloorOf(fs + [f]) == f.batch[|f.batch| - 1].lsn + 1
    ensures AfterFlushes(c, m, fs + [f]) == Flushed(c, AfterFlushes(c, m, fs), f.batch, f.flushed, f.synced)
  {
    assert (fs + [f])[..|fs|] == fs;
  }

  lemma FlushCollected(c: Codec, fs: seq<Flush>, f: Flush, collected: seq<Record>, failures: nat, nextLsn: nat)
    requires Ordered(fs) && f.batch != [] && Collected(c, f.batch, collected, failures, nextLsn, FloorOf(fs))
    ensures Ordered(fs + [f]) && Collected(c, [], collected, failures, nextLsn, FloorOf(fs + [f]))
  {
    assert (fs + [f])[..|fs|] == fs;
    assert f.batch[|f.batch| - 1] in f.batch;
  }

  class FlusherTask {
    var manager: SegmentManager
    var batch: seq<Record>
    var commitWaiters: seq<TxId>
    var nextLsn: nat
    /** Every record collected since the open, and how many entries did not serialize. */
    ghost var collected: seq<Record>
    ghost var failures: nat
    /** Every flush since the open. */
    ghost var flushes: seq<Flush>

    /** The LSNs since the open, the batch and the flushes. */
    ghost predicate Valid(c: Codec)
      reads this, manager
    {
      manager.Valid() && Collected(c, batch, collected, failures, nextLsn, FloorOf(flushes)) && Ordered(flushes)
    }

    /** The segments are what the flushes made of the manager `m` that was opened. */
    ghost predicate Wrote(c: Codec, m: Manager)
      reads this, manager, manager.active, manager.active.file
    {
      manager.View() == AfterFlushes(c, m, flushes)
    }

    constructor (ghost c: Codec, m: SegmentManager)
      requires m.Valid()
      ensures Valid(c) && manager == m && batch == [] && commitWaiters == [] && nextLsn == 1
      ensures collected == [] && failures == 0 && flushes == [] && Wrote(c, m.View())
    {
      manager, batch, commitWaiters, nextLsn := m, [], [], 1;
      collected, failures, flushes := [], 0, [];
    }

    /** `collect_envelope`: the next LSN, the serialized entry, and the waiter of a barrier. An entry
        that does not serialize takes its LSN and is left out; its waiter is queued all the same.
        Without such entries the LSNs since the open are 1, 2, 3 and so on. */
    method CollectEnvelope(c: Codec, env: Envelope, serialized: bool)
      requires Lawful(c) && Valid(c) && Fits(c, env.entry)
      modifies this
      ensures Valid(c) && manager == old(manager) && flushes == old(flushes)
      ensures nextLsn == old(nextLsn) + 1
      ensures batch == old(batch) + (if serialized then [Record(old(nextLsn), c.ser(env.entry))] else [])
      ensures collected == old(collected) + (if serialized then [Record(old(nextLsn), c.ser(env.entry))] else [])
      ensures failures == old(failures) + (if serialized then 0 else 1)
      ensures commitWaiters == old(commitWaiters) + (if env.CommitBarrier? then [env.waiter] else [])
    {
      var lsn := nextLsn;
      if serialized {
        CollectOne(c, batch, collected, failures, nextLsn, FloorOf(flushes), c.ser(env.entry));
        batch := batch + [Record(lsn, c.ser(env.entry))];
        collected := collected + [Record(lsn, c.ser(env.entry))];
      } else {
        CollectNone(c, batch, collected, failures, nextLsn, FloorOf(flushes));
        failures := failures + 1;
        assert batch + [] == batch && collected + [] == collected;
      }
      nextLsn := nextLsn + 1;
      match env {
        case EntryEnvelope(_) =>
          assert commitWaiters + [] == commitWaiters;
        case CommitBarrier(_, waiter) =>
          commitWaiters := commitWaiters + [waiter];
      }
    }

    /** Writing the batch and syncing the active file. */
    method WriteAndSync(c: Codec, mode: FlushMode, flushed: bool, syncOk: bool) returns (ok: bool)
      requires Valid(c) && batch != [] && (syncOk ==> flushed)
      modifies manager, manager.active, manager.active.file
      ensures manager.Valid() && ok == (syncOk || mode.NoSync?)
      ensures manager.View() == Flushed(c, old(manager.View()), batch, flushed, syncOk && !mode.NoSync?)
      ensures Stored(manager.View()) == old(Stored(manager.View())) + batch
    {
      manager.WriteBatch(c, batch);
      ok := SyncFile(manager.active.file, mode, flushed, syncOk);
    }

    /** The part of `flush_and_notify` after its test for an empty batch. */
    method FlushBatch(c: Codec, mode: FlushMode, flushed: bool, syncOk: bool) returns (notified: seq<TxId>)
      requires Valid(c) && batch != [] && (syncOk ==> flushed)
      modifies this, manager, manager.active, manager.active.file
      ensures Valid(c) && manager == old(manager) && nextLsn == old(nextLsn) && batch == [] && commitWaiters == []
      ensures collected == old(collected) && failures == old(failures)
      ensures flushes == old(flushes) + [Flush(old(batch), flushed, syncOk && !mode.NoSync?)]
      ensures notified == if syncOk || mode.NoSync? then old(commitWaiters) else []
      ensures manager.View() == Flushed(c, old(manager.View()), old(batch), flushed, syncOk && !mode.NoSync?)
      ensures Stored(manager.View()) == old(Stored(manager.View())) + old(batch)
    {
      ghost var f := Flush(batch, flushed, syncOk && !mode.NoSync?);
      FlushCollected(c, flushes, f, collected, failures, nextLsn);
      var ok := WriteAndSync(c, mode, flushed, syncOk);
      notified := if ok then commitWaiters else [];
      flushes := flushes + [f];
      batch, commitWaiters := [], [];
    }

    /** `flush_and_notify`: write, sync, notify. A failed sync drops the batch's waiters; the
        batch itself is on its way to the disk and stays in the file. */
    method FlushAndNotify(c: Codec, mode: FlushMode, flushed: bool, syncOk: bool) returns (notified: seq<TxId>)
      requires Valid(c) && (syncOk ==> flushed)
      modifies this, manager, manager.active, manager.active.file
      ensures Valid(c) && manager == old(manager) && nextLsn == old(nextLsn) && batch == []
      ensures collected == old(collected) && failures == old(failures)
      ensures old(batch) == [] ==>
        notified == [] && commitWaiters == old(commitWaiters) && manager.View() == old(manager.View())
      ensures old(batch) != [] ==>
        commitWaiters == [] && notified == if syncOk || mode.NoSync? then old(commitWaiters) else []
      ensures old(batch) != [] ==>
        manager.View() == Flushed(c, old(manager.View()), old(batch), flushed, syncOk && !mode.NoSync?)
      ensures Stored(manager.View()) == old(Stored(manager.View())) + old(batch)
      ensures flushes == old(flushes) + (if old(batch) == [] then []
        else [Flush(old(batch), flushed, syncOk && !mode.NoSync?)])
    {
      if batch == [] {
        assert flushes + [] == flushes;
        assert Stored(manager.View()) + [] == Stored(manager.View());
        notified := [];
      } else {
        notified := FlushBatch(c, mode, flushed, syncOk);
      }
    }

    /** A call of `flush_and_notify` on the segments opened as `m`. */
    method FlushSegments(c: Codec, ghost m: Manager, mode: FlushMode, flushed: bool, syncOk: bool)
        returns (notified: seq<TxId>)
      requires Valid(c) && (syncOk ==> flushed) && Wrote(c, m)
      modifies this, manager, manager.active, manager.active.file
      ensures Valid(c) && Wrote(c, m)
    {
      if batch == [] { return []; }
      ghost var f := Flush(batch, flushed, syncOk && !mode.NoSync?);
      OneMoreFlush(c, m, flushes, f);
      notified := FlushBatch(c, mode, flushed, syncOk);
    }

    /** With a positive limit the flusher's segments have the shape that SegmentShape states, whatever
        syncs failed. */
    lemma SegmentsHaveShape(c: Codec, id: nat)
      requires Valid(c) && manager.maxSegmentSize > 0 && Wrote(c, OpenManager(manager.maxSegmentSize, id))
      ensures Shape(c, manager.View(), FloorOf(flushes))
    {
      FlushesShape(c, manager.maxSegmentSize, id, flushes);
    }
  }

  /** After a successful sync in a durable mode the whole active file is on disk. */
  lemma FlushedIsDurable(c: Codec, m: Manager, batch: seq<Record>)
    ensures Flushed(c, m, batch, true, true).active.file.Synced()
    ensures Flushed(c, m, batch, true, true).active.file.durable == PutAll(c, m, batch).active.file.All()
  {
    SyncAdvances(PutAll(c, m, batch).active.file);
  }
}
