/** What every step of the write-ahead log keeps. */
module WalInvariant {
  import opened LittleEndian
  import opened Entry
  import opened Parser
  import opened Disk
  import opened Log
  import opened WalRun

  // ----- The invariant -----

  ghost predicate FileInv(c: Codec, f: File) {
    && f.tiers.All() == Frames(c, f.log) + f.torn
    && FitsAll(c, f.log)
    && TornTail(c, f.torn)
    && (f.torn != [] ==> f.tiers.Synced())
  }

  ghost predicate FilesInv(c: Codec, fs: seq<File>) {
    forall i :: 0 <= i < |fs| ==> FileInv(c, fs[i])
  }

  /** Every file but the active one is on disk, except the one being sealed, whose successor is
      still empty: the log-prefix order of the segments. */
  ghost predicate DiskInv(c: Codec, fs: seq<File>, proc: Option<Proc>) {
    && Increasing(fs)
    && FilesInv(c, fs)
    && (proc.None? ==> forall i :: 0 <= i < |fs| ==> fs[i].tiers.Synced())
    && (proc.Some? ==> ActiveInv(fs, proc.value.phase))
  }

  ghost predicate Increasing(fs: seq<File>) {
    forall i, j :: 0 <= i < j < |fs| ==> fs[i].id < fs[j].id
  }

  ghost predicate ActiveInv(fs: seq<File>, phase: Phase) {
    && fs != []
    && Last(fs).torn == []
    && (phase.Rotating? ==> Last(fs).log == [] && Last(fs).id == phase.sealing + 1)
    && (forall i :: 0 <= i < |fs| - 1 ==>
          fs[i].tiers.Synced() || (phase.Rotating? && fs[i].id == phase.sealing))
  }

  /** An fsync hand-over: all segments before its file are on disk already. */
  ghost predicate JobInv(fs: seq<File>, phase: Phase, job: Job) {
    && fs != []
    && job.file <= Last(fs).id
    && (phase.Rotating? ==> job.file <= phase.sealing)
    && (forall i :: 0 <= i < |fs| && fs[i].id < job.file ==> fs[i].tiers.Synced())
    && (forall i :: 0 <= i < |fs| && fs[i].id == job.file ==> job.upto <= |fs[i].log|)
  }

  ghost predicate Alive(txs: map<TxId, Tx>, id: TxId) { id in txs && txs[id].alive }

  ghost predicate ProcInv(c: Codec, fs: seq<File>, txs: map<TxId, Tx>, p: Proc) {
    && (p.phase.Collect? || p.phase.done <= |p.batch|)
    && (forall w :: 0 <= w < |p.queues| ==>
          forall e :: e in p.queues[w] ==> Fits(c, e) && Alive(txs, e.txId) && txs[e.txId].writer == w)
    && (forall e :: e in p.Unwritten() ==> Fits(c, e) && Alive(txs, e.txId))
    && (forall id :: id in p.waiters ==> Alive(txs, id))
    && (forall job :: job in p.jobs ==> job in p.handed)
    && (forall job :: job in p.handed ==> JobInv(fs, p.phase, job) && forall id :: id in job.waiters ==> Alive(txs, id))
  }

  /** Every id on disk is known, and below the id counter. */
  ghost predicate IdsInv(fs: seq<File>, txs: map<TxId, Tx>, proc: Option<Proc>) {
    forall i :: 0 <= i < |fs| ==> forall e :: e in fs[i].log ==>
      e.txId in txs && (proc.Some? ==> e.txId < proc.value.nextTx)
  }

  ghost predicate TxShape(id: TxId, t: Tx) {
    && (forall e :: e in t.entries ==> e.txId == id && !e.IsMarker())
    && t.marker.IsMarker() && t.marker.txId == id
    && t.sent <= |t.Script()|
  }

  /** Log, batch and ring together hold exactly what the transaction sent, in order. */
  ghost predicate Stream(fs: seq<File>, p: Proc, id: TxId, t: Tx) {
    && t.writer < |p.queues| && t.sent <= |t.Script()|
    && Proj(id, Visible(fs)) + Proj(id, p.Unwritten()) + Proj(id, p.queues[t.writer]) == t.Script()[..t.sent]
  }

  /** Everything of `id` has been drained: it is on its way through the batch or on disk. */
  ghost predicate Drained(p: Proc, id: TxId, t: Tx) {
    && t.marker.Commit? && t.sent == |t.Script()|
    && t.writer < |p.queues| && Absent(id, p.queues[t.writer])
  }

  /** No record of `id` lies behind the point that fsync `job` covers. */
  ghost predicate BeforeMark(fs: seq<File>, job: Job, id: TxId) {
    forall i :: 0 <= i < |fs| ==>
      && (fs[i].id > job.file ==> Absent(id, fs[i].log))
      && (fs[i].id == job.file ==> job.upto <= |fs[i].log| && Absent(id, fs[i].log[job.upto..]))
  }

  ghost predicate Covered(fs: seq<File>, p: Proc, id: TxId, t: Tx, job: Job) {
    Drained(p, id, t) && Absent(id, p.Unwritten()) && BeforeMark(fs, job, id)
  }

  ghost predicate HandedOver(p: Proc, id: TxId) { exists job :: job in p.handed && id in job.waiters }

  ghost predicate Waits(fs: seq<File>, p: Proc, id: TxId, t: Tx) {
    && (id in p.waiters ==> Drained(p, id, t))
    && (forall job :: job in p.handed && id in job.waiters ==> Covered(fs, p, id, t, job))
    && (t.acked ==> HandedOver(p, id))
  }

  ghost predicate AllDurable(c: Codec, fs: seq<File>, id: TxId) {
    forall i :: 0 <= i < |fs| ==> Absent(id, Undurable(c, fs[i]))
  }

  ghost predicate AckInv(c: Codec, fs: seq<File>, id: TxId, t: Tx) {
    t.marker.Commit? && Proj(id, Visible(fs)) == t.Script() && AllDurable(c, fs, id)
  }

  /** What holds of a transaction that lost no record to truncation. */
  ghost predicate Live(c: Codec, fs: seq<File>, proc: Option<Proc>, id: TxId, t: Tx) {
    && (t.alive ==> proc.Some? && Stream(fs, proc.value, id, t) && Waits(fs, proc.value, id, t))
    && (!t.alive ==> Proj(id, Visible(fs)) <= t.Script())
    && (t.safe ==> AckInv(c, fs, id, t))
  }

  ghost predicate TxInv(c: Codec, s: State, id: TxId)
    requires id in s.txs
  {
    var t := s.txs[id];
    && TxShape(id, t) && FitsAll(c, t.Script())
    && (t.alive ==> s.proc.Some? && id < s.proc.value.nextTx && t.writer < |s.proc.value.queues|)
    && (id !in s.truncated ==> Live(c, s.files, s.proc, id, t))
  }

  ghost predicate Inv(c: Codec, s: State) {
    && DiskInv(c, s.files, s.proc)
    && (s.proc.Some? ==> ProcInv(c, s.files, s.txs, s.proc.value))
    && IdsInv(s.files, s.txs, s.proc)
    && (forall id :: id in s.txs ==> TxInv(c, s, id))
  }

  // ----- Whole records and cuts -----

  lemma {:induction false} FramesLen(c: Codec, es: seq<WalEntry>, m: nat, n: nat)
    requires m <= n <= |es|
    ensures |Frames(c, es[..m])| <= |Frames(c, es[..n])|
  {
    assert es[..n] == es[..m] + es[m..n];
    FramesConcat(c, es[..m], es[m..n]);
  }

  lemma WholeAtLeast(c: Codec, es: seq<WalEntry>, m: nat, cut: nat)
    requires m <= |es| && |Frames(c, es[..m])| <= cut
    ensures m <= Whole(c, es, cut)
  {
    WholeIsMaximal(c, es, cut);
    var n := Whole(c, es, cut);
    if n < m {
      FramesLen(c, es, n + 1, m);
    }
  }

  lemma WholeMono(c: Codec, es: seq<WalEntry>, cut: nat, cut': nat)
    requires cut <= cut'
    ensures Whole(c, es, cut) <= Whole(c, es, cut')
  {
    WholeIsMaximal(c, es, cut);
    WholeAtLeast(c, es, Whole(c, es, cut), cut');
  }

  lemma WholeAll(c: Codec, es: seq<WalEntry>, cut: nat)
    requires |Frames(c, es)| <= cut
    ensures Whole(c, es, cut) == |es|
  {
    assert es[..|es|] == es;
    WholeAtLeast(c, es, |es|, cut);
  }

  lemma WholeAppend(c: Codec, es: seq<WalEntry>, e: WalEntry, cut: nat)
    requires cut <= |Frames(c, es)|
    ensures Whole(c, es + [e], cut) == Whole(c, es, cut)
  {
    var es' := es + [e];
    WholeIsMaximal(c, es, cut);
    WholeIsMaximal(c, es', cut);
    var n, n' := Whole(c, es, cut), Whole(c, es', cut);
    assert es'[..n] == es[..n];
    WholeAtLeast(c, es', n, cut);
    if n' == |es'| {
      assert es'[..n'] == es';
      FramesConcat(c, es, [e]);
      FramesOne(c, e);
    } else {
      assert es'[..n'] == es[..n'];
      WholeAtLeast(c, es, n', cut);
    }
  }

  lemma SyncedIsDurable(c: Codec, f: File)
    requires FileInv(c, f) && f.tiers.Synced()
    ensures Undurable(c, f) == []
  {
    assert f.tiers.All() == f.tiers.durable;
    WholeAll(c, f.log, |f.tiers.durable|);
  }

  // ----- Lists of files -----

  lemma {:induction false} VisibleSame(fs: seq<File>, fs': seq<File>)
    requires |fs| == |fs'| && forall i :: 0 <= i < |fs| ==> fs[i].log == fs'[i].log
    ensures Visible(fs) == Visible(fs')
  {
    if fs != [] {
      VisibleSame(fs[..|fs| - 1], fs'[..|fs| - 1]);
    }
  }

  lemma VisiblePush(fs: seq<File>, f: File)
    ensures Visible(fs + [f]) == Visible(fs) + f.log
  {
    assert (fs + [f])[..|fs|] == fs;
  }

  lemma VisibleAppend(fs: seq<File>, f: File, e: WalEntry)
    requires fs != [] && f.log == Last(fs).log + [e]
    ensures Visible(fs[|fs| - 1 := f]) == Visible(fs) + [e]
  {
    var n := |fs| - 1;
    assert fs[n := f][..n] == fs[..n];
    assert Visible(fs[..n]) + (Last(fs).log + [e]) == Visible(fs[..n]) + Last(fs).log + [e];
  }

  lemma {:induction false} InVisible(fs: seq<File>, e: WalEntry)
    ensures e in Visible(fs) <==> exists i :: 0 <= i < |fs| && e in fs[i].log
  {
    if fs != [] {
      InVisible(fs[..|fs| - 1], e);
      if i :| 0 <= i < |fs| && e in fs[i].log {
        if i < |fs| - 1 { assert fs[..|fs| - 1][i] == fs[i]; }
      }
    }
  }

  // ----- A new, empty segment -----

  lemma OpenedVisible(fs: seq<File>, f: File)
    requires f.log == []
    ensures Visible(fs + [f]) == Visible(fs)
  {
    VisiblePush(fs, f);
  }

  lemma OpenedDurable(c: Codec, fs: seq<File>, f: File, id: TxId)
    requires f.log == [] && AllDurable(c, fs, id)
    ensures AllDurable(c, fs + [f], id)
  {
    var fs' := fs + [f];
    forall i | 0 <= i < |fs'| ensures Absent(id, Undurable(c, fs'[i])) {
      if i < |fs| {
        assert Absent(id, Undurable(c, fs[i]));
        assert fs'[i] == fs[i];
      } else {
        assert fs'[i] == f;
      }
    }
  }

  // ----- Steps that only move bytes between tiers -----

  ghost predicate FileAdvances(f: File, f': File) {
    f'.id == f.id && f'.log == f.log && f'.torn == f.torn && Advances(f.tiers, f'.tiers)
  }

  ghost predicate FilesAdvance(fs: seq<File>, fs': seq<File>) {
    |fs'| == |fs| && forall i :: 0 <= i < |fs| ==> FileAdvances(fs[i], fs'[i])
  }

  lemma AdvanceFile(c: Codec, f: File, f': File)
    requires FileAdvances(f, f') && FileInv(c, f)
    ensures FileInv(c, f')
    ensures f.tiers.Synced() ==> f'.tiers.Synced()
    ensures DurableCount(c, f) <= DurableCount(c, f')
  {
    assert |f'.tiers.All()| == |f'.tiers.durable| + |f'.tiers.kernel| + |f'.tiers.buffer|;
    WholeMono(c, f.log, |f.tiers.durable|, |f'.tiers.durable|);
  }

  lemma AdvanceFiles(c: Codec, fs: seq<File>, fs': seq<File>, id: TxId)
    requires FilesAdvance(fs, fs') && FilesInv(c, fs)
    ensures Visible(fs') == Visible(fs)
    ensures AllDurable(c, fs, id) ==> AllDurable(c, fs', id)
  {
    VisibleSame(fs, fs');
    if AllDurable(c, fs, id) {
      forall i | 0 <= i < |fs| ensures Absent(id, Undurable(c, fs'[i])) {
        AdvanceFile(c, fs[i], fs'[i]);
        assert Absent(id, Undurable(c, fs[i]));
        assert forall e :: e in Undurable(c, fs'[i]) ==> e in Undurable(c, fs[i]);
      }
    }
  }
}
