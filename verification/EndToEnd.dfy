/** From an acknowledged commit to the rebuilt store: the run of the log, the crash, the directory
    that `recover` reads and the store that its transactions are replayed into. */
module EndToEnd {
  import opened LittleEndian
  import opened Entry
  import opened Parser
  import opened Disk
  import opened Log
  import opened SegmentName
  import opened Recovery
  import opened Store
  import WalRun
  import WalInvariant
  import WalTheorems

  function IdsOfFiles(fs: seq<WalRun.File>): (ids: seq<nat>)
    ensures |ids| == |fs| && forall i :: 0 <= i < |fs| ==> ids[i] == fs[i].id
  {
    seq(|fs|, i requires 0 <= i < |fs| => fs[i].id)
  }

  /** The directory holds exactly these segment files. */
  ghost predicate Stores(dir: Dir, fs: seq<WalRun.File>) {
    && Lists(dir, IdsOfFiles(fs))
    && forall f :: f in fs ==> SegmentBytes(dir, f.id) == f.tiers.All()
  }

  /** The directory that the segment manager leaves: each segment under its generated name. */
  function DirOf(fs: seq<WalRun.File>): (dir: Dir) {
    if fs == [] then map[]
    else
      var f := fs[|fs| - 1];
      DirOf(fs[..|fs| - 1])[SegmentFileName(f.id) := f.tiers.All()]
  }

  lemma {:induction false} DirOfNames(fs: seq<WalRun.File>)
    ensures forall name :: name in DirOf(fs) <==> exists i :: 0 <= i < |fs| && name == SegmentFileName(fs[i].id)
  {
    if fs != [] { DirOfNames(fs[..|fs| - 1]); }
  }

  lemma {:induction false} DirOfBytes(fs: seq<WalRun.File>, i: nat)
    requires WalInvariant.Increasing(fs) && i < |fs| && forall k :: 0 <= k < |fs| ==> fs[k].id < U64_LIMIT
    ensures SegmentBytes(DirOf(fs), fs[i].id) == fs[i].tiers.All()
  {
    var n := |fs| - 1;
    DirOfNames(fs);
    if i < n {
      DirOfBytes(fs[..n], i);
      DirOfNames(fs[..n]);
      assert fs[..n][i] == fs[i];
      if SegmentFileName(fs[i].id) == SegmentFileName(fs[n].id) { NamesDiffer(fs[i].id, fs[n].id); }
    }
  }

  lemma IdOfName(fs: seq<WalRun.File>, name: string, id: nat)
    requires (forall k :: 0 <= k < |fs| ==> fs[k].id < U64_LIMIT) && name in DirOf(fs) && DiscoverId(name) == Some(id)
    ensures id in IdsOfFiles(fs) && name == SegmentFileName(id)
  {
    DirOfNames(fs);
    var i :| 0 <= i < |fs| && name == SegmentFileName(fs[i].id);
    NameRoundTrip(fs[i].id);
    assert IdsOfFiles(fs)[i] == id;
  }

  lemma NameOfId(fs: seq<WalRun.File>, id: nat)
    requires (forall k :: 0 <= k < |fs| ==> fs[k].id < U64_LIMIT) && id in IdsOfFiles(fs)
    ensures SegmentFileName(id) in DirOf(fs) && DiscoverId(SegmentFileName(id)) == Some(id)
  {
    DirOfNames(fs);
    var j :| 0 <= j < |fs| && IdsOfFiles(fs)[j] == id;
    NameRoundTrip(fs[j].id);
  }

  lemma NamesOfDir(fs: seq<WalRun.File>, id: nat)
    requires forall k :: 0 <= k < |fs| ==> fs[k].id < U64_LIMIT
    ensures NamesOf(DirOf(fs), id) == if id in IdsOfFiles(fs) then {SegmentFileName(id)} else {}
  {
    forall name | name in NamesOf(DirOf(fs), id) ensures id in IdsOfFiles(fs) && name == SegmentFileName(id) {
      IdOfName(fs, name, id);
    }
    if id in IdsOfFiles(fs) { NameOfId(fs, id); }
  }

  lemma {:induction false} TimesOnce(ids: seq<nat>, id: nat)
    requires forall i, j :: 0 <= i < j < |ids| ==> ids[i] < ids[j]
    ensures Times(ids, id) == if id in ids then 1 else 0
  {
    if ids != [] {
      var n := |ids| - 1;
      TimesOnce(ids[..n], id);
      assert ids == ids[..n] + [ids[n]];
      if id in ids[..n] { var i :| 0 <= i < n && ids[i] == id; }
    }
  }

  lemma CopiesOfDir(fs: seq<WalRun.File>, id: nat)
    requires WalInvariant.Increasing(fs) && forall k :: 0 <= k < |fs| ==> fs[k].id < U64_LIMIT
    ensures Times(IdsOfFiles(fs), id) == Copies(DirOf(fs), id)
  {
    NamesOfDir(fs, id);
    TimesOnce(IdsOfFiles(fs), id);
  }

  /** That directory holds exactly these segments. */
  lemma DirOfStores(fs: seq<WalRun.File>)
    requires WalInvariant.Increasing(fs) && forall k :: 0 <= k < |fs| ==> fs[k].id < U64_LIMIT
    ensures Stores(DirOf(fs), fs)
  {
    var dir, ids := DirOf(fs), IdsOfFiles(fs);
    forall id: nat ensures Times(ids, id) == Copies(dir, id) { CopiesOfDir(fs, id); }
    forall f | f in fs ensures SegmentBytes(dir, f.id) == f.tiers.All() {
      var i :| 0 <= i < |fs| && fs[i] == f;
      DirOfBytes(fs, i);
    }
  }

  lemma {:induction false} ReadsInOrder(c: Codec, dir: Dir, fs: seq<WalRun.File>)
    requires forall f :: f in fs ==> SegmentBytes(dir, f.id) == f.tiers.All()
    ensures ReadSeq(c, dir, IdsOfFiles(fs)).entries == WalRun.RecoveredLog(c, fs)
  {
    if fs != [] {
      var n := |fs| - 1;
      ReadsInOrder(c, dir, fs[..n]);
      assert IdsOfFiles(fs)[..n] == IdsOfFiles(fs[..n]);
      assert fs[n] in fs;
    }
  }

  /** Reading the directory in id order reads the segments in log order. */
  lemma ReadsTheSegments(c: Codec, dir: Dir, fs: seq<WalRun.File>)
    requires WalInvariant.Increasing(fs) && Stores(dir, fs)
    ensures DirLog(c, dir) == WalRun.RecoveredLog(c, fs)
  {
    ListIs(dir, IdsOfFiles(fs));
    ReadsInOrder(c, dir, fs);
  }

  lemma CrashKeepsIds(c: Codec, fs: seq<WalRun.File>, cuts: seq<nat>)
    requires WalInvariant.Increasing(fs) && WalRun.Cuts(fs, cuts)
    ensures WalInvariant.Increasing(WalRun.CrashFiles(c, fs, cuts))
  {
    var fs' := WalRun.CrashFiles(c, fs, cuts);
    assert forall i :: 0 <= i < |fs'| ==> fs'[i].id == fs[i].id;
  }

  /** The key holds what the only committed transaction that touches it left there. */
  lemma SoleWriterDecides(m: Table, log: seq<WalEntry>, txs: seq<RecoveredTransaction>, id: TxId, k: Key)
    requires Recovered(log, txs) && Touches(id, log, k)
    requires forall other: TxId :: Touches(other, log, k) ==> other == id
    ensures Slot(ApplyAll(m, Replayed(txs)), k) == Final(id, log, k)
  {
    RecoveredIsOrder(log, txs);
    var ids := IdsOf(txs);
    LastInList(log, ids, k);
    Listed(log, ids, id);
    SlotOfApplyAll(m, Replayed(txs), k);
  }

  /** End to end: take any run of the log, a commit acknowledged in it, and a crash at any later
      point, torn files included, after any number of earlier crashes and restarts. Recovering the
      directory that is left and replaying what `recover` returns, in whatever order, gives a
      store in which every key the transaction wrote holds the value it wrote last, provided no
      other recovered commit wrote that key. */
  lemma AcknowledgedWriteSurvives(
    c: Codec, cfg: WalRun.Config, states: seq<WalRun.State>, steps: seq<WalRun.Step>, i: nat, j: nat, cuts: seq<nat>,
    id: TxId, entries: seq<WalEntry>, dir: Dir, txs: seq<RecoveredTransaction>, m: Table, k: Key)
    requires Lawful(c) && WalTheorems.Run(c, cfg, states, steps) && WalTheorems.Faultless(cfg, steps)
    requires i <= j < |states| && WalTheorems.Acked(states[i], id, entries)
    requires forall n :: i <= n < j ==> WalTheorems.Spares(states[n], steps[n], id)
    requires WalRun.Cuts(states[j].files, cuts) && Stores(dir, WalRun.CrashFiles(c, states[j].files, cuts))
    requires Recovered(DirLog(c, dir), txs) && OnKey(entries, k) != []
    requires forall other: TxId :: Touches(other, DirLog(c, dir), k) ==> other == id
    ensures RecoveredTransaction(id, CommitAction, entries) in txs
    ensures Slot(ApplyAll(m, Replayed(txs)), k) == Effect(Last(OnKey(entries, k)))
  {
    var fs := WalRun.CrashFiles(c, states[j].files, cuts);
    WalTheorems.RunInv(c, cfg, states, steps, j);
    CrashKeepsIds(c, states[j].files, cuts);
    ReadsTheSegments(c, dir, fs);
    WalTheorems.Durability(c, cfg, states, steps, i, j, cuts, id, entries);
    CommittedReads(m, DirLog(c, dir), txs, id, entries, k);
  }

  lemma CommittedReads(m: Table, log: seq<WalEntry>, txs: seq<RecoveredTransaction>, id: TxId, entries: seq<WalEntry>,
      k: Key)
    requires Recovered(log, txs) && ActionOf(id, log) == CommitAction && DataOf(id, log) == entries
      && OnKey(entries, k) != []
    requires forall other: TxId :: Touches(other, log, k) ==> other == id
    ensures RecoveredTransaction(id, CommitAction, entries) in txs
    ensures Slot(ApplyAll(m, Replayed(txs)), k) == Effect(Last(OnKey(entries, k)))
  {
    SoleWriterDecides(m, log, txs, id, k);
    RecoveredIsOrder(log, txs);
    Listed(log, IdsOf(txs), id);
    var n :| 0 <= n < |IdsOf(txs)| && IdsOf(txs)[n] == id;
    assert txs[n] == TxOf(id, log);
  }
}
