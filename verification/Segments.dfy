/** Segment files and rotation: `Segment` and `SegmentManager`, over every run of batches. */
module Segments {
  import opened LittleEndian
  import opened Entry
  import opened Disk

  /** One element of a batch: the LSN and the serialized entry. */
  datatype Record = Record(lsn: nat, data: Bytes)

  datatype Meta = Meta(id: nat, size: nat, entryCount: nat, firstLsn: nat, lastLsn: nat)

  /** A segment: its metadata, its file, and as history the records appended to it. */
  datatype Seg = Seg(meta: Meta, file: Tiers, records: seq<Record>)

  datatype Manager = Manager(maxSize: nat, active: Seg, sealed: seq<Seg>, nextId: nat)

  function OpenSeg(id: nat): (s: Seg) { Seg(Meta(id, 0, 0, 0, 0), Tiers([], [], []), []) }

  function AppendSeg(c: Codec, s: Seg, r: Record): (s': Seg) {
    Seg(Meta(s.meta.id, s.meta.size + HEADER_SIZE + |r.data|, s.meta.entryCount + 1,
             if s.meta.firstLsn == 0 then r.lsn else s.meta.firstLsn, r.lsn),
        s.file.Write(FrameData(c, r.data)), s.records + [r])
  }

  function Seal(s: Seg): (s': Seg) { s.(file := s.file.Sync()) }

  function RotateManager(m: Manager): (m': Manager) {
    m.(active := OpenSeg(m.nextId), sealed := m.sealed + [Seal(m.active)], nextId := m.nextId + 1)
  }

  /** One turn of `write_batch`: rotate a full segment, then append. */
  function Put(c: Codec, m: Manager, r: Record): (m': Manager) {
    var m1 := if m.active.meta.size >= m.maxSize then RotateManager(m) else m;
    m1.(active := AppendSeg(c, m1.active, r))
  }

  function PutAll(c: Codec, m: Manager, batch: seq<Record>): (m': Manager) {
    if batch == [] then m
    else Put(c, PutAll(c, m, batch[..|batch| - 1]), batch[|batch| - 1])
  }

  function OpenManager(maxSize: nat, id: nat): (m: Manager) { Manager(maxSize, OpenSeg(id), [], id + 1) }

  // ----- Shape of the segments -----

  function RecordLen(r: Record): (n: nat)
    ensures n > 0
  {
    HEADER_SIZE + |r.data|
  }

  function TotalLen(rs: seq<Record>): (n: nat)
    ensures rs != [] ==> n > 0
  {
    if rs == [] then 0 else TotalLen(rs[..|rs| - 1]) + RecordLen(rs[|rs| - 1])
  }

  function FramesOf(c: Codec, rs: seq<Record>): (b: Bytes)
    ensures |b| == TotalLen(rs)
  {
    if rs == [] then [] else FramesOf(c, rs[..|rs| - 1]) + FrameData(c, rs[|rs| - 1].data)
  }

  /** The metadata describes the records. */
  ghost predicate Described(s: Seg) {
    && s.meta.size == TotalLen(s.records) && s.meta.entryCount == |s.records|
    && (forall i :: 0 <= i < |s.records| ==> 0 < s.meta.firstLsn <= s.records[i].lsn <= s.meta.lastLsn)
    && (s.records == [] ==> s.meta.firstLsn == 0)
    && (s.records != [] ==> s.meta.firstLsn == s.records[0].lsn && s.meta.lastLsn == s.records[|s.records| - 1].lsn)
    && (forall i, j :: 0 <= i < j < |s.records| ==> s.records[i].lsn < s.records[j].lsn)
  }

  /** The file holds the records, framed; a sealed one is on disk. */
  ghost predicate Holds(c: Codec, s: Seg) { s.file.All() == FramesOf(c, s.records) }

  /** At least `maxSize` long, and shorter than that without its last record. */
  ghost predicate FullSize(s: Seg, maxSize: nat) {
    && Described(s) && s.records != []
    && maxSize <= s.meta.size < maxSize + RecordLen(s.records[|s.records| - 1])
  }

  ghost predicate ActiveShape(m: Manager, nextLsn: nat) {
    && m.maxSize > 0 && Described(m.active) && m.active.meta.id < m.nextId
    && (m.active.records != [] ==>
          && m.active.meta.lastLsn < nextLsn
          && m.active.meta.size < m.maxSize + RecordLen(m.active.records[|m.active.records| - 1]))
  }

  ghost predicate SealedShape(m: Manager, nextLsn: nat) {
    && (forall i :: 0 <= i < |m.sealed| ==>
          && FullSize(m.sealed[i], m.maxSize) && m.sealed[i].meta.id < m.active.meta.id
          && m.sealed[i].meta.lastLsn < nextLsn
          && (m.active.records != [] ==> m.sealed[i].meta.lastLsn < m.active.meta.firstLsn))
    && (forall i, j :: 0 <= i < j < |m.sealed| ==>
          m.sealed[i].meta.id < m.sealed[j].meta.id && m.sealed[i].meta.lastLsn < m.sealed[j].meta.firstLsn)
  }

  ghost predicate FilesShape(c: Codec, m: Manager) {
    && Holds(c, m.active)
    && forall i :: 0 <= i < |m.sealed| ==> Holds(c, m.sealed[i]) && m.sealed[i].file.Synced()
  }

  ghost predicate Shape(c: Codec, m: Manager, nextLsn: nat) {
    ActiveShape(m, nextLsn) && SealedShape(m, nextLsn) && FilesShape(c, m)
  }

  lemma AppendDescribed(c: Codec, s: Seg, r: Record)
    requires Described(s) && r.lsn > 0 && (s.records != [] ==> s.meta.lastLsn < r.lsn)
    ensures Described(AppendSeg(c, s, r))
  {
    var s' := AppendSeg(c, s, r);
    assert s'.records[..|s.records|] == s.records;
  }

  lemma AppendHolds(c: Codec, s: Seg, r: Record)
    requires Holds(c, s)
    ensures Holds(c, AppendSeg(c, s, r))
  {
    var s' := AppendSeg(c, s, r);
    assert s'.records[..|s.records|] == s.records;
    assert s'.file.All() == s.file.All() + FrameData(c, r.data);
  }

  lemma RotateSealed(m: Manager, nextLsn: nat)
    requires ActiveShape(m, nextLsn) && SealedShape(m, nextLsn) && m.active.meta.size >= m.maxSize
    ensures ActiveShape(RotateManager(m), nextLsn) && SealedShape(RotateManager(m), nextLsn)
  {
    assert m.active.records != [];
  }

  lemma RotateShape(c: Codec, m: Manager, nextLsn: nat)
    requires Shape(c, m, nextLsn) && m.active.meta.size >= m.maxSize
    ensures Shape(c, RotateManager(m), nextLsn)
  {
    RotateSealed(m, nextLsn);
    SyncAdvances(m.active.file);
    assert OpenSeg(m.nextId).file.All() == [];
  }

  lemma AppendSealed(m: Manager, a: Seg, nextLsn: nat, lsn: nat)
    requires SealedShape(m, nextLsn) && nextLsn <= lsn && a.meta.id == m.active.meta.id
    requires a.meta.firstLsn == if m.active.records == [] then lsn else m.active.meta.firstLsn
    ensures SealedShape(m.(active := a), lsn + 1)
  {}

  lemma AppendActive(c: Codec, m: Manager, r: Record, nextLsn: nat)
    requires ActiveShape(m, nextLsn) && nextLsn <= r.lsn && r.lsn > 0
    requires m.active.meta.size < m.maxSize
    ensures ActiveShape(m.(active := AppendSeg(c, m.active, r)), r.lsn + 1)
  {
    AppendDescribed(c, m.active, r);
  }

  lemma AppendShape(c: Codec, m: Manager, r: Record, nextLsn: nat)
    requires Shape(c, m, nextLsn) && nextLsn <= r.lsn && r.lsn > 0
    requires m.active.meta.size < m.maxSize
    ensures Shape(c, m.(active := AppendSeg(c, m.active, r)), r.lsn + 1)
  {
    AppendActive(c, m, r, nextLsn);
    AppendHolds(c, m.active, r);
    AppendSealed(m, AppendSeg(c, m.active, r), nextLsn, r.lsn);
  }

  lemma PutShape(c: Codec, m: Manager, r: Record, nextLsn: nat)
    requires Shape(c, m, nextLsn) && nextLsn <= r.lsn && r.lsn > 0
    ensures Shape(c, Put(c, m, r), r.lsn + 1)
  {
    if m.active.meta.size >= m.maxSize {
      RotateShape(c, m, nextLsn);
      AppendShape(c, RotateManager(m), r, nextLsn);
    } else {
      AppendShape(c, m, r, nextLsn);
    }
  }

  /** LSNs as `collect_envelope` hands them out: increasing, from at least `from`. */
  ghost predicate Numbered(batch: seq<Record>, from: nat) {
    && (forall i :: 0 <= i < |batch| ==> batch[i].lsn >= from)
    && (forall i, j :: 0 <= i < j < |batch| ==> batch[i].lsn < batch[j].lsn)
  }

  function NextLsn(batch: seq<Record>): (n: nat) { if batch == [] then 1 else batch[|batch| - 1].lsn + 1 }

  /** Over every sequence of batches, given as one long batch: sealed segments have their size
      within one record of the limit, and ids and LSN ranges increase without overlap. */
  lemma {:induction false} SegmentShape(c: Codec, maxSize: nat, id: nat, batch: seq<Record>)
    requires maxSize > 0 && Numbered(batch, 1)
    ensures Shape(c, PutAll(c, OpenManager(maxSize, id), batch), NextLsn(batch))
  {
    if batch == [] {
      OpenShape(c, maxSize, id);
    } else {
      var n := |batch| - 1;
      NumberedFront(batch);
      SegmentShape(c, maxSize, id, batch[..n]);
      PutShape(c, PutAll(c, OpenManager(maxSize, id), batch[..n]), batch[n], NextLsn(batch[..n]));
    }
  }

  /** From any managed directory: more batches keep its shape. */
  lemma {:induction false} PutAllShape(c: Codec, m: Manager, nextLsn: nat, batch: seq<Record>)
    requires Shape(c, m, nextLsn) && nextLsn > 0 && Numbered(batch, nextLsn)
    ensures Shape(c, PutAll(c, m, batch), if batch == [] then nextLsn else batch[|batch| - 1].lsn + 1)
  {
    if batch != [] {
      var n := |batch| - 1;
      PutAllShape(c, m, nextLsn, batch[..n]);
      PutShape(c, PutAll(c, m, batch[..n]), batch[n], if n == 0 then nextLsn else batch[n - 1].lsn + 1);
    }
  }

  /** Moving the bytes of the active file towards the disk does not touch the shape. */
  lemma SyncShape(c: Codec, m: Manager, nextLsn: nat, file: Tiers)
    requires Shape(c, m, nextLsn) && file.All() == m.active.file.All()
    ensures Shape(c, m.(active := m.active.(file := file)), nextLsn)
  {}

  lemma OpenShape(c: Codec, maxSize: nat, id: nat)
    requires maxSize > 0
    ensures Shape(c, OpenManager(maxSize, id), 1)
  {
    assert OpenSeg(id).file.All() == [];
  }

  lemma NumberedFront(batch: seq<Record>)
    requires Numbered(batch, 1) && batch != []
    ensures Numbered(batch[..|batch| - 1], 1)
    ensures 0 < NextLsn(batch[..|batch| - 1]) <= batch[|batch| - 1].lsn
  {}

  lemma PutZeroLimit(c: Codec, m: Manager, r: Record)
    requires m.maxSize == 0
    ensures Put(c, m, r).maxSize == 0 && Put(c, m, r).sealed == m.sealed + [Seal(m.active)]
  {}

  lemma {:induction false} PutAllMaxSize(c: Codec, m: Manager, batch: seq<Record>)
    ensures PutAll(c, m, batch).maxSize == m.maxSize
  {
    if batch != [] { PutAllMaxSize(c, m, batch[..|batch| - 1]); }
  }

  /** With limit 0 the first segment is sealed before anything is appended to it. */
  lemma {:induction false} ZeroLimitSealsEmpty(c: Codec, id: nat, batch: seq<Record>)
    requires batch != []
    ensures var m := PutAll(c, OpenManager(0, id), batch); m.sealed != [] && m.sealed[0].records == []
  {
    var n := |batch| - 1;
    PutAllMaxSize(c, OpenManager(0, id), batch[..n]);
    PutZeroLimit(c, PutAll(c, OpenManager(0, id), batch[..n]), batch[n]);
    if n > 0 { ZeroLimitSealsEmpty(c, id, batch[..n]); }
  }

  /** Sealed segments are never empty exactly when the segment limit is positive. */
  lemma SealedNonEmptyIff(c: Codec, maxSize: nat, id: nat, batch: seq<Record>)
    requires batch != [] && Numbered(batch, 1)
    ensures (forall s :: s in PutAll(c, OpenManager(maxSize, id), batch).sealed ==> s.records != []) <==> maxSize > 0
  {
    var m := PutAll(c, OpenManager(maxSize, id), batch);
    if maxSize > 0 {
      SegmentShape(c, maxSize, id, batch);
    } else {
      ZeroLimitSealsEmpty(c, id, batch);
      assert m.sealed[0] in m.sealed;
    }
  }

  lemma {:induction false} PutAllConcat(c: Codec, m: Manager, a: seq<Record>, b: seq<Record>)
    ensures PutAll(c, m, a + b) == PutAll(c, PutAll(c, m, a), b)
  {
    if b == [] {
      assert a + b == a;
    } else {
      var n := |b| - 1;
      PutAllConcat(c, m, a, b[..n]);
      assert (a + b)[..|a + b| - 1] == a + b[..n];
    }
  }

  /** Rotation and appending lose nothing: the segments together hold the batches in order. */
  function Stored(m: Manager): (r: seq<Record>) { StoredSealed(m.sealed) + m.active.records }

  function StoredSealed(ss: seq<Seg>): (r: seq<Record>) {
    if ss == [] then [] else StoredSealed(ss[..|ss| - 1]) + ss[|ss| - 1].records
  }

  lemma PutStores(c: Codec, m: Manager, r: Record)
    ensures Stored(Put(c, m, r)) == Stored(m) + [r]
  {
    var m1 := RotateManager(m);
    assert m1.sealed[..|m.sealed|] == m.sealed;
    assert StoredSealed(m1.sealed) + [r] == StoredSealed(m.sealed) + m.active.records + [r];
    assert StoredSealed(m.sealed) + (m.active.records + [r]) == StoredSealed(m.sealed) + m.active.records + [r];
    assert [] + [r] == [r];
  }

  lemma {:induction false} PutAllStores(c: Codec, m: Manager, batch: seq<Record>)
    ensures Stored(PutAll(c, m, batch)) == Stored(m) + batch
  {
    if batch == [] {
      assert Stored(m) + [] == Stored(m);
    } else {
      var n := |batch| - 1;
      PutAllStores(c, m, batch[..n]);
      PutStores(c, PutAll(c, m, batch[..n]), batch[n]);
      assert Stored(m) + batch[..n] + [batch[n]] == Stored(m) + batch;
    }
  }

  // ----- truncate_before -----

  function Retained(ss: seq<Seg>, lsn: nat): (r: seq<Seg>) {
    if ss == [] then []
    else Retained(ss[..|ss| - 1], lsn) + (if ss[|ss| - 1].meta.lastLsn < lsn then [] else [ss[|ss| - 1]])
  }

  lemma {:induction false} RetainedNone(ss: seq<Seg>, lsn: nat)
    requires forall s :: s in ss ==> s.meta.lastLsn < lsn
    ensures Retained(ss, lsn) == []
  {
    if ss != [] { RetainedNone(ss[..|ss| - 1], lsn); }
  }

  /** The first k segments are those wholly below the LSN. */
  ghost predicate BelowUpTo(ss: seq<Seg>, lsn: nat, k: nat) {
    k <= |ss| && forall i :: 0 <= i < |ss| ==> (i < k <==> ss[i].meta.lastLsn < lsn)
  }

  /** `truncate_before` removes exactly a prefix: the segments wholly below the LSN. */
  lemma {:induction false} TruncatesPrefix(ss: seq<Seg>, lsn: nat) returns (k: nat)
    requires forall i, j :: 0 <= i < j < |ss| ==> ss[i].meta.lastLsn < ss[j].meta.lastLsn
    ensures BelowUpTo(ss, lsn, k) && Retained(ss, lsn) == ss[k..]
  {
    k := |ss|;
    if ss != [] {
      var n := |ss| - 1;
      if ss[n].meta.lastLsn < lsn {
        RetainedNone(ss, lsn);
      } else {
        k := TruncatesPrefix(ss[..n], lsn);
        assert ss[k..] == ss[..n][k..] + [ss[n]];
      }
    }
  }

  lemma LastLsnsIncrease(m: Manager, nextLsn: nat)
    requires SealedShape(m, nextLsn)
    ensures forall i, j :: 0 <= i < j < |m.sealed| ==> m.sealed[i].meta.lastLsn < m.sealed[j].meta.lastLsn
  {
    forall i, j | 0 <= i < j < |m.sealed| ensures m.sealed[i].meta.lastLsn < m.sealed[j].meta.lastLsn {
      assert m.sealed[j].records[0].lsn <= m.sealed[j].meta.lastLsn;
    }
  }

  // ----- LSNs across opens -----

  /** The records of one open: the flusher numbers them from 1. */
  ghost predicate FromOne(rs: seq<Record>) { forall i :: 0 <= i < |rs| ==> rs[i].lsn == i + 1 }

  /** Everything written by a sequence of opens of the same directory. */
  function AllOpens(opens: seq<seq<Record>>): (rs: seq<Record>) {
    if opens == [] then [] else AllOpens(opens[..|opens| - 1]) + opens[|opens| - 1]
  }

  ghost predicate LsnsIncrease(rs: seq<Record>) { forall i, j :: 0 <= i < j < |rs| ==> rs[i].lsn < rs[j].lsn }

  ghost predicate AtMostOneWrote(opens: seq<seq<Record>>) {
    forall i, j :: 0 <= i < j < |opens| ==> opens[i] == [] || opens[j] == []
  }

  lemma {:induction false} InAllOpens(opens: seq<seq<Record>>, i: nat)
    requires i < |opens|
    ensures forall r :: r in opens[i] ==> r in AllOpens(opens)
  {
    if i < |opens| - 1 { InAllOpens(opens[..|opens| - 1], i); }
  }

  lemma {:induction false} NoneWrote(opens: seq<seq<Record>>)
    requires forall i :: 0 <= i < |opens| ==> opens[i] == []
    ensures AllOpens(opens) == []
  {
    if opens != [] { NoneWrote(opens[..|opens| - 1]); }
  }

  lemma IncreaseSplits(a: seq<Record>, b: seq<Record>)
    requires LsnsIncrease(a + b)
    ensures LsnsIncrease(a) && forall x, y :: x in a && y in b ==> x.lsn < y.lsn
  {
    forall i, j | 0 <= i < j < |a| ensures a[i].lsn < a[j].lsn { assert (a + b)[i].lsn < (a + b)[j].lsn; }
    forall x, y | x in a && y in b ensures x.lsn < y.lsn {
      var i :| 0 <= i < |a| && a[i] == x;
      var j :| 0 <= j < |b| && b[j] == y;
      assert (a + b)[i].lsn < (a + b)[|a| + j].lsn;
    }
  }

  lemma BothStartAtOne(front: seq<seq<Record>>, i: nat, last: seq<Record>)
    requires i < |front| && FromOne(front[i]) && FromOne(last)
    ensures front[i] != [] && last != [] ==> exists x, y :: x in AllOpens(front) && y in last && x.lsn >= y.lsn
  {
    if front[i] != [] && last != [] {
      InAllOpens(front, i);
      assert front[i][0] in AllOpens(front) && last[0] in last && front[i][0].lsn >= last[0].lsn;
    }
  }

  /** LSNs increase across opens exactly when at most one open wrote records. */
  lemma {:induction false} LsnsAcrossOpensIff(opens: seq<seq<Record>>)
    requires forall i :: 0 <= i < |opens| ==> FromOne(opens[i])
    ensures LsnsIncrease(AllOpens(opens)) <==> AtMostOneWrote(opens)
  {
    if opens != [] {
      var n := |opens| - 1;
      var front, last := opens[..n], opens[n];
      LsnsAcrossOpensIff(front);
      if LsnsIncrease(AllOpens(opens)) {
        IncreaseSplits(AllOpens(front), last);
        forall i | 0 <= i < n ensures opens[i] == [] || last == [] {
          BothStartAtOne(front, i, last);
        }
      } else if AtMostOneWrote(opens) {
        LastOpenDecides(opens);
      }
    }
  }

  lemma LastOpenDecides(opens: seq<seq<Record>>)
    requires opens != [] && AtMostOneWrote(opens) && FromOne(opens[|opens| - 1])
      && LsnsIncrease(AllOpens(opens[..|opens| - 1]))
    ensures LsnsIncrease(AllOpens(opens))
  {
    var n := |opens| - 1;
    if opens[n] == [] {
      assert AllOpens(opens) == AllOpens(opens[..n]);
    } else {
      EarlierOpensEmpty(opens);
      assert AllOpens(opens) == opens[n];
    }
  }

  lemma EarlierOpensEmpty(opens: seq<seq<Record>>)
    requires opens != [] && AtMostOneWrote(opens) && opens[|opens| - 1] != []
    ensures AllOpens(opens[..|opens| - 1]) == []
  {
    NoneWrote(opens[..|opens| - 1]);
  }

  /** Two opens that write one record each: both records have LSN 1. */
  lemma SecondOpenRepeatsLsn(data: Bytes)
    ensures FromOne([Record(1, data)]) && AllOpens([[Record(1, data)], [Record(1, data)]])
      == [Record(1, data), Record(1, data)]
    ensures !LsnsIncrease(AllOpens([[Record(1, data)], [Record(1, data)]]))
  {
    var one := [Record(1, data)];
    assert [one, one][..1] == [one] && [one][..0] == [];
    assert AllOpens([one]) == [] + one == one;
    var all := AllOpens([one, one]);
    assert all == one + one && all[0].lsn == all[1].lsn;
  }
}
