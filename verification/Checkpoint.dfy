/** Checkpointing and truncation of a WAL directory: `checkpoint`, `truncate_segments_before`. */
module Checkpoint {
  import opened LittleEndian
  import opened Entry
  import opened Parser
  import opened Log
  import opened SegmentName
  import opened Recovery

  const CHECKPOINT_FILE := "checkpoint"

  function WriteCheckpoint(dir: Dir, lsn: nat): (dir': Dir) { dir[CHECKPOINT_FILE := ToLe(lsn, 8)] }

  /** `read_checkpoint`: 0 when the file is missing or not 8 bytes long. */
  function ReadCheckpoint(dir: Dir): (lsn: nat) {
    if CHECKPOINT_FILE in dir && |dir[CHECKPOINT_FILE]| == 8 then FromLe(dir[CHECKPOINT_FILE]) else 0
  }

  lemma CheckpointFileIsNoSegment()
    ensures DiscoverId(CHECKPOINT_FILE).None?
    ensures forall id :: SegmentFileName(id) != CHECKPOINT_FILE
  {
    assert CHECKPOINT_FILE[0] == 'c';
    forall id ensures SegmentFileName(id) != CHECKPOINT_FILE { assert SegmentFileName(id)[0] == 'w'; }
  }

  lemma {:induction false} ReadSeqFrame(c: Codec, dir: Dir, dir': Dir, ids: seq<nat>)
    requires forall id :: id in ids ==> SegmentBytes(dir', id) == SegmentBytes(dir, id)
    ensures ReadSeq(c, dir', ids) == ReadSeq(c, dir, ids)
  {
    if ids != [] {
      var n := |ids| - 1;
      assert ids[n] in ids && forall id :: id in ids[..n] ==> id in ids;
      ReadSeqFrame(c, dir, dir', ids[..n]);
    }
  }

  lemma SameCopies(dir: Dir, dir': Dir)
    requires forall id: nat :: Copies(dir', id) == Copies(dir, id)
    ensures SortedIds(dir') == SortedIds(dir)
  {
    ListIs(dir, SortedIds(dir'));
  }

  /** The checkpoint reads back, and writing it leaves the log alone. */
  lemma CheckpointRoundTrip(c: Codec, dir: Dir, lsn: nat)
    requires lsn < U64_LIMIT
    ensures ReadCheckpoint(WriteCheckpoint(dir, lsn)) == lsn
    ensures SortedIds(WriteCheckpoint(dir, lsn)) == SortedIds(dir)
    ensures DirLog(c, WriteCheckpoint(dir, lsn)) == DirLog(c, dir)
  {
    var dir' := WriteCheckpoint(dir, lsn);
    CheckpointFileIsNoSegment();
    assert Pow256(8) == U64_LIMIT;
    FromToLe(lsn, 8);
    forall id: nat ensures Copies(dir', id) == Copies(dir, id) { assert NamesOf(dir', id) == NamesOf(dir, id); }
    SameCopies(dir, dir');
    ReadSeqFrame(c, dir, dir', SortedIds(dir));
  }

  /** The iterator chain of `checkpoint`: the largest committed id, if any. */
  method MaxCommitted(txs: seq<RecoveredTransaction>) returns (best: Option<nat>)
    ensures best.Some? ==> exists k :: 0 <= k < |txs| && txs[k].txId == best.value && txs[k].action == CommitAction
    ensures forall k :: 0 <= k < |txs| && txs[k].action == CommitAction ==> best.Some? && txs[k].txId <= best.value
  {
    best := None;
    var i := 0;
    while i < |txs|
      invariant i <= |txs|
      invariant best.Some? ==> exists k :: 0 <= k < i && txs[k].txId == best.value && txs[k].action == CommitAction
      invariant forall k :: 0 <= k < i && txs[k].action == CommitAction ==> best.Some? && txs[k].txId <= best.value
    {
      if txs[i].action == CommitAction && (best.None? || best.value < txs[i].txId) { best := Some(txs[i].txId); }
      i := i + 1;
    }
  }

  /** `best` is the largest committed id of the log. */
  ghost predicate IsMaxCommitted(log: seq<WalEntry>, best: Option<nat>) {
    && (best.Some? ==> ActionOf(best.value, log) == CommitAction)
    && forall id: TxId :: ActionOf(id, log) == CommitAction ==> best.Some? && id <= best.value
  }

  lemma MaxOfListed(log: seq<WalEntry>, txs: seq<RecoveredTransaction>, best: Option<nat>)
    requires Recovered(log, txs)
    requires best.Some? ==> exists k :: 0 <= k < |txs| && txs[k].txId == best.value && txs[k].action == CommitAction
    requires forall k :: 0 <= k < |txs| && txs[k].action == CommitAction ==> best.Some? && txs[k].txId <= best.value
    ensures IsMaxCommitted(log, best)
  {
    CommittedAreListed(log, txs);
  }

  /** No checkpoint is recorded, or `k` is. */
  predicate NoneRecorded(dir: Dir) { CHECKPOINT_FILE !in dir || |dir[CHECKPOINT_FILE]| != 8 }

  predicate Recorded(dir: Dir, k: nat) { CHECKPOINT_FILE in dir && dir[CHECKPOINT_FILE] == ToLe(k, 8) }

  ghost predicate CommittedBeyond(log: seq<WalEntry>, k: nat) {
    exists id: TxId :: id > k && ActionOf(id, log) == CommitAction
  }

  /** A checkpoint is due: an id is committed beyond the recorded one, or beyond 0. */
  ghost predicate DueIff(c: Codec, dir: Dir, due: bool) {
    && (NoneRecorded(dir) ==> (due <==> CommittedBeyond(DirLog(c, dir), 0)))
    && forall k: nat :: k < U64_LIMIT && Recorded(dir, k) ==> (due <==> CommittedBeyond(DirLog(c, dir), k))
  }

  lemma RecordedReads(dir: Dir, k: nat)
    requires k < U64_LIMIT && Recorded(dir, k)
    ensures ReadCheckpoint(dir) == k
  {
    assert Pow256(8) == U64_LIMIT;
    FromToLe(k, 8);
  }

  lemma DueByRead(c: Codec, dir: Dir, due: bool)
    requires due <==> CommittedBeyond(DirLog(c, dir), ReadCheckpoint(dir))
    ensures DueIff(c, dir, due)
  {
    forall k: nat | k < U64_LIMIT && Recorded(dir, k) ensures due <==> CommittedBeyond(DirLog(c, dir), k) {
      RecordedReads(dir, k);
    }
  }

  /** `checkpoint`: the highest committed id, if it is beyond the recorded one. */
  method TakeCheckpoint(c: Codec, dir: Dir) returns (lsn: Option<nat>, dir': Dir)
    ensures lsn.Some? ==>
      IsMaxCommitted(DirLog(c, dir), lsn) && lsn.value > ReadCheckpoint(dir) && dir' == WriteCheckpoint(dir, lsn.value)
    ensures lsn.None? ==> dir' == dir && forall id: TxId :: ActionOf(id, DirLog(c, dir)) == CommitAction ==>
      id <= ReadCheckpoint(dir)
    ensures DueIff(c, dir, lsn.Some?)
  {
    var current := ReadCheckpoint(dir);
    var txs, _, _ := Recover(c, dir);
    var best := MaxCommitted(txs);
    MaxOfListed(DirLog(c, dir), txs, best);
    DueByRead(c, dir, best.Some? && best.value > current);
    if best.Some? && best.value > current {
      lsn, dir' := best, WriteCheckpoint(dir, best.value);
    } else {
      lsn, dir' := None, dir;
    }
  }

  lemma CommittedAreListed(log: seq<WalEntry>, txs: seq<RecoveredTransaction>)
    requires Recovered(log, txs)
    ensures forall id: TxId :: ActionOf(id, log) == CommitAction <==> exists k ::
      0 <= k < |txs| && txs[k].txId == id && txs[k].action == CommitAction
  {
    forall id: TxId
      ensures ActionOf(id, log) == CommitAction <==> exists k ::
        0 <= k < |txs| && txs[k].txId == id && txs[k].action == CommitAction
    {
      if ActionOf(id, log) == CommitAction {
        ProjAbsent(id, log);
        var k :| 0 <= k < |txs| && txs[k].txId == id;
        assert txs[k].action == CommitAction;
      }
    }
  }

  // ----- Truncation -----

  /** All but the last of the sorted ids. */
  ghost function Candidates(dir: Dir): (ids: seq<nat>) {
    var sorted := SortedIds(dir);
    if sorted == [] then [] else sorted[..|sorted| - 1]
  }

  /** The segment's largest id is positive and below the checkpoint. */
  ghost predicate Hit(c: Codec, dir: Dir, lsn: nat, id: nat) { 0 < ScanMaxId(c, SegmentBytes(dir, id)) < lsn }

  ghost function HitsIn(c: Codec, dir: Dir, lsn: nat, ids: seq<nat>): (r: set<nat>) {
    set id | id in ids && Hit(c, dir, lsn, id)
  }

  ghost function Outdated(c: Codec, dir: Dir, lsn: nat): (ids: set<nat>) { HitsIn(c, dir, lsn, Candidates(dir)) }

  /** How many candidates count as removed: one that was deleted is not found again, one whose
      deletion fails is counted each time. */
  ghost function Counted(c: Codec, dir: Dir, lsn: nat, stuck: set<nat>, ids: seq<nat>): (n: nat) {
    if ids == [] then 0
    else
      var front, id := ids[..|ids| - 1], ids[|ids| - 1];
      Counted(c, dir, lsn, stuck, front) + (if Hit(c, dir, lsn, id) && (id in stuck || id !in front) then 1 else 0)
  }

  ghost function PathsOf(ids: set<nat>): (names: set<string>) { set id | id in ids :: SegmentFileName(id) }

  ghost function WithoutSegments(dir: Dir, ids: set<nat>): (dir': Dir) { dir - PathsOf(ids) }

  lemma FoundBelowLimit(dir: Dir, id: nat)
    requires Copies(dir, id) > 0
    ensures id < U64_LIMIT
  {
    var name :| name in NamesOf(dir, id);
    ParsedBelowLimit(name[4..|name| - 4]);
  }

  lemma ParsedBelowLimit(s: string)
    ensures ParseU64(s).Some? ==> ParseU64(s).value < U64_LIMIT
  {}

  ghost predicate AllBelowLimit(ids: set<nat>) { forall id :: id in ids ==> id < U64_LIMIT }

  /** Reading a segment after others were deleted. */
  lemma BytesWithout(dir: Dir, gone: set<nat>, id: nat)
    requires AllBelowLimit(gone) && id < U64_LIMIT
    ensures SegmentBytes(WithoutSegments(dir, gone), id) == if id in gone then [] else SegmentBytes(dir, id)
  {
    if id !in gone {
      forall other | other in gone ensures SegmentFileName(other) != SegmentFileName(id) {
        if SegmentFileName(other) == SegmentFileName(id) { NamesDiffer(other, id); }
      }
    }
  }

  /** The body of the loop of `truncate_segments_before`, after the candidates `done`. */
  method TruncateOne(c: Codec, ghost dir: Dir, dir0: Dir, removed0: nat, ghost done: seq<nat>, id: nat, lsn: nat,
      stuck: set<nat>)
    returns (dir1: Dir, removed1: nat)
    requires id < U64_LIMIT && forall x :: x in done ==> x < U64_LIMIT
    requires dir0 == WithoutSegments(dir, HitsIn(c, dir, lsn, done) - stuck)
      && removed0 == Counted(c, dir, lsn, stuck, done)
    ensures dir1 == WithoutSegments(dir, HitsIn(c, dir, lsn, done + [id]) - stuck)
    ensures removed1 == Counted(c, dir, lsn, stuck, done + [id])
  {
    ghost var gone := HitsIn(c, dir, lsn, done) - stuck;
    BytesWithout(dir, gone, id);
    var maxTxId := ReadSegmentMaxTxId(c, SegmentBytes(dir0, id));
    dir1, removed1 := dir0, removed0;
    CountedNext(c, dir, lsn, stuck, done, id);
    if maxTxId > 0 && maxTxId < lsn {
      if id !in stuck { dir1 := dir1 - {SegmentFileName(id)}; }
      removed1 := removed1 + 1;
    }
    GoneNext(c, dir, lsn, stuck, done, id);
  }

  lemma CountedNext(c: Codec, dir: Dir, lsn: nat, stuck: set<nat>, done: seq<nat>, id: nat)
    ensures Counted(c, dir, lsn, stuck, done + [id])
         == Counted(c, dir, lsn, stuck, done) + (if Hit(c, dir, lsn, id) && (id in stuck || id !in done) then 1 else 0)
  {
    assert (done + [id])[..|done|] == done;
  }

  lemma WithoutOneMore(dir: Dir, gone: set<nat>, id: nat)
    ensures WithoutSegments(dir, gone + {id}) == WithoutSegments(dir, gone) - {SegmentFileName(id)}
  {
    assert PathsOf(gone + {id}) == PathsOf(gone) + {SegmentFileName(id)};
  }

  lemma GoneNext(c: Codec, dir: Dir, lsn: nat, stuck: set<nat>, done: seq<nat>, id: nat)
    ensures var before, after := HitsIn(c, dir, lsn, done) - stuck, HitsIn(c, dir, lsn, done + [id]) - stuck;
            WithoutSegments(dir, after) ==
            if Hit(c, dir, lsn, id) && id !in stuck then WithoutSegments(dir, before) - {SegmentFileName(id)}
              else WithoutSegments(dir, before)
  {
    var before, after := HitsIn(c, dir, lsn, done) - stuck, HitsIn(c, dir, lsn, done + [id]) - stuck;
    HitsNext(c, dir, lsn, done, id);
    if Hit(c, dir, lsn, id) && id !in stuck {
      assert after == before + {id};
      WithoutOneMore(dir, before, id);
    } else {
      assert after == before;
    }
  }

  lemma SortedBelowLimit(dir: Dir)
    ensures forall x :: x in SortedIds(dir) ==> x < U64_LIMIT
  {
    forall x | x in SortedIds(dir) ensures x < U64_LIMIT {
      assert Times(SortedIds(dir), x) == Copies(dir, x);
      FoundBelowLimit(dir, x);
    }
  }

  lemma NothingRemoved(c: Codec, dir: Dir, lsn: nat, stuck: set<nat>)
    ensures WithoutSegments(dir, HitsIn(c, dir, lsn, []) - stuck) == dir && Counted(c, dir, lsn, stuck, []) == 0
  {
    assert HitsIn(c, dir, lsn, []) - stuck == {};
    assert PathsOf({}) == {};
  }

  /** `truncate_segments_before`. A deletion that fails (`stuck`) is ignored but counted. */
  method TruncateSegmentsBefore(c: Codec, dir: Dir, lsn: nat, stuck: set<nat>) returns (dir': Dir, removed: nat)
    ensures dir' == WithoutSegments(dir, Outdated(c, dir, lsn) - stuck)
    ensures removed == Counted(c, dir, lsn, stuck, Candidates(dir))
  {
    var ids := SortedSegmentIds(dir);
    dir', removed := dir, 0;
    NothingRemoved(c, dir, lsn, stuck);
    if |ids| <= 1 { return; }
    SortedBelowLimit(dir);
    var i := 0;
    while i < |ids| - 1
      invariant i <= |ids| - 1
      invariant dir' == WithoutSegments(dir, HitsIn(c, dir, lsn, ids[..i]) - stuck)
        && removed == Counted(c, dir, lsn, stuck, ids[..i])
    {
      assert ids[i] in ids && ids[..i + 1] == ids[..i] + [ids[i]];
      dir', removed := TruncateOne(c, dir, dir', removed, ids[..i], ids[i], lsn, stuck);
      i := i + 1;
    }
  }

  /** Where no two names give the same id, exactly the outdated segments are counted. */
  lemma {:induction false} CountedDistinct(c: Codec, dir: Dir, lsn: nat, stuck: set<nat>, ids: seq<nat>)
    requires forall i, j :: 0 <= i < j < |ids| ==> ids[i] != ids[j]
    ensures Counted(c, dir, lsn, stuck, ids) == |HitsIn(c, dir, lsn, ids)|
  {
    if ids != [] {
      var front, id := ids[..|ids| - 1], ids[|ids| - 1];
      CountedDistinct(c, dir, lsn, stuck, front);
      HitsNext(c, dir, lsn, front, id);
      assert ids == front + [id];
      forall i | 0 <= i < |front| ensures front[i] != id { assert ids[i] != ids[|ids| - 1]; }
    }
  }

  lemma HitsNext(c: Codec, dir: Dir, lsn: nat, done: seq<nat>, id: nat)
    ensures HitsIn(c, dir, lsn, done + [id]) == HitsIn(c, dir, lsn, done) + (if Hit(c, dir, lsn, id) then {id} else {})
  {}

  lemma HitWritten(c: Codec, dir: Dir, lsn: nat, id: nat, log: seq<WalEntry>, torn: Bytes)
    requires Lawful(c) && Torn(c, SegmentBytes(dir, id), log, torn)
    ensures Hit(c, dir, lsn, id) <==> (exists e :: e in log && e.txId > 0) && forall e :: e in log ==> e.txId < lsn
  {
    ScanMaxIdOfFrames(c, log, torn);
    var m := MaxId(log);
  }

  /** On segments that the log wrote and crashes cut, truncation deletes exactly those but the last
      whose records all belong to ids below the checkpoint, empty ones excepted. */
  lemma OutdatedWritten(c: Codec, dir: Dir, lsn: nat, logs: seq<seq<WalEntry>>, torn: seq<Bytes>, i: nat)
    requires Lawful(c) && Written(c, dir, SortedIds(dir), logs, torn) && i < |logs| - 1
    ensures SortedIds(dir)[i] in Outdated(c, dir, lsn) <==>
      (exists e :: e in logs[i] && e.txId > 0) && forall e :: e in logs[i] ==> e.txId < lsn
  {
    HitWritten(c, dir, lsn, SortedIds(dir)[i], logs[i], torn[i]);
    assert SortedIds(dir)[i] == Candidates(dir)[i];
  }

  // ----- What truncation leaves -----

  function FilterOut(ids: seq<nat>, gone: set<nat>): (r: seq<nat>) {
    if ids == [] then []
    else FilterOut(ids[..|ids| - 1], gone) + (if ids[|ids| - 1] in gone then [] else [ids[|ids| - 1]])
  }

  lemma {:induction false} FilterOutIs(ids: seq<nat>, gone: set<nat>)
    ensures forall x :: x in FilterOut(ids, gone) <==> x in ids && x !in gone
    ensures Sorted(ids) ==> Sorted(FilterOut(ids, gone))
  {
    if ids != [] {
      var front, id := ids[..|ids| - 1], ids[|ids| - 1];
      FilterOutIs(front, gone);
      assert ids == front + [id];
      if Sorted(ids) {
        var kept := FilterOut(front, gone);
        forall i | 0 <= i < |kept| ensures kept[i] <= id {
          assert kept[i] in front;
          var j :| 0 <= j < |front| && front[j] == kept[i];
          assert ids[j] <= ids[|ids| - 1];
        }
      }
    }
  }

  lemma {:induction false} FilterOutTimes(ids: seq<nat>, gone: set<nat>, x: nat)
    ensures Times(FilterOut(ids, gone), x) == if x in gone then 0 else Times(ids, x)
  {
    if ids != [] {
      var front, id := ids[..|ids| - 1], ids[|ids| - 1];
      FilterOutTimes(front, gone, x);
      assert ids == front + [id];
      assert FilterOut(front, gone) + [] == FilterOut(front, gone);
    }
  }

  /** Segments without records of `id` can be left out when only `id` matters. */
  lemma {:induction false} FilterOutProj(c: Codec, dir: Dir, ids: seq<nat>, gone: set<nat>, id: TxId)
    requires forall x :: x in gone ==> Absent(id, Parse(c, SegmentBytes(dir, x)).entries)
    ensures Proj(id, ReadSeq(c, dir, FilterOut(ids, gone)).entries) == Proj(id, ReadSeq(c, dir, ids).entries)
  {
    if ids != [] {
      var front, x := ids[..|ids| - 1], ids[|ids| - 1];
      var last := Parse(c, SegmentBytes(dir, x)).entries;
      FilterOutProj(c, dir, front, gone, id);
      ProjConcat(id, ReadSeq(c, dir, front).entries, last);
      if x in gone {
        ProjAbsent(id, last);
        assert FilterOut(ids, gone) == FilterOut(front, gone);
      } else {
        ReadSeqSnoc(c, dir, FilterOut(front, gone), x);
        ProjConcat(id, ReadSeq(c, dir, FilterOut(front, gone)).entries, last);
      }
    }
  }

  /** The names of an id after deletions: only its own path can be missing. */
  lemma NamesWithout(dir: Dir, gone: set<nat>, id: nat)
    requires AllBelowLimit(gone)
    ensures NamesOf(WithoutSegments(dir, gone), id) == if id in gone then NamesOf(dir, id) - {SegmentFileName(id)}
      else NamesOf(dir, id)
  {
    var dir' := WithoutSegments(dir, gone);
    forall name | name in NamesOf(dir, id)
      ensures name in NamesOf(dir', id) <==> !(id in gone && name == SegmentFileName(id))
    {
      forall other | other in gone ensures name == SegmentFileName(other) ==> other == id { NameRoundTrip(other); }
    }
  }

  /** Outside the deleted ids, the directory lists the same segments. */
  lemma SameKept(dir: Dir, gone: set<nat>)
    requires AllBelowLimit(gone)
    ensures FilterOut(SortedIds(WithoutSegments(dir, gone)), gone) == FilterOut(SortedIds(dir), gone)
  {
    var dir' := WithoutSegments(dir, gone);
    var a, b := FilterOut(SortedIds(dir'), gone), FilterOut(SortedIds(dir), gone);
    FilterOutIs(SortedIds(dir'), gone);
    FilterOutIs(SortedIds(dir), gone);
    forall x: nat ensures Times(a, x) == Times(b, x) {
      FilterOutTimes(SortedIds(dir'), gone, x);
      FilterOutTimes(SortedIds(dir), gone, x);
      NamesWithout(dir, gone, x);
    }
    SameTimes(a, b);
    SortedIsUnique(a, b);
  }

  lemma OutdatedBelowLimit(c: Codec, dir: Dir, lsn: nat)
    ensures AllBelowLimit(Outdated(c, dir, lsn))
  {
    SortedBelowLimit(dir);
    var sorted := SortedIds(dir);
    forall x | x in Candidates(dir) ensures x < U64_LIMIT {
      var i :| 0 <= i < |sorted| - 1 && sorted[i] == x;
      assert sorted[i] in sorted;
    }
  }

  lemma TruncationKeepsProj(c: Codec, dir: Dir, lsn: nat, stuck: set<nat>, id: TxId)
    requires id >= lsn
    ensures Proj(id, DirLog(c, WithoutSegments(dir, Outdated(c, dir, lsn) - stuck))) == Proj(id, DirLog(c, dir))
  {
    var gone := Outdated(c, dir, lsn) - stuck;
    var dir' := WithoutSegments(dir, gone);
    OutdatedBelowLimit(c, dir, lsn);
    SameKept(dir, gone);
    forall x | x in gone
      ensures Absent(id, Parse(c, SegmentBytes(dir, x)).entries) && Absent(id, Parse(c, SegmentBytes(dir', x)).entries)
    {
      BytesWithout(dir, gone, x);
    }
    FilterOutProj(c, dir, SortedIds(dir), gone, id);
    FilterOutProj(c, dir', SortedIds(dir'), gone, id);
    KeptReadAlike(c, dir, gone);
  }

  lemma KeptReadAlike(c: Codec, dir: Dir, gone: set<nat>)
    requires AllBelowLimit(gone)
    ensures ReadSeq(c, WithoutSegments(dir, gone), FilterOut(SortedIds(dir), gone))
      == ReadSeq(c, dir, FilterOut(SortedIds(dir), gone))
  {
    var kept := FilterOut(SortedIds(dir), gone);
    FilterOutIs(SortedIds(dir), gone);
    SortedBelowLimit(dir);
    forall x | x in kept ensures SegmentBytes(WithoutSegments(dir, gone), x) == SegmentBytes(dir, x) {
      BytesWithout(dir, gone, x);
    }
    ReadSeqFrame(c, dir, WithoutSegments(dir, gone), kept);
  }

  lemma SameMaxId(log: seq<WalEntry>, log': seq<WalEntry>, lsn: nat)
    requires forall id :: id >= lsn ==> Proj(id, log') == Proj(id, log)
    requires MaxId(log) >= lsn > 0
    ensures MaxId(log') == MaxId(log)
  {
    var m := MaxId(log);
    ProjAbsent(m, log);
    ProjAbsent(m, log');
    var m' := MaxId(log');
    if m' > m {
      ProjAbsent(m', log);
      ProjAbsent(m', log');
    }
  }

  /** The largest id is a candidate only if a second name gives it. */
  lemma LargestTwice(dir: Dir, m: nat)
    requires m in Candidates(dir) && forall x :: x in SegmentIds(dir) ==> x <= m
    ensures Copies(dir, m) >= 2
  {
    var sorted := SortedIds(dir);
    var n := |sorted| - 1;
    assert sorted == sorted[..n] + [sorted[n]];
    assert Times(sorted, sorted[n]) == Copies(dir, sorted[n]);
    ListedIffFound(dir, sorted[n]);
    var i :| 0 <= i < n && sorted[i] == m;
    assert sorted[n] == m;
    assert Times(sorted, m) == Times(sorted[..n], m) + 1;
    assert Times(sorted, m) == Copies(dir, m);
  }

  lemma OtherNameStays(dir: Dir, gone: set<nat>, m: nat)
    requires AllBelowLimit(gone) && Copies(dir, m) >= (if m in gone then 2 else 1)
    ensures m in SegmentIds(WithoutSegments(dir, gone))
  {
    NamesWithout(dir, gone, m);
    var names := NamesOf(dir, m);
    if m in gone && names - {SegmentFileName(m)} == {} {
      assert names <= {SegmentFileName(m)};
      SetOfOne(names, SegmentFileName(m));
    }
    ListedIffFound(WithoutSegments(dir, gone), m);
  }

  lemma SetOfOne(s: set<string>, x: string)
    requires s <= {x}
    ensures |s| <= 1
  {
    if s != {} { assert s == {x}; }
  }

  /** The highest segment id stays in the directory, so reopening takes the same new id. */
  lemma HighestSurvives(c: Codec, dir: Dir, lsn: nat, stuck: set<nat>)
    requires SegmentIds(dir) != {}
    ensures var dir' := WithoutSegments(dir, Outdated(c, dir, lsn) - stuck);
            SegmentIds(dir') != {} && MaxOf(SegmentIds(dir')) == MaxOf(SegmentIds(dir))
  {
    var gone := Outdated(c, dir, lsn) - stuck;
    var dir', m := WithoutSegments(dir, gone), MaxOf(SegmentIds(dir));
    OutdatedBelowLimit(c, dir, lsn);
    ListedIffFound(dir, m);
    if m in gone { LargestTwice(dir, m); }
    OtherNameStays(dir, gone, m);
    forall x | x in SegmentIds(dir') ensures x in SegmentIds(dir) {
      var name :| name in dir' && DiscoverId(name) == Some(x);
      assert name in dir;
    }
  }

  /** `id` is classified alike, with the same entries, on both logs. */
  ghost predicate SameOutcome(log: seq<WalEntry>, log': seq<WalEntry>, id: TxId) {
    ActionOf(id, log') == ActionOf(id, log) && DataOf(id, log') == DataOf(id, log)
  }

  /** What checkpoint and truncation must keep of a directory. */
  ghost predicate Preserved(c: Codec, dir: Dir, dir': Dir, lsn: nat) {
    && (forall id: TxId :: id >= lsn ==> SameOutcome(DirLog(c, dir), DirLog(c, dir'), id))
    && MaxId(DirLog(c, dir')) == MaxId(DirLog(c, dir))
    && SegmentIds(dir) != {} && SegmentIds(dir') != {} && MaxOf(SegmentIds(dir')) == MaxOf(SegmentIds(dir))
  }

  lemma NoSegmentsNoLog(c: Codec, dir: Dir)
    requires DirLog(c, dir) != []
    ensures SegmentIds(dir) != {}
  {
    if SegmentIds(dir) == {} {
      var ids := SortedIds(dir);
      if ids != [] {
        assert Times(ids, ids[0]) == Copies(dir, ids[0]);
        ListedIffFound(dir, ids[0]);
      }
    }
  }

  /** Checkpoint truncation preserves recovery, for every directory: whatever its file names and
      contents, every id at or above a committed one used as checkpoint is classified as before
      with the same entries, the largest id (hence the id counter) is the same, and the highest
      segment id is still found, so that reopening takes the same new one. */
  lemma TruncationPreservesRecovery(c: Codec, dir: Dir, lsn: nat, stuck: set<nat>)
    requires lsn > 0 && ActionOf(lsn, DirLog(c, dir)) == CommitAction
    ensures Preserved(c, dir, WithoutSegments(dir, Outdated(c, dir, lsn) - stuck), lsn)
  {
    var log, log' := DirLog(c, dir), DirLog(c, WithoutSegments(dir, Outdated(c, dir, lsn) - stuck));
    forall id: TxId | id >= lsn ensures Proj(id, log') == Proj(id, log) && SameOutcome(log, log', id) {
      TruncationKeepsProj(c, dir, lsn, stuck, id);
    }
    ProjAbsent(lsn, log);
    NoSegmentsNoLog(c, dir);
    SameMaxId(log, log', lsn);
    HighestSurvives(c, dir, lsn, stuck);
  }

  /** Transaction ids are 64-bit. */
  ghost predicate WordIds(c: Codec, dir: Dir) { forall e :: e in DirLog(c, dir) ==> e.txId < U64_LIMIT }

  /** `Wal::checkpoint`: take the checkpoint, then truncate; a failing truncation is ignored. */
  method CheckpointAndTruncate(c: Codec, dir: Dir, stuck: set<nat>) returns (lsn: Option<nat>, dir': Dir)
    requires WordIds(c, dir)
    ensures lsn.None? ==> dir' == dir && forall id: TxId :: ActionOf(id, DirLog(c, dir)) == CommitAction ==>
      id <= ReadCheckpoint(dir)
    ensures lsn.Some? ==> IsMaxCommitted(DirLog(c, dir), lsn) && ReadCheckpoint(dir') == lsn.value > ReadCheckpoint(dir)
    ensures lsn.Some? ==> Preserved(c, dir, dir', lsn.value)
    ensures DueIff(c, dir, lsn.Some?)
    ensures lsn.Some? ==>
      dir' == WithoutSegments(WriteCheckpoint(dir, lsn.value), Outdated(c, dir, lsn.value) - stuck)
  {
    var dir1;
    lsn, dir1 := TakeCheckpoint(c, dir);
    if lsn.None? { return None, dir; }
    CommittedIsWord(c, dir, lsn.value);
    CheckpointRoundTrip(c, dir, lsn.value);
    var removed;
    dir', removed := TruncateSegmentsBefore(c, dir1, lsn.value, stuck);
    CheckpointSurvives(dir1, Outdated(c, dir1, lsn.value) - stuck);
    TruncationPreservesRecovery(c, dir1, lsn.value, stuck);
    SameSegments(dir, dir1);
    SameOutdated(c, dir, lsn.value);
  }

  lemma SameOutdated(c: Codec, dir: Dir, lsn: nat)
    requires lsn < U64_LIMIT
    ensures Outdated(c, WriteCheckpoint(dir, lsn), lsn) == Outdated(c, dir, lsn)
  {
    CheckpointRoundTrip(c, dir, lsn);
    CheckpointFileIsNoSegment();
    forall id ensures SegmentBytes(WriteCheckpoint(dir, lsn), id) == SegmentBytes(dir, id) {}
  }

  lemma CommittedIsWord(c: Codec, dir: Dir, id: TxId)
    requires WordIds(c, dir) && ActionOf(id, DirLog(c, dir)) == CommitAction
    ensures id < U64_LIMIT
  {
    ProjAbsent(id, DirLog(c, dir));
  }

  lemma CheckpointSurvives(dir: Dir, gone: set<nat>)
    ensures ReadCheckpoint(WithoutSegments(dir, gone)) == ReadCheckpoint(dir)
  {
    CheckpointFileIsNoSegment();
  }

  lemma SameSegments(dir: Dir, dir1: Dir)
    requires SortedIds(dir1) == SortedIds(dir)
    ensures SegmentIds(dir1) == SegmentIds(dir)
  {
    forall id: nat ensures id in SegmentIds(dir1) <==> id in SegmentIds(dir) {
      ListedIffFound(dir, id);
      ListedIffFound(dir1, id);
      assert Times(SortedIds(dir), id) == Copies(dir, id) && Times(SortedIds(dir1), id) == Copies(dir1, id);
    }
  }
}
