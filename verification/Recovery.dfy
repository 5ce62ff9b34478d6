/** `recover`: reading a directory of segments and classifying its transactions. */
module Recovery {
  import opened LittleEndian
  import opened Entry
  import opened Parser
  import opened Log
  import opened SegmentName

  /** The WAL directory: file name to readable bytes. */
  type Dir = map<string, Bytes>

  /** The names in the directory that `discover_segment_ids` reads as `id`. There can be several:
      `wal-1.log` and `wal-00000001.log` both give 1. */
  function NamesOf(dir: Dir, id: nat): (names: set<string>) { set name | name in dir && DiscoverId(name) == Some(id) }

  function Copies(dir: Dir, id: nat): (n: nat) { |NamesOf(dir, id)| }

  function SegmentIds(dir: Dir): (ids: set<nat>) {
    set name | name in dir && DiscoverId(name).Some? :: DiscoverId(name).value
  }

  /** `open_read` of the segment's own path, whatever name its id was found under; a missing file
      reads as empty. */
  function SegmentBytes(dir: Dir, id: nat): (b: Bytes) {
    if SegmentFileName(id) in dir then dir[SegmentFileName(id)] else []
  }

  /** How often `id` is in the list. */
  function Times(ids: seq<nat>, id: nat): (n: nat) { multiset(ids)[id] }

  /** `ids` is the directory's list of ids, each as often as it was found. */
  ghost predicate Lists(dir: Dir, ids: seq<nat>) { forall id: nat :: Times(ids, id) == Copies(dir, id) }

  lemma ListedIffFound(dir: Dir, id: nat)
    ensures Copies(dir, id) > 0 <==> id in SegmentIds(dir)
  {
    if Copies(dir, id) > 0 { var name :| name in NamesOf(dir, id); }
    if id in SegmentIds(dir) {
      var name :| name in dir && DiscoverId(name) == Some(id);
      assert name in NamesOf(dir, id);
    }
  }

  // ----- Sorting the ids -----

  ghost predicate Sorted(ids: seq<nat>) { forall i, j :: 0 <= i < j < |ids| ==> ids[i] <= ids[j] }

  lemma MultisetFront(a: seq<nat>)
    requires a != []
    ensures multiset(a[..|a| - 1]) == multiset(a) - multiset{a[|a| - 1]}
  {
    assert a == a[..|a| - 1] + [a[|a| - 1]];
  }

  lemma SameLength(a: seq<nat>, b: seq<nat>)
    requires multiset(a) == multiset(b)
    ensures |a| == |b|
  {
    assert |a| == |multiset(a)| && |b| == |multiset(b)|;
  }

  lemma FrontsMatch(a: seq<nat>, b: seq<nat>, n: nat)
    requires Sorted(a) && Sorted(b) && multiset(a) == multiset(b) && |a| == |b| == n + 1
    ensures Sorted(a[..n]) && Sorted(b[..n]) && multiset(a[..n]) == multiset(b[..n]) && a[n] == b[n]
  {
    LastOfBoth(a, b);
    MultisetFront(a);
    MultisetFront(b);
  }

  lemma SameEnds(a: seq<nat>, b: seq<nat>, n: nat)
    requires |a| == |b| == n + 1 && a[..n] == b[..n] && a[n] == b[n]
    ensures a == b
  {
    assert a == a[..n] + [a[n]] && b == b[..n] + [b[n]];
  }

  lemma {:induction false} SortedIsUnique(a: seq<nat>, b: seq<nat>)
    requires Sorted(a) && Sorted(b) && multiset(a) == multiset(b)
    ensures a == b
  {
    SameLength(a, b);
    if a != [] {
      var n := |a| - 1;
      FrontsMatch(a, b, n);
      SortedIsUnique(a[..n], b[..n]);
      SameEnds(a, b, n);
    }
  }

  lemma LastOfBoth(a: seq<nat>, b: seq<nat>)
    requires Sorted(a) && Sorted(b) && multiset(a) == multiset(b) && a != [] && b != []
    ensures a[|a| - 1] == b[|b| - 1]
  {
    assert a[|a| - 1] in multiset(b) && b[|b| - 1] in multiset(a);
    var i :| 0 <= i < |b| && b[i] == a[|a| - 1];
    var j :| 0 <= j < |a| && a[j] == b[|b| - 1];
  }

  lemma InsertedSorted(s: seq<nat>, i: nat, x: nat)
    requires Sorted(s) && i <= |s| && (forall k :: 0 <= k < i ==> s[k] <= x) && (forall k :: i <= k < |s| ==> s[k] > x)
    ensures Sorted(s[..i] + [x] + s[i..])
  {
    var r := s[..i] + [x] + s[i..];
    assert forall k :: 0 <= k < |r| ==> r[k] == if k < i then s[k] else if k == i then x else s[k - 1];
  }

  lemma InsertedHas(s: seq<nat>, i: nat, x: nat)
    requires i <= |s|
    ensures multiset(s[..i] + [x] + s[i..]) == multiset(s) + multiset{x}
  {
    assert s == s[..i] + s[i..];
  }

  /** Where `x` goes into a sorted list. */
  method InsertSorted(sorted: seq<nat>, x: nat) returns (r: seq<nat>)
    requires Sorted(sorted)
    ensures Sorted(r) && multiset(r) == multiset(sorted) + multiset{x}
  {
    var i := |sorted|;
    while i > 0 && sorted[i - 1] > x
      invariant 0 <= i <= |sorted| && forall k :: i <= k < |sorted| ==> sorted[k] > x
    {
      i := i - 1;
    }
    InsertedSorted(sorted, i, x);
    InsertedHas(sorted, i, x);
    r := sorted[..i] + [x] + sorted[i..];
  }

  /** `sort_unstable`. */
  method SortIds(ids: seq<nat>) returns (sorted: seq<nat>)
    ensures Sorted(sorted) && multiset(sorted) == multiset(ids)
  {
    sorted := [];
    var i := 0;
    while i < |ids|
      invariant i <= |ids| && Sorted(sorted) && multiset(sorted) == multiset(ids[..i])
    {
      assert ids[..i + 1] == ids[..i] + [ids[i]];
      sorted := InsertSorted(sorted, ids[i]);
      i := i + 1;
    }
    assert ids[..i] == ids;
  }

  /** `discover_segment_ids`: the directory is listed in any order. */
  method DiscoverSegmentIds(dir: Dir) returns (ids: seq<nat>)
    ensures Lists(dir, ids)
  {
    ids := [];
    var todo := dir.Keys;
    ghost var done: set<string> := {};
    while todo != {}
      invariant todo !! done && todo + done == dir.Keys
      invariant forall id: nat :: Times(ids, id) == |Found(done, id)|
    {
      var name :| name in todo;
      FoundOneMore(done, name);
      if DiscoverId(name).Some? { ids := ids + [DiscoverId(name).value]; }
      todo, done := todo - {name}, done + {name};
    }
    assert done == dir.Keys;
    forall id: nat ensures Times(ids, id) == Copies(dir, id) { assert Found(done, id) == NamesOf(dir, id); }
  }

  ghost function Found(names: set<string>, id: nat): (r: set<string>) {
    set name | name in names && DiscoverId(name) == Some(id)
  }

  lemma FoundOneMore(names: set<string>, name: string)
    requires name !in names
    ensures forall id: nat ::
      |Found(names + {name}, id)| == |Found(names, id)| + (if DiscoverId(name) == Some(id) then 1 else 0)
  {
    forall id: nat ensures |Found(names + {name}, id)| == |Found(names, id)|
      + (if DiscoverId(name) == Some(id) then 1 else 0) {
      if DiscoverId(name) == Some(id) {
        assert Found(names + {name}, id) == Found(names, id) + {name};
      } else {
        assert Found(names + {name}, id) == Found(names, id);
      }
    }
  }

  /** The ids in the order in which they are read. */
  ghost function SortedIds(dir: Dir): (ids: seq<nat>)
    ensures Sorted(ids) && Lists(dir, ids)
  {
    SortedIdsExist(dir);
    var ids :| Sorted(ids) && Lists(dir, ids);
    ids
  }

  lemma SortedIdsExist(dir: Dir)
    ensures exists ids :: Sorted(ids) && Lists(dir, ids)
  {
    var ids := Ladder(dir, SegmentIds(dir));
    LadderLists(dir, SegmentIds(dir));
    forall id: nat ensures Times(ids, id) == Copies(dir, id) { ListedIffFound(dir, id); }
  }

  ghost function MaxOf(s: set<nat>): (m: nat)
    requires s != {}
    ensures m in s && forall x :: x in s ==> x <= m
  {
    var x :| x in s;
    if s == {x} then x
    else
      var y := MaxOf(s - {x});
      assert forall z :: z in s ==> z == x || z in s - {x};
      if x < y then y else x
  }

  ghost function Ladder(dir: Dir, ids: set<nat>): (r: seq<nat>)
    decreases |ids|
  {
    if ids == {} then []
    else Ladder(dir, ids - {MaxOf(ids)}) + seq(Copies(dir, MaxOf(ids)), _ => MaxOf(ids))
  }

  lemma {:induction false} Repeated(x: nat, n: nat)
    ensures multiset(seq(n, _ => x)) == multiset{}[x := n]
  {
    if n != 0 {
      Repeated(x, n - 1);
      assert seq(n, _ => x) == seq(n - 1, _ => x) + [x];
    } else {
      assert seq(n, _ => x) == [];
    }
  }

  lemma {:induction false} LadderLists(dir: Dir, ids: set<nat>)
    ensures Sorted(Ladder(dir, ids)) && forall x :: x in Ladder(dir, ids) ==> x in ids
    ensures forall id: nat :: Times(Ladder(dir, ids), id) == if id in ids then Copies(dir, id) else 0
    decreases |ids|
  {
    if ids != {} {
      var m := MaxOf(ids);
      LadderLists(dir, ids - {m});
      Repeated(m, Copies(dir, m));
      var front, last := Ladder(dir, ids - {m}), seq(Copies(dir, m), _ => m);
      assert multiset(front + last) == multiset(front) + multiset(last);
      forall i | 0 <= i < |front| ensures front[i] <= m { assert front[i] in ids - {m}; }
    }
  }

  lemma SameTimes(a: seq<nat>, b: seq<nat>)
    requires forall id: nat :: Times(a, id) == Times(b, id)
    ensures multiset(a) == multiset(b)
  {
    forall x: nat ensures multiset(a)[x] == multiset(b)[x] { assert Times(a, x) == Times(b, x); }
  }

  /** Any sorted list of the directory's ids is that list. */
  lemma ListIs(dir: Dir, ids: seq<nat>)
    requires Sorted(ids) && Lists(dir, ids)
    ensures ids == SortedIds(dir)
  {
    SameTimes(ids, SortedIds(dir));
    SortedIsUnique(ids, SortedIds(dir));
  }

  /** Discovering and sorting. */
  method SortedSegmentIds(dir: Dir) returns (sorted: seq<nat>)
    ensures sorted == SortedIds(dir)
  {
    var found := DiscoverSegmentIds(dir);
    sorted := SortIds(found);
    forall id: nat ensures Times(sorted, id) == Copies(dir, id) { assert Times(found, id) == Copies(dir, id); }
    ListIs(dir, sorted);
  }

  // ----- Reading -----

  function Joined(a: Parsed, b: Parsed): (p: Parsed) {
    Parsed(a.entries + b.entries, a.partial + b.partial, a.bad + b.bad)
  }

  /** The segments of `ids` read one after the other. */
  function ReadSeq(c: Codec, dir: Dir, ids: seq<nat>): (p: Parsed) {
    if ids == [] then Parsed([], 0, 0)
    else Joined(ReadSeq(c, dir, ids[..|ids| - 1]), Parse(c, SegmentBytes(dir, ids[|ids| - 1])))
  }

  lemma ReadSeqNext(c: Codec, dir: Dir, ids: seq<nat>, i: nat)
    requires i < |ids|
    ensures ReadSeq(c, dir, ids[..i + 1]) == Joined(ReadSeq(c, dir, ids[..i]), Parse(c, SegmentBytes(dir, ids[i])))
  {
    assert ids[..i + 1][..i] == ids[..i];
  }

  ghost function DirParsed(c: Codec, dir: Dir): (p: Parsed) { ReadSeq(c, dir, SortedIds(dir)) }

  ghost function DirLog(c: Codec, dir: Dir): (log: seq<WalEntry>) { DirParsed(c, dir).entries }

  /** The first half of `recover`: all entries of all segments, in segment order. */
  method ReadSegments(c: Codec, dir: Dir) returns (all: seq<WalEntry>, partial: nat, bad: nat)
    ensures Parsed(all, partial, bad) == DirParsed(c, dir)
    ensures partial == Total(TornIn(c, dir, SortedIds(dir))) && bad == Total(CorruptIn(c, dir, SortedIds(dir)))
  {
    CountsAreTotals(c, dir, SortedIds(dir));
    var sorted := SortedSegmentIds(dir);
    var acc := Parsed([], 0, 0);
    var i := 0;
    while i < |sorted|
      invariant i <= |sorted| && acc == ReadSeq(c, dir, sorted[..i])
    {
      var entries, p, b := ReadSegmentEntries(c, SegmentBytes(dir, sorted[i]));
      ReadSeqNext(c, dir, sorted, i);
      acc := Joined(acc, Parsed(entries, p, b));
      i := i + 1;
    }
    assert sorted[..i] == sorted;
    all, partial, bad := acc.entries, acc.partial, acc.bad;
  }

  // ----- What the counters count -----

  function Total(ns: seq<nat>): (n: nat) {
    if ns == [] then 0 else ns[0] + Total(ns[1..])
  }

  lemma {:induction false} TotalSnoc(ns: seq<nat>, n: nat)
    ensures Total(ns + [n]) == Total(ns) + n
  {
    if ns != [] {
      assert (ns + [n])[1..] == ns[1..] + [n];
      TotalSnoc(ns[1..], n);
    }
  }

  /** The torn records, and the corrupt ones, that each of the segments ends with. */
  ghost function TornIn(c: Codec, dir: Dir, ids: seq<nat>): (ns: seq<nat>)
    ensures |ns| == |ids| && forall i :: 0 <= i < |ids| ==> ns[i] == Parse(c, SegmentBytes(dir, ids[i])).partial
  {
    seq(|ids|, i requires 0 <= i < |ids| => Parse(c, SegmentBytes(dir, ids[i])).partial)
  }

  ghost function CorruptIn(c: Codec, dir: Dir, ids: seq<nat>): (ns: seq<nat>)
    ensures |ns| == |ids| && forall i :: 0 <= i < |ids| ==> ns[i] == Parse(c, SegmentBytes(dir, ids[i])).bad
  {
    seq(|ids|, i requires 0 <= i < |ids| => Parse(c, SegmentBytes(dir, ids[i])).bad)
  }

  lemma OneMoreCounted(c: Codec, dir: Dir, ids: seq<nat>, x: nat)
    ensures var p := Parse(c, SegmentBytes(dir, x));
            && Total(TornIn(c, dir, ids + [x])) == Total(TornIn(c, dir, ids)) + p.partial
            && Total(CorruptIn(c, dir, ids + [x])) == Total(CorruptIn(c, dir, ids)) + p.bad
  {
    var p := Parse(c, SegmentBytes(dir, x));
    assert TornIn(c, dir, ids + [x]) == TornIn(c, dir, ids) + [p.partial];
    assert CorruptIn(c, dir, ids + [x]) == CorruptIn(c, dir, ids) + [p.bad];
    TotalSnoc(TornIn(c, dir, ids), p.partial);
    TotalSnoc(CorruptIn(c, dir, ids), p.bad);
  }

  /** One set of statistics goes through all segments: nothing counted in one is forgotten. */
  lemma {:induction false} CountsAreTotals(c: Codec, dir: Dir, ids: seq<nat>)
    ensures ReadSeq(c, dir, ids).partial == Total(TornIn(c, dir, ids))
    ensures ReadSeq(c, dir, ids).bad == Total(CorruptIn(c, dir, ids))
  {
    if ids != [] {
      var front, x := ids[..|ids| - 1], ids[|ids| - 1];
      assert ids == front + [x];
      CountsAreTotals(c, dir, front);
      OneMoreCounted(c, dir, front, x);
      ReadSeqSnoc(c, dir, front, x);
    }
  }

  /** A file with the records `log` and then a torn one, if any. */
  ghost predicate Torn(c: Codec, b: Bytes, log: seq<WalEntry>, torn: Bytes) {
    FitsAll(c, log) && TornTail(c, torn) && b == Frames(c, log) + torn
  }

  ghost predicate Written(c: Codec, dir: Dir, ids: seq<nat>, logs: seq<seq<WalEntry>>, torn: seq<Bytes>) {
    && |ids| == |logs| == |torn|
    && forall i :: 0 <= i < |ids| ==> Torn(c, SegmentBytes(dir, ids[i]), logs[i], torn[i])
  }

  function Concat(logs: seq<seq<WalEntry>>): (log: seq<WalEntry>) {
    if logs == [] then [] else logs[0] + Concat(logs[1..])
  }

  lemma {:induction false} ConcatSnoc(logs: seq<seq<WalEntry>>, log: seq<WalEntry>)
    ensures Concat(logs + [log]) == Concat(logs) + log
  {
    if logs == [] {
      assert ([] + [log])[1..] == [] && log + [] == log;
    } else {
      assert (logs + [log])[1..] == logs[1..] + [log];
      ConcatSnoc(logs[1..], log);
    }
  }

  /** The segments that end in a torn record. */
  ghost function TornOnes(torn: seq<Bytes>): (r: set<nat>) { set i | 0 <= i < |torn| && torn[i] != [] }

  lemma TornOnesSnoc(torn: seq<Bytes>, t: Bytes)
    ensures |TornOnes(torn + [t])| == |TornOnes(torn)| + (if t == [] then 0 else 1)
  {
    assert TornOnes(torn + [t]) == TornOnes(torn) + (if t == [] then {} else {|torn|});
  }

  lemma ParseWritten(c: Codec, b: Bytes, log: seq<WalEntry>, torn: Bytes)
    requires Lawful(c) && Torn(c, b, log, torn)
    ensures Parse(c, b) == Parsed(log, if torn == [] then 0 else 1, 0)
  {
    ParseFrames(c, log, torn);
    ParseTornTail(c, torn);
  }

  lemma OneMoreRead(c: Codec, dir: Dir, ids: seq<nat>, id: nat, logs: seq<seq<WalEntry>>, log: seq<WalEntry>,
      torn: seq<Bytes>, t: Bytes)
    requires ReadSeq(c, dir, ids) == Parsed(Concat(logs), |TornOnes(torn)|, 0)
    requires Parse(c, SegmentBytes(dir, id)) == Parsed(log, if t == [] then 0 else 1, 0)
    ensures ReadSeq(c, dir, ids + [id]) == Parsed(Concat(logs + [log]), |TornOnes(torn + [t])|, 0)
  {
    ReadSeqSnoc(c, dir, ids, id);
    ConcatSnoc(logs, log);
    TornOnesSnoc(torn, t);
  }

  ghost predicate ReadAs(c: Codec, dir: Dir, ids: seq<nat>, logs: seq<seq<WalEntry>>, torn: seq<Bytes>) {
    && |ids| == |logs| == |torn|
    && forall i :: 0 <= i < |ids| ==>
         Parse(c, SegmentBytes(dir, ids[i])) == Parsed(logs[i], if torn[i] == [] then 0 else 1, 0)
  }

  lemma ReadAsFront(c: Codec, dir: Dir, ids: seq<nat>, logs: seq<seq<WalEntry>>, torn: seq<Bytes>, n: nat)
    requires ReadAs(c, dir, ids, logs, torn) && n < |ids|
    ensures ReadAs(c, dir, ids[..n], logs[..n], torn[..n])
    ensures Parse(c, SegmentBytes(dir, ids[n])) == Parsed(logs[n], if torn[n] == [] then 0 else 1, 0)
  {}

  lemma Rejoined(ids: seq<nat>, logs: seq<seq<WalEntry>>, torn: seq<Bytes>, n: nat)
    requires |ids| == |logs| == |torn| == n + 1
    ensures ids[..n] + [ids[n]] == ids && logs[..n] + [logs[n]] == logs && torn[..n] + [torn[n]] == torn
  {}

  lemma {:induction false} ReadsAll(c: Codec, dir: Dir, ids: seq<nat>, logs: seq<seq<WalEntry>>, torn: seq<Bytes>)
    requires ReadAs(c, dir, ids, logs, torn)
    ensures ReadSeq(c, dir, ids) == Parsed(Concat(logs), |TornOnes(torn)|, 0)
  {
    if ids == [] {
      assert TornOnes(torn) == {};
    } else {
      var n := |ids| - 1;
      ReadAsFront(c, dir, ids, logs, torn, n);
      ReadsAll(c, dir, ids[..n], logs[..n], torn[..n]);
      OneMoreRead(c, dir, ids[..n], ids[n], logs[..n], logs[n], torn[..n], torn[n]);
      Rejoined(ids, logs, torn, n);
    }
  }

  /** Segments written by the log and cut by any number of crashes: recovery reads all their whole
      records in order, counts one torn record per segment that ends in one, and no corrupt one. */
  lemma ReadsWritten(c: Codec, dir: Dir, ids: seq<nat>, logs: seq<seq<WalEntry>>, torn: seq<Bytes>)
    requires Lawful(c) && Written(c, dir, ids, logs, torn)
    ensures ReadSeq(c, dir, ids) == Parsed(Concat(logs), |TornOnes(torn)|, 0)
  {
    forall i | 0 <= i < |ids|
      ensures Parse(c, SegmentBytes(dir, ids[i])) == Parsed(logs[i], if torn[i] == [] then 0 else 1, 0)
    {
      ParseWritten(c, SegmentBytes(dir, ids[i]), logs[i], torn[i]);
    }
    ReadsAll(c, dir, ids, logs, torn);
  }

  // ----- Segments found under two names -----

  /** No two names in the directory give the same id. */
  ghost predicate NamesGiveIdsOnce(dir: Dir) {
    forall a, b :: a in dir && b in dir && DiscoverId(a).Some? && DiscoverId(a) == DiscoverId(b) ==> a == b
  }

  ghost predicate StrictlySorted(ids: seq<nat>) { forall i, j :: 0 <= i < j < |ids| ==> ids[i] < ids[j] }

  lemma TwoNamesCount(dir: Dir, a: string, b: string)
    requires a in dir && b in dir && a != b && DiscoverId(a).Some? && DiscoverId(a) == DiscoverId(b)
    ensures Copies(dir, DiscoverId(a).value) >= 2
  {
    var names := NamesOf(dir, DiscoverId(a).value);
    assert {a, b} <= names;
    SubsetCount({a, b}, names);
  }

  lemma {:induction false} SubsetCount(x: set<string>, y: set<string>)
    requires x <= y
    ensures |x| <= |y|
  {
    if x != {} {
      var e :| e in x;
      SubsetCount(x - {e}, y - {e});
    }
  }

  /** In a strictly sorted list every id is there once. */
  lemma {:induction false} StrictlySortedTimes(ids: seq<nat>, id: nat)
    requires StrictlySorted(ids)
    ensures Times(ids, id) <= 1
  {
    if ids != [] {
      var n := |ids| - 1;
      StrictlySortedTimes(ids[..n], id);
      assert ids == ids[..n] + [ids[n]];
      if id in ids[..n] { var i :| 0 <= i < n && ids[i] == id; }
    }
  }

  lemma OnceEach(dir: Dir, ids: seq<nat>, i: nat, j: nat)
    requires Lists(dir, ids) && i < j < |ids| && ids[i] == ids[j]
    ensures !NamesGiveIdsOnce(dir)
  {
    var id := ids[i];
    assert ids == ids[..j] + ids[j..] && ids[..j][i] == id && ids[j..][0] == id;
    assert multiset(ids) == multiset(ids[..j]) + multiset(ids[j..]);
    assert Times(ids, id) == Copies(dir, id) && Copies(dir, id) >= 2;
    var a :| a in NamesOf(dir, id);
    var others := NamesOf(dir, id) - {a};
    assert |others| >= 1;
    var b :| b in others;
  }

  /** Recovery reads every segment once exactly when no two names of the directory give the same
      id. */
  lemma ReadOnceIff(dir: Dir)
    ensures StrictlySorted(SortedIds(dir)) <==> NamesGiveIdsOnce(dir)
  {
    var ids := SortedIds(dir);
    if StrictlySorted(ids) {
      forall a, b | a in dir && b in dir && DiscoverId(a).Some? && DiscoverId(a) == DiscoverId(b) ensures a == b {
        var id := DiscoverId(a).value;
        StrictlySortedTimes(ids, id);
        assert Times(ids, id) == Copies(dir, id);
        if a != b { TwoNamesCount(dir, a, b); }
      }
    } else {
      var i, j :| 0 <= i < j < |ids| && ids[i] >= ids[j];
      OnceEach(dir, ids, i, j);
    }
  }

  const SHORT_NAME := "wal-1.log"

  /** Segment 1 next to a file whose short name gives the same id. */
  function TwoNames(other: Bytes, b: Bytes): (dir: Dir) { map[SHORT_NAME := other, SegmentFileName(1) := b] }

  lemma ShortName()
    ensures DiscoverId(SHORT_NAME) == Some(1) && SegmentFileName(1) != SHORT_NAME
  {
    assert SHORT_NAME[4..|SHORT_NAME| - 4] == "1" && SHORT_NAME[|SHORT_NAME| - 4..] == ".log";
    assert "1"[..0] == [];
    assert |SegmentFileName(1)| >= 16;
  }

  lemma TwoNamesList(other: Bytes, b: Bytes)
    ensures SortedIds(TwoNames(other, b)) == [1, 1]
  {
    var dir := TwoNames(other, b);
    ShortName();
    NameRoundTrip(1);
    forall id: nat ensures Times([1, 1], id) == Copies(dir, id) {
      if id == 1 {
        assert NamesOf(dir, id) == {SHORT_NAME, SegmentFileName(1)};
      } else {
        assert NamesOf(dir, id) == {};
      }
    }
    ListIs(dir, [1, 1]);
  }

  lemma ReadSeqSnoc(c: Codec, dir: Dir, ids: seq<nat>, x: nat)
    ensures ReadSeq(c, dir, ids + [x]).entries == ReadSeq(c, dir, ids).entries + Parse(c, SegmentBytes(dir, x)).entries
    ensures ReadSeq(c, dir, ids + [x]).partial == ReadSeq(c, dir, ids).partial + Parse(c, SegmentBytes(dir, x)).partial
    ensures ReadSeq(c, dir, ids + [x]).bad == ReadSeq(c, dir, ids).bad + Parse(c, SegmentBytes(dir, x)).bad
  {
    assert (ids + [x])[..|ids|] == ids;
  }

  lemma ReadOne(c: Codec, dir: Dir, ids: seq<nat>, x: nat)
    requires |ids| == 1 && ids[0] == x
    ensures ReadSeq(c, dir, ids).entries == Parse(c, SegmentBytes(dir, x)).entries
  {
    assert ids == ids[..0] + [x];
    ReadSeqSnoc(c, dir, ids[..0], x);
    assert ReadSeq(c, dir, ids[..0]).entries == [];
  }

  lemma ReadPair(c: Codec, dir: Dir, front: seq<nat>, x: nat)
    requires |front| == 1 && front[0] == x
    ensures var once := Parse(c, SegmentBytes(dir, x)).entries; ReadSeq(c, dir, front + [x]).entries == once + once
  {
    ReadOne(c, dir, front, x);
    ReadSeqSnoc(c, dir, front, x);
  }

  lemma TwoNamesLog(c: Codec, other: Bytes, b: Bytes)
    ensures DirLog(c, TwoNames(other, b)) == Parse(c, b).entries + Parse(c, b).entries
  {
    TwoNamesList(other, b);
    ReadPair(c, TwoNames(other, b), [1], 1);
    assert [1] + [1] == [1, 1];
  }

  /** There recovery reads segment 1 twice: each transaction in it is classified as before, with
      its entries doubled. */
  lemma SegmentReadTwice(c: Codec, other: Bytes, b: Bytes, id: TxId)
    ensures var once, log := Parse(c, b).entries, DirLog(c, TwoNames(other, b));
            && log == once + once
            && ActionOf(id, log) == ActionOf(id, once) && DataOf(id, log) == DataOf(id, once) + DataOf(id, once)
  {
    var once := Parse(c, b).entries;
    TwoNamesLog(c, other, b);
    ProjConcat(id, once, once);
    Doubled(Proj(id, once), Proj(id, once));
  }

  lemma {:induction false} Doubled(a: seq<WalEntry>, b: seq<WalEntry>)
    ensures NonMarkers(a + b) == NonMarkers(a) + NonMarkers(b)
    ensures LastMarker(a + b) == if LastMarker(b) != IncompleteAction then LastMarker(b) else LastMarker(a)
  {
    if b == [] {
      assert a + b == a;
    } else {
      var n := |b| - 1;
      Doubled(a, b[..n]);
      assert (a + b)[..|a + b| - 1] == a + b[..n] && (a + b)[|a + b| - 1] == b[n];
    }
  }

  // ----- Classification -----

  datatype RecoveredTransaction = RecoveredTransaction(txId: TxId, action: RecoveryAction, entries: seq<WalEntry>)

  datatype Stats = Stats(total: nat, committed: nat, aborted: nat, incomplete: nat, partialWrites: nat,
      checksumFailures: nat)

  function CountAction(txs: seq<RecoveredTransaction>, a: RecoveryAction): (n: nat) {
    if txs == [] then 0
    else CountAction(txs[..|txs| - 1], a) + (if txs[|txs| - 1].action == a then 1 else 0)
  }

  lemma {:induction false} CountsAddUp(txs: seq<RecoveredTransaction>)
    ensures CountAction(txs, CommitAction) + CountAction(txs, RollbackAction) + CountAction(txs, IncompleteAction)
      == |txs|
  {
    if txs != [] { CountsAddUp(txs[..|txs| - 1]); }
  }

  ghost function WithAction(txs: seq<RecoveredTransaction>, a: RecoveryAction): (r: set<nat>) {
    set i | 0 <= i < |txs| && txs[i].action == a
  }

  /** Each count is the number of transactions with that outcome. */
  lemma {:induction false} CountIs(txs: seq<RecoveredTransaction>, a: RecoveryAction)
    ensures CountAction(txs, a) == |WithAction(txs, a)|
  {
    if txs == [] {
      assert WithAction(txs, a) == {};
    } else {
      var n := |txs| - 1;
      CountIs(txs[..n], a);
      assert WithAction(txs, a) == WithAction(txs[..n], a) + (if txs[n].action == a then {n} else {});
    }
  }

  lemma ActionSnoc(id: TxId, log: seq<WalEntry>, e: WalEntry)
    ensures ActionOf(id, log + [e]) ==
            if e.txId != id then ActionOf(id, log)
            else if e.Commit? then CommitAction else if e.Abort? then RollbackAction else ActionOf(id, log)
    ensures DataOf(id, log + [e]) == if e.txId == id && !e.IsMarker() then DataOf(id, log) + [e] else DataOf(id, log)
  {
    ProjSnoc(id, log, e);
    var p := Proj(id, log);
    if e.txId == id {
      assert (p + [e])[..|p|] == p;
      assert NonMarkers(p) + [] == NonMarkers(p);
    } else {
      assert p + [] == p;
    }
  }

  /** The two hash maps hold exactly the classification of the entries seen so far. */
  ghost predicate Classified(log: seq<WalEntry>, data: map<TxId, seq<WalEntry>>, status: map<TxId, RecoveryAction>) {
    && (forall id: TxId ::
      (id in status <==> ActionOf(id, log) != IncompleteAction) && (id in status ==> status[id] == ActionOf(id, log)))
    && (forall id: TxId :: (id in data <==> DataOf(id, log) != []) && (id in data ==> data[id] == DataOf(id, log)))
  }

  lemma {:induction false} MaxIdSnoc(log: seq<WalEntry>, e: WalEntry)
    ensures MaxId(log + [e]) == Max(MaxId(log), e.txId)
  {
    if log == [] {
      assert MaxId([e]) == Max(e.txId, MaxId([e][1..]));
    } else {
      MaxIdSnoc(log[1..], e);
      assert (log + [e])[1..] == log[1..] + [e];
    }
  }

  /** The body of the classification loop. */
  method ClassifyEntry(ghost log: seq<WalEntry>, e: WalEntry, data: map<TxId, seq<WalEntry>>,
      status: map<TxId, RecoveryAction>)
    returns (data': map<TxId, seq<WalEntry>>, status': map<TxId, RecoveryAction>)
    requires Classified(log, data, status)
    ensures Classified(log + [e], data', status')
  {
    data', status' := data, status;
    if e.Commit? {
      status' := status[e.txId := CommitAction];
    } else if e.Abort? {
      status' := status[e.txId := RollbackAction];
    } else {
      data' := data[e.txId := (if e.txId in data then data[e.txId] else []) + [e]];
    }
    ClassifiedSnoc(log, e, data, status, data', status');
  }

  method Classify(log: seq<WalEntry>) returns (data: map<TxId, seq<WalEntry>>, status: map<TxId, RecoveryAction>,
      maxTxId: nat)
    ensures Classified(log, data, status) && maxTxId == MaxId(log)
  {
    data, status, maxTxId := map[], map[], 0;
    var i := 0;
    while i < |log|
      invariant i <= |log| && Classified(log[..i], data, status) && maxTxId == MaxId(log[..i])
    {
      assert log[..i + 1] == log[..i] + [log[i]];
      MaxIdSnoc(log[..i], log[i]);
      if log[i].txId > maxTxId { maxTxId := log[i].txId; }
      data, status := ClassifyEntry(log[..i], log[i], data, status);
      i := i + 1;
    }
    assert log[..i] == log;
  }

  lemma ClassifiedSnoc(log: seq<WalEntry>, e: WalEntry, data: map<TxId, seq<WalEntry>>,
      status: map<TxId, RecoveryAction>,
                       data': map<TxId, seq<WalEntry>>, status': map<TxId, RecoveryAction>)
    requires Classified(log, data, status)
    requires status' == if e.Commit? then status[e.txId := CommitAction]
      else if e.Abort? then status[e.txId := RollbackAction] else status
    requires data' == if e.IsMarker() then data else data[e.txId := (if e.txId in data then data[e.txId] else []) + [e]]
    ensures Classified(log + [e], data', status')
  {
    forall id: TxId
      ensures (id in status' <==> ActionOf(id, log + [e]) != IncompleteAction)
        && (id in status' ==> status'[id] == ActionOf(id, log + [e]))
      ensures (id in data' <==> DataOf(id, log + [e]) != []) && (id in data' ==> data'[id] == DataOf(id, log + [e]))
    {
      ActionSnoc(id, log, e);
    }
  }

  /** Ids that occur in a log are those with data or a marker. */
  lemma {:induction false} MarkedOrData(p: seq<WalEntry>)
    ensures p != [] <==> LastMarker(p) != IncompleteAction || NonMarkers(p) != []
  {
    if p != [] { MarkedOrData(p[..|p| - 1]); }
  }

  /** One transaction per id of the log, each with its last marker as action and its non-marker
      records in log order as entries. */
  ghost predicate Recovered(log: seq<WalEntry>, txs: seq<RecoveredTransaction>) {
    && (forall i, j :: 0 <= i < j < |txs| ==> txs[i].txId != txs[j].txId)
    && (forall i :: 0 <= i < |txs| ==>
          && txs[i].action == ActionOf(txs[i].txId, log) && txs[i].entries == DataOf(txs[i].txId, log))
    && (forall id: TxId :: Absent(id, log) <==> forall i :: 0 <= i < |txs| ==> txs[i].txId != id)
  }

  /** What the last loop has built once the ids `seen` are done. */
  ghost predicate Building(log: seq<WalEntry>, seen: set<TxId>, txs: seq<RecoveredTransaction>) {
    && (forall i, j :: 0 <= i < j < |txs| ==> txs[i].txId != txs[j].txId)
    && (forall i :: 0 <= i < |txs| ==> txs[i].txId in seen)
    && (forall id :: id in seen ==> exists i :: 0 <= i < |txs| && txs[i].txId == id)
    && (forall i :: 0 <= i < |txs| ==>
      txs[i].action == ActionOf(txs[i].txId, log) && txs[i].entries == DataOf(txs[i].txId, log))
  }

  lemma BuildOne(log: seq<WalEntry>, seen: set<TxId>, txs: seq<RecoveredTransaction>, tx: RecoveredTransaction)
    requires Building(log, seen, txs) && tx.txId !in seen
    requires tx.action == ActionOf(tx.txId, log) && tx.entries == DataOf(tx.txId, log)
    ensures Building(log, seen + {tx.txId}, txs + [tx])
  {
    var txs' := txs + [tx];
    forall id | id in seen + {tx.txId} ensures exists i :: 0 <= i < |txs'| && txs'[i].txId == id {
      if id == tx.txId {
        assert txs'[|txs|].txId == id;
      } else {
        var i :| 0 <= i < |txs| && txs[i].txId == id;
        assert txs'[i].txId == id;
      }
    }
    forall i | 0 <= i < |txs'|
      ensures txs'[i].txId in seen + {tx.txId} && txs'[i].action == ActionOf(txs'[i].txId, log)
      ensures txs'[i].entries == DataOf(txs'[i].txId, log)
    {
      assert i < |txs| ==> txs'[i] == txs[i];
    }
  }

  lemma BuiltAll(log: seq<WalEntry>, data: map<TxId, seq<WalEntry>>, status: map<TxId, RecoveryAction>,
      txs: seq<RecoveredTransaction>)
    requires Classified(log, data, status) && Building(log, data.Keys + status.Keys, txs)
    ensures Recovered(log, txs)
  {
    forall id: TxId ensures Absent(id, log) <==> forall i :: 0 <= i < |txs| ==> txs[i].txId != id {
      ProjAbsent(id, log);
      MarkedOrData(Proj(id, log));
      assert Absent(id, log) <==> id !in data.Keys + status.Keys;
    }
  }

  method BuildTransaction(ghost log: seq<WalEntry>, id: TxId, data: map<TxId, seq<WalEntry>>,
      status: map<TxId, RecoveryAction>)
    returns (tx: RecoveredTransaction)
    requires Classified(log, data, status)
    ensures tx == RecoveredTransaction(id, ActionOf(id, log), DataOf(id, log))
  {
    var action := if id in status then status[id] else IncompleteAction;
    var entries := if id in data then data[id] else [];
    tx := RecoveredTransaction(id, action, entries);
  }

  ghost predicate Counted(txs: seq<RecoveredTransaction>, committed: nat, aborted: nat, incomplete: nat) {
    && committed == CountAction(txs, CommitAction) && aborted == CountAction(txs, RollbackAction)
    && incomplete == CountAction(txs, IncompleteAction)
  }

  lemma CountSnoc(txs: seq<RecoveredTransaction>, tx: RecoveredTransaction, a: RecoveryAction)
    ensures CountAction(txs + [tx], a) == CountAction(txs, a) + (if tx.action == a then 1 else 0)
  {
    assert (txs + [tx])[..|txs|] == txs;
  }

  method CountOne(ghost txs: seq<RecoveredTransaction>, tx: RecoveredTransaction, committed: nat, aborted: nat,
      incomplete: nat)
    returns (c: nat, a: nat, n: nat)
    requires Counted(txs, committed, aborted, incomplete)
    ensures Counted(txs + [tx], c, a, n)
  {
    CountSnoc(txs, tx, CommitAction);
    CountSnoc(txs, tx, RollbackAction);
    CountSnoc(txs, tx, IncompleteAction);
    c, a, n := committed, aborted, incomplete;
    match tx.action {
      case CommitAction => c := c + 1;
      case RollbackAction => a := a + 1;
      case IncompleteAction => n := n + 1;
    }
  }

  /** The last loop: the ids come out of a hash set in any order. */
  method BuildTransactions(ghost log: seq<WalEntry>, data: map<TxId, seq<WalEntry>>, status: map<TxId, RecoveryAction>)
    returns (txs: seq<RecoveredTransaction>, committed: nat, aborted: nat, incomplete: nat)
    requires Classified(log, data, status)
    ensures Recovered(log, txs) && Counted(txs, committed, aborted, incomplete)
  {
    txs, committed, aborted, incomplete := [], 0, 0, 0;
    var todo := data.Keys + status.Keys;
    ghost var seen: set<TxId> := {};
    while todo != {}
      invariant seen !! todo && seen + todo == data.Keys + status.Keys
      invariant Building(log, seen, txs) && Counted(txs, committed, aborted, incomplete)
    {
      var id :| id in todo;
      var tx := BuildTransaction(log, id, data, status);
      committed, aborted, incomplete := CountOne(txs, tx, committed, aborted, incomplete);
      BuildOne(log, seen, txs, tx);
      txs := txs + [tx];
      todo, seen := todo - {id}, seen + {id};
    }
    assert seen == data.Keys + status.Keys;
    BuiltAll(log, data, status, txs);
  }

  /** `recover`. The returned `maxTxId` is what `reset_tx_id` is called with, less one. */
  method Recover(c: Codec, dir: Dir) returns (txs: seq<RecoveredTransaction>, stats: Stats, maxTxId: nat)
    ensures Recovered(DirLog(c, dir), txs) && maxTxId == MaxId(DirLog(c, dir))
    ensures stats.total == |txs| == stats.committed + stats.aborted + stats.incomplete
    ensures stats.committed == CountAction(txs, CommitAction) == |WithAction(txs, CommitAction)|
    ensures stats.aborted == CountAction(txs, RollbackAction) == |WithAction(txs, RollbackAction)|
    ensures stats.partialWrites == DirParsed(c, dir).partial == Total(TornIn(c, dir, SortedIds(dir)))
    ensures stats.checksumFailures == DirParsed(c, dir).bad == Total(CorruptIn(c, dir, SortedIds(dir)))
  {
    CountsAreTotals(c, dir, SortedIds(dir));
    var all, partial, bad := ReadSegments(c, dir);
    var data, status, m := Classify(all);
    var recovered, committed, aborted, incomplete := BuildTransactions(all, data, status);
    CountsAddUp(recovered);
    CountIs(recovered, CommitAction);
    CountIs(recovered, RollbackAction);
    txs, maxTxId := recovered, m;
    stats := Stats(|recovered|, committed, aborted, incomplete, partial, bad);
  }

  /** `recover` on a directory whose segments the log wrote and crashes cut. */
  method RecoverWritten(c: Codec, dir: Dir, ghost logs: seq<seq<WalEntry>>, ghost torn: seq<Bytes>)
    returns (txs: seq<RecoveredTransaction>, stats: Stats)
    requires Lawful(c) && Written(c, dir, SortedIds(dir), logs, torn)
    ensures Recovered(Concat(logs), txs)
    ensures stats.partialWrites == |TornOnes(torn)| && stats.checksumFailures == 0
  {
    var m;
    txs, stats, m := Recover(c, dir);
    ReadsWritten(c, dir, SortedIds(dir), logs, torn);
  }
}
