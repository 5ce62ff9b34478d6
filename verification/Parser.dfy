/** Reading a segment back: `read_segment_entries` and `read_segment_max_tx_id`. */
module Parser {
  import opened LittleEndian
  import opened Entry

  /** Entries read, and the amounts added to `partial_writes` and `checksum_failures`. */
  datatype Parsed = Parsed(entries: seq<WalEntry>, partial: nat, bad: nat)

  function Prepend(es: seq<WalEntry>, p: Parsed): (r: Parsed) {
    p.(entries := es + p.entries)
  }

  /** The record at the front of `b`: its data, or the way reading it stops. */
  datatype Front = Stop(partial: nat, bad: nat) | Data(data: Bytes)

  function ReadFront(c: Codec, b: Bytes): (r: Front)
    ensures r.Data? ==> HEADER_SIZE + |r.data| <= |b|
  {
    if |b| < HEADER_SIZE then Stop(if b == [] then 0 else 1, 0)
    else
      var h := DecodeHeader(b[..HEADER_SIZE]);
      if HEADER_SIZE + h.length > |b| then Stop(1, 0)
      else
        var data := b[HEADER_SIZE..HEADER_SIZE + h.length];
        if !Validates(c, h, data) then Stop(0, 1) else Data(data)
  }

  function Parse(c: Codec, b: Bytes): (r: Parsed)
    decreases |b|
  {
    match ReadFront(c, b)
    case Stop(partial, bad) => Parsed([], partial, bad)
    case Data(data) =>
      match c.de(data)
      case None => Parsed([], 0, 1)
      case Some(e) => Prepend([e], Parse(c, b[HEADER_SIZE + |data|..]))
  }

  /** How many whole records of `es` lie inside the first `cut` bytes. */
  function Whole(c: Codec, es: seq<WalEntry>, cut: nat): (n: nat)
    ensures n <= |es|
  {
    if es == [] || cut < |Frame(c, es[0])| then 0
    else 1 + Whole(c, es[1..], cut - |Frame(c, es[0])|)
  }

  lemma {:induction false} WholeIsMaximal(c: Codec, es: seq<WalEntry>, cut: nat)
    ensures var n := Whole(c, es, cut);
            && |Frames(c, es[..n])| <= cut
            && (n < |es| ==> cut < |Frames(c, es[..n + 1])|)
    decreases |es|
  {
    if es != [] && cut >= |Frame(c, es[0])| {
      var cut' := cut - |Frame(c, es[0])|;
      WholeIsMaximal(c, es[1..], cut');
      var m := Whole(c, es[1..], cut');
      assert es[..m + 1][1..] == es[1..][..m];
      if m < |es[1..]| {
        assert es[..m + 2][1..] == es[1..][..m + 1];
      }
    } else if es != [] {
      assert es[..1] == [es[0]];
      FramesOne(c, es[0]);
    }
  }

  /** A record written by `append_entry` is read back whole, whatever follows it. */
  lemma ReadFrontOfFrame(c: Codec, e: WalEntry, rest: Bytes)
    requires Lawful(c) && Fits(c, e)
    ensures ReadFront(c, Frame(c, e) + rest) == Data(c.ser(e))
  {
    var b := Frame(c, e) + rest;
    var h := NewHeader(c, c.ser(e));
    assert b[..HEADER_SIZE] == EncodeHeader(h);
    DecodeEncodeHeader(h);
    assert b[HEADER_SIZE..HEADER_SIZE + h.length] == c.ser(e);
  }

  lemma ParseOne(c: Codec, e: WalEntry, rest: Bytes)
    requires Lawful(c) && Fits(c, e)
    ensures Parse(c, Frame(c, e) + rest) == Prepend([e], Parse(c, rest))
  {
    ReadFrontOfFrame(c, e, rest);
    assert (Frame(c, e) + rest)[|Frame(c, e)|..] == rest;
  }

  lemma PrependConcat(a: seq<WalEntry>, b: seq<WalEntry>, p: Parsed)
    ensures Prepend(a, Prepend(b, p)) == Prepend(a + b, p)
    ensures Prepend([], p) == p
  {
    assert a + (b + p.entries) == a + b + p.entries;
    assert [] + p.entries == p.entries;
  }

  lemma {:induction false} ParseFrames(c: Codec, es: seq<WalEntry>, rest: Bytes)
    requires Lawful(c) && FitsAll(c, es)
    ensures Parse(c, Frames(c, es) + rest) == Prepend(es, Parse(c, rest))
  {
    PrependConcat([], [], Parse(c, rest));
    if es == [] {
      assert Frames(c, es) + rest == rest;
    } else {
      var tail := Frames(c, es[1..]) + rest;
      Assoc(Frame(c, es[0]), Frames(c, es[1..]), rest);
      ParseOne(c, es[0], tail);
      ParseFrames(c, es[1..], rest);
      PrependConcat([es[0]], es[1..], Parse(c, rest));
      assert [es[0]] + es[1..] == es;
    }
  }

  /** `torn` is what remains of one record whose write was cut short (possibly nothing). */
  ghost predicate TornTail(c: Codec, torn: Bytes) {
    torn == [] || exists e: WalEntry :: Fits(c, e) && torn < Frame(c, e)
  }

  lemma ReadFrontShort(c: Codec, h: Header, rest: Bytes)
    requires HeaderFits(h) && |rest| < h.length
    ensures ReadFront(c, EncodeHeader(h) + rest) == Stop(1, 0)
  {
    assert (EncodeHeader(h) + rest)[..HEADER_SIZE] == EncodeHeader(h);
    DecodeEncodeHeader(h);
  }

  lemma ReadFrontOfTorn(c: Codec, torn: Bytes)
    requires Lawful(c) && TornTail(c, torn)
    ensures ReadFront(c, torn) == Stop(if torn == [] then 0 else 1, 0)
  {
    if |torn| >= HEADER_SIZE {
      var e: WalEntry :| Fits(c, e) && torn < Frame(c, e);
      var h := NewHeader(c, c.ser(e));
      var rest := torn[HEADER_SIZE..];
      assert torn[..HEADER_SIZE] == Frame(c, e)[..HEADER_SIZE] == EncodeHeader(h);
      assert torn == EncodeHeader(h) + rest;
      ReadFrontShort(c, h, rest);
    }
  }

  lemma ParseTornTail(c: Codec, torn: Bytes)
    requires Lawful(c) && TornTail(c, torn)
    ensures Parse(c, torn) == Parsed([], if torn == [] then 0 else 1, 0)
  {
    ReadFrontOfTorn(c, torn);
  }

  /** A segment cut at byte `cut` is its whole records followed by a torn tail. */
  lemma CutSplits(c: Codec, es: seq<WalEntry>, cut: nat) returns (torn: Bytes)
    requires cut <= |Frames(c, es)| && FitsAll(c, es)
    ensures Frames(c, es)[..cut] == Frames(c, es[..Whole(c, es, cut)]) + torn
    ensures TornTail(c, torn)
  {
    WholeIsMaximal(c, es, cut);
    var n := Whole(c, es, cut);
    assert es == es[..n] + es[n..];
    FramesConcat(c, es[..n], es[n..]);
    torn := Frames(c, es)[|Frames(c, es[..n])|..cut];
    if n < |es| {
      assert es[..n + 1] == es[..n] + [es[n]];
      FramesConcat(c, es[..n], [es[n]]);
      FramesOne(c, es[n]);
      assert es[n..][0] == es[n];
      assert Fits(c, es[n]) && torn < Frame(c, es[n]);
    } else {
      assert es[..n] == es;
    }
  }

  /** Torn-segment parsing: for every record list and every cut, exactly the records wholly
      inside the cut are returned, one partial write is counted iff the cut falls inside a
      record, and no checksum failure is reported. */
  lemma TornParse(c: Codec, es: seq<WalEntry>, cut: nat)
    requires Lawful(c) && FitsAll(c, es) && cut <= |Frames(c, es)|
    ensures var n := Whole(c, es, cut);
            && Parse(c, Frames(c, es)[..cut])
               == Parsed(es[..n], if |Frames(c, es[..n])| == cut then 0 else 1, 0)
            && |Frames(c, es[..n])| <= cut
            && (n < |es| ==> cut < |Frames(c, es[..n + 1])|)
  {
    WholeIsMaximal(c, es, cut);
    var torn := CutSplits(c, es, cut);
    ParseFrames(c, es[..Whole(c, es, cut)], torn);
    ParseTornTail(c, torn);
  }

  /** Why record writes are assumed to succeed: when the data of a record is lost after its
      header was written, every shorter record appended behind it is invisible to recovery. */
  lemma FailedWriteHidesLaterRecords(c: Codec, es: seq<WalEntry>, e: WalEntry, later: seq<WalEntry>)
    requires Lawful(c) && FitsAll(c, es) && Fits(c, e) && |Frames(c, later)| < |c.ser(e)|
    ensures Parse(c, Frames(c, es) + EncodeHeader(NewHeader(c, c.ser(e))) + Frames(c, later))
            == Parsed(es, 1, 0)
  {
    var h := NewHeader(c, c.ser(e));
    var rest := EncodeHeader(h) + Frames(c, later);
    Assoc(Frames(c, es), EncodeHeader(h), Frames(c, later));
    ParseFrames(c, es, rest);
    ReadFrontShort(c, h, Frames(c, later));
  }

  /** What recovery makes of the bytes behind a header: it takes as many of them as the header says
      for the data, and stops unless they have the header's checksum and deserialize. */
  function AfterHeader(c: Codec, h: Header, rest: Bytes): (p: Parsed) {
    if |rest| < h.length then Parsed([], 1, 0)
    else if c.crc(rest[..h.length]) != h.checksum then Parsed([], 0, 1)
    else
      match c.de(rest[..h.length])
      case None => Parsed([], 0, 1)
      case Some(x) => Prepend([x], Parse(c, rest[h.length..]))
  }

  lemma FrontOfHeader(c: Codec, h: Header, rest: Bytes)
    requires HeaderFits(h)
    ensures var b := EncodeHeader(h) + rest;
            && DecodeHeader(b[..HEADER_SIZE]) == h
            && (|rest| >= h.length ==>
              b[HEADER_SIZE..HEADER_SIZE + h.length] == rest[..h.length]
              && b[HEADER_SIZE + h.length..] == rest[h.length..])
  {
    assert (EncodeHeader(h) + rest)[..HEADER_SIZE] == EncodeHeader(h);
    DecodeEncodeHeader(h);
  }

  /** Any bytes at all: fewer than a header, or a header and what is behind it. */
  lemma ParseAnything(c: Codec, b: Bytes)
    ensures |b| < HEADER_SIZE ==> Parse(c, b) == Parsed([], if b == [] then 0 else 1, 0)
    ensures |b| >= HEADER_SIZE ==> Parse(c, b) == AfterHeader(c, DecodeHeader(b[..HEADER_SIZE]), b[HEADER_SIZE..])
  {
    if |b| >= HEADER_SIZE { HeaderReads(c, b); }
  }

  lemma HeaderReads(c: Codec, b: Bytes)
    requires |b| >= HEADER_SIZE
    ensures Parse(c, b) == AfterHeader(c, DecodeHeader(b[..HEADER_SIZE]), b[HEADER_SIZE..])
  {
    var h, rest := DecodeHeader(b[..HEADER_SIZE]), b[HEADER_SIZE..];
    EncodeDecodeHeader(b[..HEADER_SIZE]);
    assert b == EncodeHeader(h) + rest;
    FrontOfHeader(c, h, rest);
  }

  /** The same for the scan of `read_segment_max_tx_id`, which goes past a record that has its
      checksum but does not deserialize. */
  lemma ScanAnything(c: Codec, b: Bytes)
    ensures |b| < HEADER_SIZE ==> ScanMaxId(c, b) == 0
    ensures |b| >= HEADER_SIZE ==>
              var h, rest := DecodeHeader(b[..HEADER_SIZE]), b[HEADER_SIZE..];
              ScanMaxId(c, b)
              == if |rest| < h.length || c.crc(rest[..h.length]) != h.checksum then 0
                 else Max(if c.de(rest[..h.length]).Some? then c.de(rest[..h.length]).value.txId else 0,
                          ScanMaxId(c, rest[h.length..]))
  {
    if |b| >= HEADER_SIZE {
      var h, rest := DecodeHeader(b[..HEADER_SIZE]), b[HEADER_SIZE..];
      EncodeDecodeHeader(b[..HEADER_SIZE]);
      assert b == EncodeHeader(h) + rest;
      FrontOfHeader(c, h, rest);
    }
  }

  /** What recovery makes of the bytes behind the header of entry `e` whose data was not written. */
  function AfterLostData(c: Codec, e: WalEntry, rest: Bytes): (p: Parsed) {
    AfterHeader(c, NewHeader(c, c.ser(e)), rest)
  }

  lemma LostDataReads(c: Codec, e: WalEntry, rest: Bytes)
    requires Lawful(c) && Fits(c, e)
    ensures Parse(c, EncodeHeader(NewHeader(c, c.ser(e))) + rest) == AfterLostData(c, e, rest)
  {
    var h := NewHeader(c, c.ser(e));
    var b := EncodeHeader(h) + rest;
    FrontOfHeader(c, h, rest);
    HeaderReads(c, b);
    assert b[HEADER_SIZE..] == rest;
  }

  /** For everything that later batches append behind the lost data: the records before it are read,
      and anything after it only if the bytes taken for the data happen to have its checksum. */
  lemma FailedWriteReads(c: Codec, es: seq<WalEntry>, e: WalEntry, rest: Bytes)
    requires Lawful(c) && FitsAll(c, es) && Fits(c, e)
    ensures Parse(c, Frames(c, es) + EncodeHeader(NewHeader(c, c.ser(e))) + rest)
      == Prepend(es, AfterLostData(c, e, rest))
    ensures |rest| < |c.ser(e)| || c.crc(rest[..|c.ser(e)|]) != c.crc(c.ser(e)) ==>
              Parse(c, Frames(c, es) + EncodeHeader(NewHeader(c, c.ser(e))) + rest).entries == es
  {
    var h := NewHeader(c, c.ser(e));
    Assoc(Frames(c, es), EncodeHeader(h), rest);
    ParseFrames(c, es, EncodeHeader(h) + rest);
    LostDataReads(c, e, rest);
  }

  /** `read_segment_entries`: the loop over offsets, reading a snapshot of the file. */
  method ReadSegmentEntries(c: Codec, file: Bytes) returns (entries: seq<WalEntry>, partial: nat, bad: nat)
    ensures Parsed(entries, partial, bad) == Parse(c, file)
  {
    entries, partial, bad := [], 0, 0;
    var offset := 0;
    while true
      invariant offset <= |file| && partial == 0 && bad == 0
      invariant Parse(c, file) == Prepend(entries, Parse(c, file[offset..]))
      decreases |file| - offset
    {
      ghost var rest := file[offset..];
      if offset + HEADER_SIZE > |file| {
        if offset < |file| { partial := partial + 1; }
        break;
      }
      assert rest[..HEADER_SIZE] == file[offset..offset + HEADER_SIZE];
      var h := DecodeHeader(file[offset..offset + HEADER_SIZE]);
      offset := offset + HEADER_SIZE;
      if offset + h.length > |file| {
        partial := partial + 1;
        break;
      }
      var data := file[offset..offset + h.length];
      assert rest[HEADER_SIZE..HEADER_SIZE + h.length] == data;
      offset := offset + h.length;
      if !Validates(c, h, data) {
        bad := bad + 1;
        break;
      }
      match c.de(data) {
        case Some(e) =>
          assert rest[HEADER_SIZE + |data|..] == file[offset..];
          PrependConcat(entries, [e], Parse(c, file[offset..]));
          entries := entries + [e];
        case None =>
          bad := bad + 1;
          break;
      }
    }
  }

  function Max(a: nat, b: nat): nat { if a < b then b else a }

  /** The largest transaction id among the entries, 0 if there is none. */
  function MaxId(log: seq<WalEntry>): (m: nat)
    ensures forall e :: e in log ==> e.txId <= m
    ensures m > 0 ==> exists e :: e in log && e.txId == m
  {
    if log == [] then 0 else Max(log[0].txId, MaxId(log[1..]))
  }

  /** Ids that `read_segment_max_tx_id` looks at: unlike recovery it goes past a record that
      passes its checksum but does not deserialize. */
  function ScanMaxId(c: Codec, b: Bytes): (m: nat)
    ensures forall e :: e in Parse(c, b).entries ==> e.txId <= m
    decreases |b|
  {
    match ReadFront(c, b)
    case Stop(_, _) => 0
    case Data(data) =>
      var rest := ScanMaxId(c, b[HEADER_SIZE + |data|..]);
      match c.de(data)
      case None => rest
      case Some(e) => Max(e.txId, rest)
  }

  /** On a segment of written records with a torn tail the scan finds exactly the maximum. */
  lemma {:induction false} ScanMaxIdOfFrames(c: Codec, es: seq<WalEntry>, torn: Bytes)
    requires Lawful(c) && FitsAll(c, es) && TornTail(c, torn)
    ensures ScanMaxId(c, Frames(c, es) + torn) == MaxId(es)
  {
    var b := Frames(c, es) + torn;
    if es == [] {
      assert b == torn;
      ReadFrontOfTorn(c, torn);
    } else {
      var tail := Frames(c, es[1..]) + torn;
      Assoc(Frame(c, es[0]), Frames(c, es[1..]), torn);
      ReadFrontOfFrame(c, es[0], tail);
      assert b[|Frame(c, es[0])|..] == tail;
      ScanMaxIdOfFrames(c, es[1..], torn);
    }
  }

  /** `read_segment_max_tx_id`. */
  method ReadSegmentMaxTxId(c: Codec, file: Bytes) returns (maxTxId: nat)
    ensures maxTxId == ScanMaxId(c, file)
    ensures forall e :: e in Parse(c, file).entries ==> e.txId <= maxTxId
  {
    maxTxId := 0;
    var offset := 0;
    while true
      invariant offset <= |file|
      invariant ScanMaxId(c, file) == Max(maxTxId, ScanMaxId(c, file[offset..]))
      decreases |file| - offset
    {
      ghost var rest := file[offset..];
      if offset + HEADER_SIZE > |file| { break; }
      assert rest[..HEADER_SIZE] == file[offset..offset + HEADER_SIZE];
      var h := DecodeHeader(file[offset..offset + HEADER_SIZE]);
      offset := offset + HEADER_SIZE;
      if offset + h.length > |file| { break; }
      var data := file[offset..offset + h.length];
      assert rest[HEADER_SIZE..HEADER_SIZE + h.length] == data;
      offset := offset + h.length;
      if !Validates(c, h, data) { break; }
      assert rest[HEADER_SIZE + |data|..] == file[offset..];
      match c.de(data) {
        case Some(e) => if e.txId > maxTxId { maxTxId := e.txId; }
        case None =>
      }
    }
  }
}
