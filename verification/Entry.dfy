/** Little-endian integers on a byte string, as `to_le_bytes` and `from_le_bytes` use them. */
module LittleEndian {
  type Byte = x: int | 0 <= x < 256 witness 0
  type Bytes = seq<Byte>

  function Pow256(k: nat): (p: nat)
    ensures p > 0
  {
    if k == 0 then 1 else 256 * Pow256(k - 1)
  }

  function ToLe(n: nat, k: nat): (b: Bytes)
    ensures |b| == k
  {
    if k == 0 then [] else [n % 256] + ToLe(n / 256, k - 1)
  }

  function FromLe(b: Bytes): (n: nat)
    ensures n < Pow256(|b|)
  {
    if b == [] then 0 else b[0] + 256 * FromLe(b[1..])
  }

  /** Writing a number that fits in k bytes and reading it back gives the number. */
  lemma {:induction false} FromToLe(n: nat, k: nat)
    requires n < Pow256(k)
    ensures FromLe(ToLe(n, k)) == n
  {
    if k > 0 {
      FromToLe(n / 256, k - 1);
      assert ToLe(n, k)[1..] == ToLe(n / 256, k - 1);
    }
  }

  /** Reading any bytes as a number and writing it back gives the bytes. */
  lemma {:induction false} ToFromLe(b: Bytes)
    ensures ToLe(FromLe(b), |b|) == b
  {
    if b != [] {
      ToFromLe(b[1..]);
      assert FromLe(b) % 256 == b[0] && FromLe(b) / 256 == FromLe(b[1..]);
    }
  }
}

/** WAL entries, their on-disk header and the framing of one record. */
module Entry {
  import opened LittleEndian

  type Key(==, !new)
  type Value(==, !new)
  type TxId = nat

  datatype Option<+T> = None | Some(value: T)

  datatype WalEntry =
    | Insert(txId: TxId, timestamp: nat, key: Key, value: Value)
    | Update(txId: TxId, timestamp: nat, key: Key, oldValue: Value, newValue: Value)
    | Delete(txId: TxId, timestamp: nat, key: Key, oldValue: Value)
    | Commit(txId: TxId, timestamp: nat)
    | Abort(txId: TxId, timestamp: nat)
  {
    predicate IsMarker() {
      Commit? || Abort?
    }
  }

  /** The foreign pieces of the format: bincode and CRC32 are only known by the laws below. */
  datatype Codec = Codec(ser: WalEntry -> Bytes, de: Bytes -> Option<WalEntry>, crc: Bytes -> nat)

  const HEADER_SIZE: nat := 13
  const VERSION: Byte := 1

  /** bincode reads back what it wrote, and a CRC fits in a u32. */
  ghost predicate Lawful(c: Codec) {
    && (forall e: WalEntry :: c.de(c.ser(e)) == Some(e))
    && (forall b: Bytes :: c.crc(b) < Pow256(4))
  }

  /** The serialized entry's length fits in the u64 of its header. */
  predicate Fits(c: Codec, e: WalEntry) { |c.ser(e)| < Pow256(8) }

  ghost predicate FitsAll(c: Codec, es: seq<WalEntry>) { forall e :: e in es ==> Fits(c, e) }

  datatype Header = Header(length: nat, checksum: nat, version: Byte)

  predicate HeaderFits(h: Header) {
    h.length < Pow256(8) && h.checksum < Pow256(4)
  }

  function NewHeader(c: Codec, data: Bytes): (h: Header) {
    Header(|data|, c.crc(data), VERSION)
  }

  function EncodeHeader(h: Header): (b: Bytes)
    ensures |b| == HEADER_SIZE
  {
    ToLe(h.length, 8) + ToLe(h.checksum, 4) + [h.version]
  }

  function DecodeHeader(b: Bytes): (h: Header)
    requires |b| == HEADER_SIZE
    ensures HeaderFits(h)
  {
    Header(FromLe(b[0..8]), FromLe(b[8..12]), b[12])
  }

  predicate Validates(c: Codec, h: Header, data: Bytes) {
    c.crc(data) == h.checksum
  }

  lemma DecodeEncodeHeader(h: Header)
    requires HeaderFits(h)
    ensures DecodeHeader(EncodeHeader(h)) == h
  {
    var b := EncodeHeader(h);
    assert b[0..8] == ToLe(h.length, 8);
    assert b[8..12] == ToLe(h.checksum, 4);
    FromToLe(h.length, 8);
    FromToLe(h.checksum, 4);
  }

  lemma EncodeDecodeHeader(b: Bytes)
    requires |b| == HEADER_SIZE
    ensures EncodeHeader(DecodeHeader(b)) == b
  {
    ToFromLe(b[0..8]);
    ToFromLe(b[8..12]);
    assert b == b[0..8] + b[8..12] + [b[12]];
  }

  /** `to_bytes`: fills a 13-byte array field by field. */
  method HeaderToBytes(h: Header) returns (bytes: array<Byte>)
    requires HeaderFits(h)
    ensures fresh(bytes) && bytes.Length == HEADER_SIZE
    ensures bytes[..] == EncodeHeader(h)
    ensures DecodeHeader(bytes[..]) == h
  {
    bytes := new Byte[HEADER_SIZE](_ => 0);
    var length, checksum := ToLe(h.length, 8), ToLe(h.checksum, 4);
    forall i | 0 <= i < 8 { bytes[i] := length[i]; }
    forall i | 8 <= i < 12 { bytes[i] := checksum[i - 8]; }
    bytes[12] := h.version;
    DecodeEncodeHeader(h);
  }

  /** What `append_entry` writes for one serialized entry. */
  function FrameData(c: Codec, data: Bytes): (b: Bytes)
    ensures |b| == HEADER_SIZE + |data|
  {
    EncodeHeader(NewHeader(c, data)) + data
  }

  function Frame(c: Codec, e: WalEntry): (b: Bytes)
    ensures |b| == HEADER_SIZE + |c.ser(e)|
  {
    FrameData(c, c.ser(e))
  }

  function Frames(c: Codec, es: seq<WalEntry>): (b: Bytes)
  {
    if es == [] then [] else Frame(c, es[0]) + Frames(c, es[1..])
  }

  /** The record on disk: the length in 8 bytes and the checksum in 4, lowest first, format version 1,
      and the data. */
  lemma FrameLayout(c: Codec, data: Bytes)
    requires HeaderFits(NewHeader(c, data))
    ensures var b := FrameData(c, data);
            && FromLe(b[0..8]) == |data| && FromLe(b[8..12]) == c.crc(data) && b[12] == 1 && b[13..] == data
            && b[0] == |data| % 256 && b[8] == c.crc(data) % 256
  {
    var h := NewHeader(c, data);
    DecodeEncodeHeader(h);
    assert FrameData(c, data)[..HEADER_SIZE] == EncodeHeader(h);
    assert FrameData(c, data)[0..8] == EncodeHeader(h)[0..8] && FrameData(c, data)[8..12] == EncodeHeader(h)[8..12];
  }

  lemma Assoc(a: Bytes, b: Bytes, d: Bytes)
    ensures a + (b + d) == (a + b) + d
  {}

  lemma {:induction false} FramesConcat(c: Codec, a: seq<WalEntry>, b: seq<WalEntry>)
    ensures Frames(c, a + b) == Frames(c, a) + Frames(c, b)
  {
    if a == [] {
      assert a + b == b;
    } else {
      FramesConcat(c, a[1..], b);
      assert (a + b)[1..] == a[1..] + b;
      Assoc(Frame(c, a[0]), Frames(c, a[1..]), Frames(c, b));
    }
  }

  lemma FramesOne(c: Codec, e: WalEntry)
    ensures Frames(c, [e]) == Frame(c, e)
  {
    assert Frames(c, [e][1..]) == [];
  }
}
