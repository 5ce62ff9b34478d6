/** The hypotheses of the log's theorems can be met: a lawful codec exists for any keys and values
    that have injective encodings, and with it a run that acknowledges a commit. */
module Witness {
  import opened LittleEndian
  import opened Entry
  import opened Parser
  import opened Disk
  import opened Log
  import opened WalRun
  import opened WalInvariant
  import opened WalTheorems

  // ----- A lawful codec -----

  function Unary(n: nat): (b: Bytes)
    ensures |b| == n + 1
  {
    if n == 0 then [0] else [1] + Unary(n - 1)
  }

  lemma {:induction false} UnaryReads(m: nat, n: nat, r: Bytes, s: Bytes)
    requires Unary(m) + r == Unary(n) + s
    ensures m == n && r == s
  {
    assert (Unary(m) + r)[0] == (Unary(n) + s)[0];
    if m == 0 || n == 0 {
      assert m == n;
      assert r == (Unary(m) + r)[1..] == (Unary(n) + s)[1..] == s;
    } else {
      assert Unary(m - 1) + r == (Unary(m) + r)[1..];
      assert Unary(n - 1) + s == (Unary(n) + s)[1..];
      UnaryReads(m - 1, n - 1, r, s);
    }
  }

  /** Byte strings one after the other, each with its length in front. */
  function Blobs(fields: seq<Bytes>): (b: Bytes) {
    if fields == [] then [] else Unary(|fields[0]|) + (fields[0] + Blobs(fields[1..]))
  }

  lemma {:induction false} BlobsRead(x: seq<Bytes>, y: seq<Bytes>)
    requires |x| == |y| && Blobs(x) == Blobs(y)
    ensures x == y
  {
    if x != [] {
      var r, s := x[0] + Blobs(x[1..]), y[0] + Blobs(y[1..]);
      UnaryReads(|x[0]|, |y[0]|, r, s);
      assert x[0] == r[..|x[0]|] == s[..|y[0]|] == y[0];
      assert Blobs(x[1..]) == r[|x[0]|..] == s[|y[0]|..] == Blobs(y[1..]);
      BlobsRead(x[1..], y[1..]);
      assert x == [x[0]] + x[1..] && y == [y[0]] + y[1..];
    }
  }

  function TagOf(e: WalEntry): (t: Byte) {
    match e
    case Insert(_, _, _, _) => 0
    case Update(_, _, _, _, _) => 1
    case Delete(_, _, _, _) => 2
    case Commit(_, _) => 3
    case Abort(_, _) => 4
  }

  function Fields(k: Key -> Bytes, v: Value -> Bytes, e: WalEntry): (fields: seq<Bytes>) {
    match e
    case Insert(_, _, key, value) => [k(key), v(value)]
    case Update(_, _, key, oldValue, newValue) => [k(key), v(oldValue), v(newValue)]
    case Delete(_, _, key, oldValue) => [k(key), v(oldValue)]
    case Commit(_, _) => []
    case Abort(_, _) => []
  }

  function Encode(k: Key -> Bytes, v: Value -> Bytes, e: WalEntry): (b: Bytes) {
    [TagOf(e)] + (Unary(e.txId) + (Unary(e.timestamp) + Blobs(Fields(k, v, e))))
  }

  ghost predicate Injective(k: Key -> Bytes, v: Value -> Bytes) {
    && (forall a: Key, b: Key :: k(a) == k(b) ==> a == b)
    && (forall a: Value, b: Value :: v(a) == v(b) ==> a == b)
  }

  lemma EncodeIsInjective(k: Key -> Bytes, v: Value -> Bytes, e: WalEntry, f: WalEntry)
    requires Injective(k, v) && Encode(k, v, e) == Encode(k, v, f)
    ensures e == f
  {
    var a, b := Encode(k, v, e), Encode(k, v, f);
    assert a[0] == TagOf(e) && b[0] == TagOf(f);
    assert a[1..] == b[1..];
    UnaryReads(e.txId, f.txId, Unary(e.timestamp) + Blobs(Fields(k, v, e)),
      Unary(f.timestamp) + Blobs(Fields(k, v, f)));
    UnaryReads(e.timestamp, f.timestamp, Blobs(Fields(k, v, e)), Blobs(Fields(k, v, f)));
    BlobsRead(Fields(k, v, e), Fields(k, v, f));
    FieldsAreInjective(k, v, e, f);
  }

  lemma FieldsAreInjective(k: Key -> Bytes, v: Value -> Bytes, e: WalEntry, f: WalEntry)
    requires Injective(k, v) && TagOf(e) == TagOf(f) && e.txId == f.txId && e.timestamp == f.timestamp
    requires Fields(k, v, e) == Fields(k, v, f)
    ensures e == f
  {
    var x, y := Fields(k, v, e), Fields(k, v, f);
    if !e.IsMarker() {
      assert x[0] == y[0] && x[1] == y[1];
      if e.Update? { assert x[2] == y[2]; }
    }
  }

  ghost function Decode(k: Key -> Bytes, v: Value -> Bytes, b: Bytes): (r: Option<WalEntry>)
    ensures r.Some? ==> Encode(k, v, r.value) == b
    ensures r.None? ==> forall e: WalEntry :: Encode(k, v, e) != b
  {
    if exists e: WalEntry :: Encode(k, v, e) == b then
      var e: WalEntry :| Encode(k, v, e) == b;
      Some(e)
    else None
  }

  ghost function CodecOf(k: Key -> Bytes, v: Value -> Bytes): (c: Codec) {
    Codec(e => Encode(k, v, e), b => Decode(k, v, b), _ => 0)
  }

  /** Injective encodings of keys and values give a lawful codec. */
  lemma LawfulCodec(k: Key -> Bytes, v: Value -> Bytes)
    requires Injective(k, v)
    ensures Lawful(CodecOf(k, v))
  {
    var c := CodecOf(k, v);
    forall e: WalEntry ensures c.de(c.ser(e)) == Some(e) {
      var f := Decode(k, v, Encode(k, v, e)).value;
      EncodeIsInjective(k, v, e, f);
    }
  }

  // ----- A run that acknowledges a commit -----

  const COMMIT := WalEntry.Commit(1, 0)

  /** The only transaction: one operation, then its commit. */
  function OnlyTx(op: WalEntry, sent: nat): (t: Tx) { Tx(0, [op], COMMIT, sent, true, false, false) }

  function OneFile(tiers: Tiers, log: seq<WalEntry>): (fs: seq<File>) { [File(1, tiers, log, [])] }

  /** The process after its restart, with one ring. */
  function OneWriter(queue: seq<WalEntry>, batch: seq<WalEntry>, waiters: seq<TxId>, phase: Phase,
      jobs: seq<Job>): (p: Proc) {
    Proc([queue], batch, waiters, phase, jobs, jobs, 2)
  }

  ghost predicate Leads(c: Codec, cfg: Config, states: seq<State>, steps: seq<Step>, to: State) {
    && |states| == |steps| + 1 && states[|steps|] == to
    && forall i :: 0 <= i < |steps| ==> Next(c, cfg, states[i], states[i + 1], steps[i])
  }

  const NOTHING := Tiers([], [], [])

  lemma Started(c: Codec, cfg: Config) returns (s: State)
    ensures s == State(OneFile(NOTHING, []), Some(Proc([[]], [], [], Collect, [], [], 1)), map[], {})
    ensures Next(c, cfg, INIT, s, Restart(1, 1))
  {
    var none: seq<WalEntry> := [];
    assert seq(1, _ => none) == [none];
    s := State(OneFile(NOTHING, []), Some(Proc([none], [], [], Collect, [], [], 1)), map[], {});
    assert INIT.files + s.files == s.files;
  }

  lemma Begun(c: Codec, cfg: Config, s: State, op: WalEntry) returns (s': State)
    requires !op.IsMarker() && op.txId == 1 && Fits(c, op) && Fits(c, COMMIT)
    requires s == State(OneFile(NOTHING, []), Some(Proc([[]], [], [], Collect, [], [], 1)), map[], {})
    ensures s' == State(OneFile(NOTHING, []), Some(OneWriter([], [], [], Collect, [])), map[1 := OnlyTx(op, 0)], {})
    ensures Next(c, cfg, s, s', Begin(0, [op], COMMIT))
  {
    s' := State(OneFile(NOTHING, []), Some(OneWriter([], [], [], Collect, [])), map[1 := OnlyTx(op, 0)], {});
    assert s.txs[1 := OnlyTx(op, 0)] == s'.txs && s.truncated - {1} == {};
  }

  lemma Sent(c: Codec, cfg: Config, s: State, op: WalEntry, sent: nat, queue: seq<WalEntry>) returns (s': State)
    requires sent < 2 && s == State(OneFile(NOTHING, []), Some(OneWriter(queue, [], [], Collect, [])),
      map[1 := OnlyTx(op, sent)], {})
    ensures s' == State(OneFile(NOTHING, []), Some(OneWriter(queue + [[op, COMMIT][sent]], [], [], Collect, [])),
      map[1 := OnlyTx(op, sent + 1)], {})
    ensures Next(c, cfg, s, s', Send(1))
  {
    assert OnlyTx(op, sent).Script() == [op, COMMIT];
    var queue' := queue + [[op, COMMIT][sent]];
    assert [queue][0 := queue'] == [queue'];
    s' := State(OneFile(NOTHING, []), Some(OneWriter(queue', [], [], Collect, [])), map[1 := OnlyTx(op, sent + 1)], {});
    assert s.txs[1 := OnlyTx(op, sent + 1)] == s'.txs;
  }

  lemma FirstSteps(c: Codec, cfg: Config, op: WalEntry) returns (states: seq<State>, steps: seq<Step>)
    requires !op.IsMarker() && op.txId == 1 && Fits(c, op) && Fits(c, COMMIT)
    ensures |steps| == 4 && Leads(c, cfg, states, steps,
      State(OneFile(NOTHING, []), Some(OneWriter([op, COMMIT], [], [], Collect, [])), map[1 := OnlyTx(op, 2)], {}))
    ensures states[0] == INIT && forall i :: 0 <= i < 4 ==> Benign(cfg, steps[i])
  {
    var s1 := Started(c, cfg);
    var s2 := Begun(c, cfg, s1, op);
    var s3 := Sent(c, cfg, s2, op, 0, []);
    assert [] + [op] == [op];
    var s4 := Sent(c, cfg, s3, op, 1, [op]);
    assert [op] + [COMMIT] == [op, COMMIT];
    states, steps := [INIT, s1, s2, s3, s4], [Restart(1, 1), Begin(0, [op], COMMIT), Send(1), Send(1)];
  }

  lemma Drained(c: Codec, cfg: Config, txs: map<TxId, Tx>, queue: seq<WalEntry>, batch: seq<WalEntry>)
      returns (s: State, s': State)
    requires queue != []
    ensures s == State(OneFile(NOTHING, []), Some(OneWriter(queue, batch, [], Collect, [])), txs, {})
    ensures s' == State(OneFile(NOTHING, []),
      Some(OneWriter(queue[1..], batch + [queue[0]], if queue[0].Commit? then [queue[0].txId] else [], Collect, [])),
      txs, {})
    ensures Next(c, cfg, s, s', Drain(0))
  {
    s := State(OneFile(NOTHING, []), Some(OneWriter(queue, batch, [], Collect, [])), txs, {});
    assert [queue][0 := queue[1..]] == [queue[1..]];
    assert [] + [queue[0].txId] == [queue[0].txId];
    s' := State(OneFile(NOTHING, []),
      Some(OneWriter(queue[1..], batch + [queue[0]], if queue[0].Commit? then [queue[0].txId] else [], Collect, [])),
      txs, {});
  }

  lemma DrainBoth(c: Codec, cfg: Config, op: WalEntry, txs: map<TxId, Tx>)
      returns (states: seq<State>, steps: seq<Step>)
    requires !op.IsMarker()
    ensures |steps| == 3 && Leads(c, cfg, states, steps,
      State(OneFile(NOTHING, []), Some(OneWriter([], [op, COMMIT], [1], Write(0), [])), txs, {}))
    ensures states[0] == State(OneFile(NOTHING, []), Some(OneWriter([op, COMMIT], [], [], Collect, [])), txs, {})
    ensures forall i :: 0 <= i < 3 ==> Benign(cfg, steps[i])
  {
    var s0, s1 := Drained(c, cfg, txs, [op, COMMIT], []);
    assert [op, COMMIT][1..] == [COMMIT] && [] + [op] == [op];
    var s1', s2 := Drained(c, cfg, txs, [COMMIT], [op]);
    assert [COMMIT][1..] == [] && [op] + [COMMIT] == [op, COMMIT];
    var s3 := s2.(proc := Some(OneWriter([], [op, COMMIT], [1], Write(0), [])));
    states, steps := [s0, s1, s2, s3], [Drain(0), Drain(0), StartWrite];
  }

  lemma WriteBoth(c: Codec, cfg: Config, op: WalEntry, txs: map<TxId, Tx>)
      returns (states: seq<State>, steps: seq<Step>)
    requires cfg.maxSegmentSize > |Frame(c, op)|
    ensures |steps| == 3 && Leads(c, cfg, states, steps,
              State(OneFile(Tiers([], Frame(c, op) + Frame(c, COMMIT), []), [op, COMMIT]),
                Some(OneWriter([], [], [], Collect, [Job(1, 2, [1])])), txs, {}))
    ensures states[0] == State(OneFile(NOTHING, []), Some(OneWriter([], [op, COMMIT], [1], Write(0), [])), txs, {})
    ensures forall i :: 0 <= i < 3 ==> Benign(cfg, steps[i])
  {
    var a, b := Frame(c, op), Frame(c, COMMIT);
    var s0 := State(OneFile(NOTHING, []), Some(OneWriter([], [op, COMMIT], [1], Write(0), [])), txs, {});
    var s1 := State(OneFile(Tiers([], [], a), [op]), Some(OneWriter([], [op, COMMIT], [1], Write(1), [])), txs, {});
    assert [] + a == a && [] + [op] == [op];
    var s2 := State(OneFile(Tiers([], [], a + b), [op, COMMIT]), Some(OneWriter([], [op, COMMIT], [1], Write(2), [])),
      txs, {});
    assert Tiers([], [], a).All() == a && [op] + [COMMIT] == [op, COMMIT];
    var s3 := State(OneFile(Tiers([], a + b, []), [op, COMMIT]), Some(OneWriter([], [], [], Collect, [Job(1, 2, [1])])),
      txs, {});
    assert [] + (a + b) == a + b && [] + [Job(1, 2, [1])] == [Job(1, 2, [1])];
    states, steps := [s0, s1, s2, s3], [Append, Append, EndBatch];
  }

  lemma SyncBoth(c: Codec, cfg: Config, op: WalEntry) returns (s: State, s': State, reached: nat)
    ensures s == State(OneFile(Tiers([], Frame(c, op) + Frame(c, COMMIT), []), [op, COMMIT]),
      Some(OneWriter([], [], [], Collect, [Job(1, 2, [1])])), map[1 := OnlyTx(op, 2)], {})
    ensures Next(c, cfg, s, s', SyncOk(0, reached)) && Acked(s', 1, [op])
  {
    var log := [op, COMMIT];
    var job := Job(1, 2, [1]);
    reached := |Frame(c, op) + Frame(c, COMMIT)|;
    s := State(OneFile(Tiers([], Frame(c, op) + Frame(c, COMMIT), []), log),
      Some(OneWriter([], [], [], Collect, [job])), map[1 := OnlyTx(op, 2)], {});
    assert log[..2] == log && log[1..] == [COMMIT];
    FramesOne(c, COMMIT);
    s' := s.(files := SyncFile(s.files, 1, reached), proc := Some(s.proc.value.(jobs := Without([job], 0))),
             txs := AckAll(SecureAll(s.txs, [job], job), [1]));
  }

  lemma Follow(c: Codec, cfg: Config, a: seq<State>, x: seq<Step>, b: seq<State>, y: seq<Step>, to: State)
    requires b != [] && Leads(c, cfg, a, x, b[0]) && Leads(c, cfg, b, y, to)
    requires forall i :: 0 <= i < |x| ==> Benign(cfg, x[i])
    requires forall i :: 0 <= i < |y| ==> Benign(cfg, y[i])
    ensures Leads(c, cfg, a + b[1..], x + y, to) && (a + b[1..])[0] == a[0]
    ensures forall i :: 0 <= i < |x + y| ==> Benign(cfg, (x + y)[i])
  {
    var states, steps := a + b[1..], x + y;
    forall i | 0 <= i < |steps| ensures Next(c, cfg, states[i], states[i + 1], steps[i]) {
      if i < |x| {
        assert Next(c, cfg, a[i], a[i + 1], x[i]);
      } else {
        assert Next(c, cfg, b[i - |x|], b[i - |x| + 1], y[i - |x|]);
      }
    }
  }

  /** The hypotheses of Durability are met: a run without failures that acknowledges a transaction
      with one operation, in any mode, for any codec in which its two records fit. */
  lemma AcknowledgingRun(c: Codec, mode: SyncMode, op: WalEntry)
      returns (cfg: Config, states: seq<State>, steps: seq<Step>)
    requires !op.IsMarker() && op.txId == 1 && Fits(c, op) && Fits(c, COMMIT)
    ensures cfg.mode == mode && Run(c, cfg, states, steps) && Faultless(cfg, steps)
    ensures |states| == 12 && Acked(states[11], 1, [op])
  {
    cfg := Config(mode, |Frame(c, op)| + 1);
    var a, x := FirstSteps(c, cfg, op);
    var txs := map[1 := OnlyTx(op, 2)];
    var b, y := DrainBoth(c, cfg, op, txs);
    Follow(c, cfg, a, x, b, y, b[3]);
    var d, z := WriteBoth(c, cfg, op, txs);
    Follow(c, cfg, a + b[1..], x + y, d, z, d[3]);
    var s, s', reached := SyncBoth(c, cfg, op);
    var last, sync := [s, s'], [SyncOk(0, reached)];
    Follow(c, cfg, a + b[1..] + d[1..], x + y + z, last, sync, s');
    states, steps := a + b[1..] + d[1..] + last[1..], x + y + z + sync;
  }

  /** A lawful codec in which a small operation and a commit fit. */
  lemma SmallRecordsFit(k: Key -> Bytes, v: Value -> Bytes, key: Key, value: Value)
    requires |k(key)| < 1000 && |v(value)| < 1000
    ensures Fits(CodecOf(k, v), Insert(1, 0, key, value)) && Fits(CodecOf(k, v), COMMIT)
  {
    var x: Bytes, y: Bytes := k(key), v(value);
    var one: seq<Bytes>, two: seq<Bytes>, none: seq<Bytes> := [y], [x, y], [];
    assert two[1..] == one && one[1..] == none && Blobs(none) == [];
    assert |Blobs(one)| == 2 * |y| + 1;
    assert |Blobs(two)| == 2 * |x| + 1 + |Blobs(one)|;
    Large(8);
  }

  lemma Large(n: nat)
    requires n == 8
    ensures Pow256(n) > 10000
  {
    assert Pow256(n) == 256 * (256 * Pow256(n - 2));
  }

  /** Together: for keys and values with injective encodings there are a lawful codec and a run of it,
      in any mode, that meet the hypotheses of Durability. */
  lemma DurabilityApplies(k: Key -> Bytes, v: Value -> Bytes, key: Key, value: Value, mode: SyncMode)
    returns (c: Codec, cfg: Config, states: seq<State>, steps: seq<Step>)
    requires Injective(k, v) && |k(key)| < 1000 && |v(value)| < 1000
    ensures Lawful(c) && cfg.mode == mode && Run(c, cfg, states, steps) && Faultless(cfg, steps)
    ensures |states| == 12 && Acked(states[11], 1, [Insert(1, 0, key, value)])
  {
    c := CodecOf(k, v);
    LawfulCodec(k, v);
    SmallRecordsFit(k, v, key, value);
    cfg, states, steps := AcknowledgingRun(c, mode, Insert(1, 0, key, value));
  }
}
