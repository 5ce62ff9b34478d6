/** Replaying recovered transactions into the in-memory store. */
module Store {
  import opened Entry
  import opened Log
  import opened Recovery

  type Table = map<Key, Value>

  /** What `apply` does to the map. */
  function Apply(m: Table, e: WalEntry): (m': Table) {
    match e
    case Insert(_, _, key, value) => m[key := value]
    case Update(_, _, key, _, newValue) => m[key := newValue]
    case Delete(_, _, key, _) => m - {key}
    case Commit(_, _) => m
    case Abort(_, _) => m
  }

  function ApplyAll(m: Table, es: seq<WalEntry>): (m': Table) {
    if es == [] then m else Apply(ApplyAll(m, es[..|es| - 1]), es[|es| - 1])
  }

  function ReplayTx(tx: RecoveredTransaction): (es: seq<WalEntry>) {
    if tx.action == CommitAction then tx.entries else []
  }

  /** The entries that `apply_transactions` applies, in its order. */
  function Replayed(txs: seq<RecoveredTransaction>): (es: seq<WalEntry>) {
    if txs == [] then [] else Replayed(txs[..|txs| - 1]) + ReplayTx(txs[|txs| - 1])
  }

  class InMemoryStore {
    var inner: Table

    constructor ()
      ensures inner == map[]
    {
      inner := map[];
    }

    method ApplyEntry(e: WalEntry)
      modifies this
      ensures inner == Apply(old(inner), e)
    {
      match e {
        case Insert(_, _, key, value) => inner := inner[key := value];
        case Update(_, _, key, _, newValue) => inner := inner[key := newValue];
        case Delete(_, _, key, _) => inner := inner - {key};
        case Commit(_, _) =>
        case Abort(_, _) =>
      }
    }

    method ApplyEntries(es: seq<WalEntry>)
      modifies this
      ensures inner == ApplyAll(old(inner), es)
    {
      ghost var start := inner;
      var j := 0;
      while j < |es|
        invariant j <= |es| && inner == ApplyAll(start, es[..j])
      {
        assert es[..j + 1][..j] == es[..j];
        ApplyEntry(es[j]);
        j := j + 1;
      }
      assert es[..j] == es;
    }

    /** `apply_transactions`: only committed transactions are applied. */
    method ApplyTransactions(txs: seq<RecoveredTransaction>)
      modifies this
      ensures inner == ApplyAll(old(inner), Replayed(txs))
    {
      ghost var start := inner;
      var i := 0;
      while i < |txs|
        invariant i <= |txs| && inner == ApplyAll(start, Replayed(txs[..i]))
      {
        assert txs[..i + 1][..i] == txs[..i];
        ApplyAllConcat(start, Replayed(txs[..i]), ReplayTx(txs[i]));
        if txs[i].action == CommitAction {
          ApplyEntries(txs[i].entries);
        }
        i := i + 1;
      }
      assert txs[..i] == txs;
    }
  }

  lemma {:induction false} ApplyAllConcat(m: Table, a: seq<WalEntry>, b: seq<WalEntry>)
    ensures ApplyAll(m, a + b) == ApplyAll(ApplyAll(m, a), b)
  {
    if b == [] {
      assert a + b == a;
    } else {
      ApplyAllConcat(m, a, b[..|b| - 1]);
      assert (a + b)[..|a + b| - 1] == a + b[..|b| - 1];
    }
  }

  // ----- The store is decided key by key -----

  predicate Writes(e: WalEntry, k: Key) { !e.IsMarker() && e.key == k }

  /** The operations on one key, in order. */
  function OnKey(es: seq<WalEntry>, k: Key): (r: seq<WalEntry>) {
    if es == [] then []
    else
      var n := |es| - 1;
      OnKey(es[..n], k) + (if Writes(es[n], k) then [es[n]] else [])
  }

  function Slot(m: Table, k: Key): (v: Option<Value>) { if k in m then Some(m[k]) else None }

  /** What an operation leaves in its key; markers have no key and do not matter here. */
  function Effect(e: WalEntry): (v: Option<Value>) {
    match e
    case Insert(_, _, _, value) => Some(value)
    case Update(_, _, _, _, newValue) => Some(newValue)
    case _ => None
  }

  /** What a key holds after the operations `es`, all on that key: the last one decides. */
  function After(v: Option<Value>, es: seq<WalEntry>): (r: Option<Value>) {
    if es == [] then v else Effect(es[|es| - 1])
  }

  lemma {:induction false} SlotOfApplyAll(m: Table, es: seq<WalEntry>, k: Key)
    ensures Slot(ApplyAll(m, es), k) == After(Slot(m, k), OnKey(es, k))
  {
    if es != [] {
      var n := |es| - 1;
      SlotOfApplyAll(m, es[..n], k);
      if !Writes(es[n], k) { assert OnKey(es, k) == OnKey(es[..n], k); }
    }
  }

  /** Stores that agree on every key are equal. */
  lemma SameSlots(x: Table, y: Table)
    requires forall k: Key :: Slot(x, k) == Slot(y, k)
    ensures x == y
  {
    forall k ensures k in x <==> k in y { assert Slot(x, k) == Slot(y, k); }
    forall k | k in x ensures x[k] == y[k] { assert Slot(x, k) == Slot(y, k); }
  }

  lemma {:induction false} OnKeyConcat(a: seq<WalEntry>, b: seq<WalEntry>, k: Key)
    ensures OnKey(a + b, k) == OnKey(a, k) + OnKey(b, k)
  {
    if b == [] {
      assert a + b == a;
    } else {
      var n := |b| - 1;
      OnKeyConcat(a, b[..n], k);
      assert (a + b)[..|a + b| - 1] == a + b[..n];
    }
  }

  // ----- Replay order -----

  /** The committed operations in the order of the log. */
  function CommittedOf(part: seq<WalEntry>, log: seq<WalEntry>): (r: seq<WalEntry>) {
    if part == [] then []
    else
      var e := part[|part| - 1];
      CommittedOf(part[..|part| - 1], log)
        + (if !e.IsMarker() && ActionOf(e.txId, log) == CommitAction then [e] else [])
  }

  function CommittedInOrder(log: seq<WalEntry>): (r: seq<WalEntry>) { CommittedOf(log, log) }

  /** The operations of `id` on `k`. */
  function TxOnKey(id: TxId, log: seq<WalEntry>, k: Key): (r: seq<WalEntry>) { OnKey(DataOf(id, log), k) }

  predicate Touches(id: TxId, log: seq<WalEntry>, k: Key) {
    ActionOf(id, log) == CommitAction && TxOnKey(id, log, k) != []
  }

  /** What transaction `id` leaves in `k`. */
  function Final(id: TxId, log: seq<WalEntry>, k: Key): (v: Option<Value>)
    requires Touches(id, log, k)
  {
    After(None, TxOnKey(id, log, k))
  }

  /** Committed transactions that touch the same key leave the same value in it; in particular
      when no two of them share a key. */
  ghost predicate SameFinals(log: seq<WalEntry>) {
    forall a: TxId, b: TxId, k: Key :: Touches(a, log, k) && Touches(b, log, k) ==> Final(a, log, k) == Final(b, log, k)
  }

  lemma OnKeySnoc(es: seq<WalEntry>, e: WalEntry, k: Key)
    ensures OnKey(es + [e], k) == if Writes(e, k) then OnKey(es, k) + [e] else OnKey(es, k)
  {
    assert (es + [e])[..|es|] == es;
  }

  lemma TxOnKeySnoc(id: TxId, log: seq<WalEntry>, e: WalEntry, k: Key)
    ensures TxOnKey(id, log + [e], k) == if e.txId == id && Writes(e, k) then TxOnKey(id, log, k) + [e]
      else TxOnKey(id, log, k)
  {
    ActionSnoc(id, log, e);
    if e.txId == id && !e.IsMarker() { OnKeySnoc(DataOf(id, log), e, k); }
  }

  function Last(es: seq<WalEntry>): (e: WalEntry)
    requires es != []
  {
    es[|es| - 1]
  }

  /** `ops` ends with what is also the last operation on `k` of its own transaction. */
  ghost predicate EndsOwn(ops: seq<WalEntry>, part: seq<WalEntry>, log: seq<WalEntry>, k: Key) {
    ops != [] ==>
      && ActionOf(Last(ops).txId, log) == CommitAction
      && TxOnKey(Last(ops).txId, part, k) != [] && Last(TxOnKey(Last(ops).txId, part, k)) == Last(ops)
  }

  lemma EndsOwnSnoc(ops: seq<WalEntry>, part: seq<WalEntry>, log: seq<WalEntry>, k: Key, x: WalEntry)
    requires EndsOwn(ops, part, log, k)
    ensures Writes(x, k) && ActionOf(x.txId, log) == CommitAction ==> EndsOwn(ops + [x], part + [x], log, k)
    ensures !Writes(x, k) || ActionOf(x.txId, log) != CommitAction ==> EndsOwn(ops, part + [x], log, k)
  {
    TxOnKeySnoc(x.txId, part, x, k);
    if ops != [] { TxOnKeySnoc(Last(ops).txId, part, x, k); }
  }

  lemma CommittedSnoc(part: seq<WalEntry>, log: seq<WalEntry>, x: WalEntry, k: Key)
    ensures Logged(part + [x], log, k)
         == if Writes(x, k) && ActionOf(x.txId, log) == CommitAction then Logged(part, log, k) + [x]
           else Logged(part, log, k)
  {
    assert (part + [x])[..|part|] == part;
    OnKeySnoc(CommittedOf(part, log), x, k);
    assert CommittedOf(part, log) + [] == CommittedOf(part, log);
  }

  /** The committed operations on `k` in `part`. */
  function Logged(part: seq<WalEntry>, log: seq<WalEntry>, k: Key): (ops: seq<WalEntry>) {
    OnKey(CommittedOf(part, log), k)
  }

  lemma LastInLongerLog(front: seq<WalEntry>, x: WalEntry, log: seq<WalEntry>, k: Key)
    requires EndsOwn(Logged(front, log, k), front, log, k)
    ensures EndsOwn(Logged(front + [x], log, k), front + [x], log, k)
  {
    CommittedSnoc(front, log, x, k);
    EndsOwnSnoc(Logged(front, log, k), front, log, k, x);
  }

  /** In log order, the last committed operation on a key is its own transaction's last one. */
  lemma {:induction false} LastInLogOrder(part: seq<WalEntry>, log: seq<WalEntry>, k: Key)
    ensures EndsOwn(Logged(part, log, k), part, log, k)
  {
    if part != [] {
      var front, x := part[..|part| - 1], part[|part| - 1];
      LastInLogOrder(front, log, k);
      LastInLongerLog(front, x, log, k);
      assert part == front + [x];
    }
  }

  lemma {:induction false} NoneInLogOrder(part: seq<WalEntry>, log: seq<WalEntry>, k: Key)
    requires Logged(part, log, k) == []
    ensures forall id: TxId :: ActionOf(id, log) == CommitAction ==> TxOnKey(id, part, k) == []
  {
    if part != [] {
      var n := |part| - 1;
      assert part == part[..n] + [part[n]];
      CommittedSnoc(part[..n], log, part[n], k);
      NoneInLogOrder(part[..n], log, k);
      forall id: TxId | ActionOf(id, log) == CommitAction ensures TxOnKey(id, part, k) == [] {
        TxOnKeySnoc(id, part[..n], part[n], k);
      }
    }
  }

  /** What `recover` reports of transaction `id`. */
  function TxOf(id: TxId, log: seq<WalEntry>): (tx: RecoveredTransaction) {
    RecoveredTransaction(id, ActionOf(id, log), DataOf(id, log))
  }

  lemma ReplayTxOnKey(log: seq<WalEntry>, id: TxId, k: Key)
    ensures OnKey(ReplayTx(TxOf(id, log)), k) == if Touches(id, log, k) then TxOnKey(id, log, k) else []
  {}

  /** Replaying one more transaction: it decides the key if it touches it. */
  lemma ReplayOneMore(log: seq<WalEntry>, txs: seq<RecoveredTransaction>, id: TxId, k: Key)
    ensures var before, after := OnKey(Replayed(txs), k), OnKey(Replayed(txs + [TxOf(id, log)]), k);
            if Touches(id, log, k) then after == before + TxOnKey(id, log, k) else after == before
  {
    assert (txs + [TxOf(id, log)])[..|txs|] == txs;
    OnKeyConcat(Replayed(txs), ReplayTx(TxOf(id, log)), k);
    ReplayTxOnKey(log, id, k);
  }

  /** The operations `ops` on `k` end with the final value of a listed transaction that touches
      it, and there are none only when none does. */
  ghost predicate Decided(ops: seq<WalEntry>, ids: seq<TxId>, log: seq<WalEntry>, k: Key) {
    && (ops == [] ==> forall id :: id in ids ==> !Touches(id, log, k))
    && (ops != [] ==> exists id :: id in ids && Touches(id, log, k) && Effect(Last(ops)) == Final(id, log, k))
  }

  function TxList(ids: seq<TxId>, log: seq<WalEntry>): (txs: seq<RecoveredTransaction>)
    ensures |txs| == |ids| && forall i :: 0 <= i < |ids| ==> txs[i] == TxOf(ids[i], log)
  {
    if ids == [] then [] else TxList(ids[..|ids| - 1], log) + [TxOf(ids[|ids| - 1], log)]
  }

  /** The operations on `k` that replaying the list applies. */
  function Listing(ids: seq<TxId>, log: seq<WalEntry>, k: Key): (ops: seq<WalEntry>) {
    OnKey(Replayed(TxList(ids, log)), k)
  }

  lemma ListingSnoc(ids: seq<TxId>, id: TxId, log: seq<WalEntry>, k: Key)
    ensures Listing(ids + [id], log, k) == if Touches(id, log, k) then Listing(ids, log, k) + TxOnKey(id, log, k)
      else Listing(ids, log, k)
  {
    assert (ids + [id])[..|ids|] == ids;
    ReplayOneMore(log, TxList(ids, log), id, k);
  }

  lemma {:induction false} LastInList(log: seq<WalEntry>, ids: seq<TxId>, k: Key)
    ensures Decided(Listing(ids, log, k), ids, log, k)
  {
    if ids != [] {
      var front, id := ids[..|ids| - 1], ids[|ids| - 1];
      assert ids == front + [id];
      LastInList(log, front, k);
      LastInLongerList(log, front, id, k);
    } else {
      NothingListed(log, k);
    }
  }

  lemma NothingListed(log: seq<WalEntry>, k: Key)
    ensures Listing([], log, k) == []
  {}

  lemma LastInLongerList(log: seq<WalEntry>, ids: seq<TxId>, id: TxId, k: Key)
    requires Decided(Listing(ids, log, k), ids, log, k)
    ensures Decided(Listing(ids + [id], log, k), ids + [id], log, k)
  {
    ListingSnoc(ids, id, log, k);
    DecidedSnoc(Listing(ids, log, k), ids, id, log, k);
  }

  lemma DecidedSnoc(ops: seq<WalEntry>, ids: seq<TxId>, id: TxId, log: seq<WalEntry>, k: Key)
    requires Decided(ops, ids, log, k)
    ensures Decided(if Touches(id, log, k) then ops + TxOnKey(id, log, k) else ops, ids + [id], log, k)
  {
    if Touches(id, log, k) {
      assert Effect(Last(ops + TxOnKey(id, log, k))) == Final(id, log, k) && id in ids + [id];
    } else if ops != [] {
      var d :| d in ids && Touches(d, log, k) && Effect(Last(ops)) == Final(d, log, k);
      assert d in ids + [id];
    }
  }

  /** A list that ends with a transaction that touches the key ends with its final value. */
  lemma LastTouchDecides(log: seq<WalEntry>, front: seq<TxId>, id: TxId, k: Key)
    requires Touches(id, log, k)
    ensures var ops := Listing(front + [id], log, k); ops != [] && Effect(Last(ops)) == Final(id, log, k)
  {
    ListingSnoc(front, id, log, k);
  }

  // ----- The orders recovery may produce -----

  /** `ids` lists the transaction ids of `log`, each once. */
  ghost predicate IsOrder(ids: seq<TxId>, log: seq<WalEntry>) {
    && (forall i, j :: 0 <= i < j < |ids| ==> ids[i] != ids[j])
    && (forall id: TxId :: id in ids <==> !Absent(id, log))
  }

  function IdsOf(txs: seq<RecoveredTransaction>): (ids: seq<TxId>)
    ensures |ids| == |txs| && forall i :: 0 <= i < |txs| ==> ids[i] == txs[i].txId
  {
    seq(|txs|, i requires 0 <= i < |txs| => txs[i].txId)
  }

  /** `recover` may return exactly the lists of the log's transactions in some order. */
  lemma RecoveredIsOrder(log: seq<WalEntry>, txs: seq<RecoveredTransaction>)
    requires Recovered(log, txs)
    ensures IsOrder(IdsOf(txs), log) && txs == TxList(IdsOf(txs), log)
  {
    var ids := IdsOf(txs);
    forall id: TxId ensures id in ids <==> !Absent(id, log) {
      if id in ids { var i :| 0 <= i < |ids| && ids[i] == id; assert txs[i].txId == id; }
    }
  }

  lemma OrderIsRecovered(log: seq<WalEntry>, ids: seq<TxId>)
    requires IsOrder(ids, log)
    ensures Recovered(log, TxList(ids, log))
  {
    var txs := TxList(ids, log);
    forall id: TxId ensures Absent(id, log) <==> forall i :: 0 <= i < |txs| ==> txs[i].txId != id {
      if id in ids { var i :| 0 <= i < |ids| && ids[i] == id; assert txs[i].txId == id; }
    }
  }

  lemma Listed(log: seq<WalEntry>, ids: seq<TxId>, id: TxId)
    requires IsOrder(ids, log) && ActionOf(id, log) == CommitAction
    ensures id in ids
  {
    ProjAbsent(id, log);
  }

  /** Taking an id out and putting it last gives another order. */
  lemma MovedLast(log: seq<WalEntry>, ids: seq<TxId>, id: TxId) returns (front: seq<TxId>)
    requires IsOrder(ids, log) && id in ids
    ensures IsOrder(front + [id], log)
  {
    var i :| 0 <= i < |ids| && ids[i] == id;
    front := ids[..i] + ids[i + 1..];
    assert ids == ids[..i] + [id] + ids[i + 1..];
    assert forall x :: x in front + [id] <==> x in ids;
  }

  lemma ReplayMatchesAt(m: Table, log: seq<WalEntry>, ids: seq<TxId>, k: Key)
    requires IsOrder(ids, log) && SameFinals(log)
    ensures Slot(ApplyAll(m, Replayed(TxList(ids, log))), k) == Slot(ApplyAll(m, CommittedInOrder(log)), k)
  {
    SlotOfApplyAll(m, Replayed(TxList(ids, log)), k);
    SlotOfApplyAll(m, CommittedInOrder(log), k);
    LastInList(log, ids, k);
    LastInLogOrder(log, log, k);
    SameLast(log, ids, Listing(ids, log, k), k);
  }

  /** The list's last operation on `k` and the log's leave the same value. */
  lemma SameLast(log: seq<WalEntry>, ids: seq<TxId>, ops: seq<WalEntry>, k: Key)
    requires IsOrder(ids, log) && SameFinals(log)
    requires Decided(ops, ids, log, k)
    ensures var logged := Logged(log, log, k);
            (ops == [] <==> logged == []) && (ops != [] ==> Effect(Last(ops)) == Effect(Last(logged)))
  {
    var logged := Logged(log, log, k);
    if logged == [] {
      NoneInLogOrder(log, log, k);
    } else {
      LastInLogOrder(log, log, k);
      var id := Last(logged).txId;
      assert Touches(id, log, k) && Final(id, log, k) == Effect(Last(logged));
      Listed(log, ids, id);
    }
  }

  /** Every order in which `recover` may list the transactions of `log` replays to the store of
      the log's own order, from table `m`. */
  ghost predicate OrderIrrelevant(m: Table, log: seq<WalEntry>) {
    forall txs :: Recovered(log, txs) ==> ApplyAll(m, Replayed(txs)) == ApplyAll(m, CommittedInOrder(log))
  }

  lemma ReplayMatches(m: Table, log: seq<WalEntry>, txs: seq<RecoveredTransaction>)
    requires Recovered(log, txs) && SameFinals(log)
    ensures ApplyAll(m, Replayed(txs)) == ApplyAll(m, CommittedInOrder(log))
  {
    RecoveredIsOrder(log, txs);
    forall k: Key ensures Slot(ApplyAll(m, Replayed(txs)), k) == Slot(ApplyAll(m, CommittedInOrder(log)), k) {
      ReplayMatchesAt(m, log, IdsOf(txs), k);
    }
    SameSlots(ApplyAll(m, Replayed(txs)), ApplyAll(m, CommittedInOrder(log)));
  }

  lemma FinalIsForced(m: Table, log: seq<WalEntry>, ids: seq<TxId>, id: TxId, k: Key)
    requires IsOrder(ids, log) && OrderIrrelevant(m, log) && Touches(id, log, k)
    ensures Slot(ApplyAll(m, CommittedInOrder(log)), k) == Final(id, log, k)
  {
    Listed(log, ids, id);
    var front := MovedLast(log, ids, id);
    var order := front + [id];
    OrderIsRecovered(log, order);
    LastTouchDecides(log, front, id, k);
    SlotOfApplyAll(m, Replayed(TxList(order, log)), k);
  }

  /** Replay order: `recover` lists transactions in hash-set order, and every order gives the
      store of the log if and only if committed transactions that touch the same key leave the
      same value in it. */
  lemma ReplayOrderIff(m: Table, log: seq<WalEntry>, txs: seq<RecoveredTransaction>)
    requires Recovered(log, txs)
    ensures OrderIrrelevant(m, log) <==> SameFinals(log)
  {
    if SameFinals(log) {
      forall other | Recovered(log, other)
        ensures ApplyAll(m, Replayed(other)) == ApplyAll(m, CommittedInOrder(log))
      {
        ReplayMatches(m, log, other);
      }
    } else if OrderIrrelevant(m, log) {
      RecoveredIsOrder(log, txs);
      forall a: TxId, b: TxId, k: Key | Touches(a, log, k) && Touches(b, log, k)
        ensures Final(a, log, k) == Final(b, log, k)
      {
        FinalIsForced(m, log, IdsOf(txs), a, k);
        FinalIsForced(m, log, IdsOf(txs), b, k);
      }
    }
  }

  /** No two committed transactions operate on the same key. */
  ghost predicate NoSharedKeys(log: seq<WalEntry>) {
    forall a: TxId, b: TxId, k: Key :: Touches(a, log, k) && Touches(b, log, k) ==> a == b
  }

  /** The promise of `apply_transactions` for disjoint transactions. */
  lemma DisjointReplay(m: Table, log: seq<WalEntry>, txs: seq<RecoveredTransaction>)
    requires Recovered(log, txs) && NoSharedKeys(log)
    ensures ApplyAll(m, Replayed(txs)) == ApplyAll(m, CommittedInOrder(log))
  {
    ReplayMatches(m, log, txs);
  }

  /** One writer commits `v1` and then `v2` under the same key. */
  function TwoVersions(k: Key, v1: Value, v2: Value): (log: seq<WalEntry>) {
    [Insert(1, 0, k, v1), Commit(1, 0), Insert(2, 0, k, v2), Commit(2, 0)]
  }

  lemma TwoVersionsHalf(id: TxId, a: WalEntry, b: WalEntry, log: seq<WalEntry>)
    requires !a.IsMarker() && b.Commit? && a.txId == b.txId
    ensures ActionOf(id, log + [a] + [b]) == if id == a.txId then CommitAction else ActionOf(id, log)
    ensures DataOf(id, log + [a] + [b]) == if id == a.txId then DataOf(id, log) + [a] else DataOf(id, log)
  {
    ActionSnoc(id, log, a);
    ActionSnoc(id, log + [a], b);
  }

  lemma FirstHalf(id: TxId, a: WalEntry, b: WalEntry)
    requires !a.IsMarker() && b.Commit? && a.txId == b.txId
    ensures ActionOf(id, [a] + [b]) == if id == a.txId then CommitAction else IncompleteAction
    ensures DataOf(id, [a] + [b]) == if id == a.txId then [a] else []
  {
    TwoVersionsHalf(id, a, b, []);
    assert [] + [a] + [b] == [a] + [b];
    assert Proj(id, []) == [];
    assert [] + [a] == [a];
  }

  lemma TwoVersionsTx(id: TxId, k: Key, v1: Value, v2: Value)
    ensures TxOf(id, TwoVersions(k, v1, v2))
         == if id == 1 then RecoveredTransaction(1, CommitAction, [Insert(1, 0, k, v1)])
            else if id == 2 then RecoveredTransaction(2, CommitAction, [Insert(2, 0, k, v2)])
            else RecoveredTransaction(id, IncompleteAction, [])
  {
    var log := TwoVersions(k, v1, v2);
    var half := [log[0]] + [log[1]];
    FirstHalf(id, log[0], log[1]);
    TwoVersionsHalf(id, log[2], log[3], half);
    assert log == half + [log[2]] + [log[3]];
    assert [] + [log[2]] == [log[2]];
  }

  lemma LoggedHalf(part: seq<WalEntry>, log: seq<WalEntry>, a: WalEntry, b: WalEntry, k: Key)
    requires Writes(a, k) && b.IsMarker() && ActionOf(a.txId, log) == CommitAction
    ensures Logged(part + [a] + [b], log, k) == Logged(part, log, k) + [a]
  {
    CommittedSnoc(part, log, a, k);
    CommittedSnoc(part + [a], log, b, k);
  }

  lemma TwoVersionsOnKey(k: Key, v1: Value, v2: Value)
    ensures var log := TwoVersions(k, v1, v2); Logged(log, log, k) == [log[0], log[2]]
  {
    var log := TwoVersions(k, v1, v2);
    var a, b, c, d := log[0], log[1], log[2], log[3];
    TwoVersionsTx(1, k, v1, v2);
    TwoVersionsTx(2, k, v1, v2);
    LoggedHalf([], log, a, b, k);
    LoggedHalf([] + [a] + [b], log, c, d, k);
    assert log == [] + [a] + [b] + [c] + [d];
    assert Logged([], log, k) == [];
  }

  /** Per-key order is not kept by replay even when a single writer writes the key: that writer's
      second commit can be undone, because recovery may list its second transaction first. */
  lemma OneWriterTwoVersions(m: Table, k: Key, v1: Value, v2: Value) returns (txs: seq<RecoveredTransaction>)
    ensures Recovered(TwoVersions(k, v1, v2), txs)
    ensures Slot(ApplyAll(m, CommittedInOrder(TwoVersions(k, v1, v2))), k) == Some(v2)
    ensures Slot(ApplyAll(m, Replayed(txs)), k) == Some(v1)
  {
    var log := TwoVersions(k, v1, v2);
    TwoVersionsOnKey(k, v1, v2);
    SlotOfApplyAll(m, CommittedInOrder(log), k);
    TwoVersionsOrder(k, v1, v2);
    txs := TxList([2] + [1], log);
    OrderIsRecovered(log, [2] + [1]);
    FirstVersion(k, v1, v2);
    LastTouchDecides(log, [2], 1, k);
    SlotOfApplyAll(m, Replayed(txs), k);
  }

  lemma TwoVersionsOrder(k: Key, v1: Value, v2: Value)
    ensures IsOrder([2] + [1], TwoVersions(k, v1, v2))
  {
    var log := TwoVersions(k, v1, v2);
    assert log[0] in log && log[2] in log;
  }

  lemma FirstVersion(k: Key, v1: Value, v2: Value)
    ensures var log := TwoVersions(k, v1, v2); Touches(1, log, k) && Final(1, log, k) == Some(v1)
  {
    TwoVersionsTx(1, k, v1, v2);
    OnKeySnoc([], Insert(1, 0, k, v1), k);
    assert [] + [Insert(1, 0, k, v1)] == [Insert(1, 0, k, v1)];
  }
}
