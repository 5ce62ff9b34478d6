/** Reading a log by transaction: which records belong to an id and how the id ended. */
module Log {
  import opened Entry

  /** The records of transaction `id`, in log order. */
  function Proj(id: TxId, log: seq<WalEntry>): (r: seq<WalEntry>)
    ensures forall e :: e in r ==> e in log && e.txId == id
  {
    if log == [] then []
    else
      var n := |log| - 1;
      Proj(id, log[..n]) + (if log[n].txId == id then [log[n]] else [])
  }

  lemma Regroup(a: seq<WalEntry>, b: seq<WalEntry>, d: seq<WalEntry>)
    ensures a + (b + d) == (a + b) + d
  {}

  lemma PushLast(a: seq<WalEntry>, b: seq<WalEntry>, script: seq<WalEntry>, n: nat)
    requires n < |script| && a + b == script[..n]
    ensures a + (b + [script[n]]) == script[..n + 1]
  {
    Regroup(a, b, [script[n]]);
  }

  lemma ShiftMiddle(a: seq<WalEntry>, b: seq<WalEntry>, x: seq<WalEntry>, d: seq<WalEntry>)
    ensures a + (b + x) + d == a + b + (x + d)
  {
    Regroup(a, b, x);
    Regroup(a + b, x, d);
  }

  ghost predicate Absent(id: TxId, log: seq<WalEntry>) {
    forall e :: e in log ==> e.txId != id
  }

  lemma {:induction false} ProjConcat(id: TxId, a: seq<WalEntry>, b: seq<WalEntry>)
    ensures Proj(id, a + b) == Proj(id, a) + Proj(id, b)
  {
    if b == [] {
      assert a + b == a;
    } else {
      var n := |b| - 1;
      ProjConcat(id, a, b[..n]);
      assert (a + b)[..|a + b| - 1] == a + b[..n];
      assert (a + b)[|a + b| - 1] == b[n];
    }
  }

  lemma ProjOne(id: TxId, e: WalEntry)
    ensures Proj(id, [e]) == if e.txId == id then [e] else []
  {
    assert [e][..0] == [];
    assert Proj(id, [e][..0]) == [];
  }

  lemma {:induction false} ProjAbsent(id: TxId, log: seq<WalEntry>)
    ensures Absent(id, log) <==> Proj(id, log) == []
  {
    if log != [] {
      var n := |log| - 1;
      ProjAbsent(id, log[..n]);
      assert log == log[..n] + [log[n]];
    }
  }

  lemma ProjPrefix(id: TxId, a: seq<WalEntry>, b: seq<WalEntry>)
    requires a <= b
    ensures Proj(id, a) <= Proj(id, b)
  {
    assert b == a + b[|a|..];
    ProjConcat(id, a, b[|a|..]);
  }

  /** Taking the first record off a queue. */
  lemma ProjHead(id: TxId, log: seq<WalEntry>)
    requires log != []
    ensures Proj(id, log) == (if log[0].txId == id then [log[0]] else []) + Proj(id, log[1..])
  {
    assert log == [log[0]] + log[1..];
    ProjConcat(id, [log[0]], log[1..]);
    ProjOne(id, log[0]);
  }

  lemma ProjSnoc(id: TxId, log: seq<WalEntry>, e: WalEntry)
    ensures Proj(id, log + [e]) == Proj(id, log) + (if e.txId == id then [e] else [])
  {
    ProjConcat(id, log, [e]);
    ProjOne(id, e);
  }

  datatype RecoveryAction = CommitAction | RollbackAction | IncompleteAction

  function NonMarkers(log: seq<WalEntry>): (r: seq<WalEntry>) {
    if log == [] then []
    else
      var n := |log| - 1;
      NonMarkers(log[..n]) + (if log[n].IsMarker() then [] else [log[n]])
  }

  function LastMarker(log: seq<WalEntry>): (a: RecoveryAction) {
    if log == [] then IncompleteAction
    else
      var n := |log| - 1;
      if log[n].Commit? then CommitAction
      else if log[n].Abort? then RollbackAction
      else LastMarker(log[..n])
  }

  /** How recovery classifies `id` and which entries it reports for it. */
  function ActionOf(id: TxId, log: seq<WalEntry>): (a: RecoveryAction) { LastMarker(Proj(id, log)) }

  function DataOf(id: TxId, log: seq<WalEntry>): (r: seq<WalEntry>) { NonMarkers(Proj(id, log)) }

  lemma {:induction false} NonMarkersOfData(es: seq<WalEntry>)
    requires forall e :: e in es ==> !e.IsMarker()
    ensures NonMarkers(es) == es
    ensures LastMarker(es) == IncompleteAction
  {
    if es != [] {
      NonMarkersOfData(es[..|es| - 1]);
    }
  }

  /** Of several markers of a transaction the last one counts, whatever comes before and between. */
  lemma LastMarkerWins(id: TxId, a: seq<WalEntry>, m: WalEntry, b: seq<WalEntry>)
    requires m.IsMarker() && m.txId == id && forall e :: e in b ==> !(e.IsMarker() && e.txId == id)
    ensures ActionOf(id, a + [m] + b) == if m.Commit? then CommitAction else RollbackAction
  {
    ProjConcat(id, a + [m], b);
    ProjSnoc(id, a, m);
    MarkerBehind(Proj(id, a), m, Proj(id, b));
  }

  lemma {:induction false} MarkerBehind(a: seq<WalEntry>, m: WalEntry, b: seq<WalEntry>)
    requires m.IsMarker() && forall e :: e in b ==> !e.IsMarker()
    ensures LastMarker(a + [m] + b) == if m.Commit? then CommitAction else RollbackAction
  {
    var all := a + [m] + b;
    if b != [] {
      var n := |b| - 1;
      MarkerBehind(a, m, b[..n]);
      assert all[..|all| - 1] == a + [m] + b[..n] && all[|all| - 1] == b[n] && b[n] in b;
    } else {
      assert all[|all| - 1] == m;
    }
  }

  /** Without a marker the transaction is incomplete. */
  lemma NoMarkerIncomplete(id: TxId, log: seq<WalEntry>)
    requires forall e :: e in log ==> !(e.IsMarker() && e.txId == id)
    ensures ActionOf(id, log) == IncompleteAction && DataOf(id, log) == Proj(id, log)
  {
    NonMarkersOfData(Proj(id, log));
  }
}
