/** The log can always go on: after any run, a crash at any point and recovery, any transaction can be
    sent, written, fsynced and acknowledged, through steps of the machine only. */
module Service {
  import opened LittleEndian
  import opened Entry
  import opened Disk
  import opened Log
  import opened Segments
  import opened Flusher
  import opened WalRun
  import opened WalInvariant
  import opened WalTheorems
  import opened FlusherRun
  import Parser

  /** The flusher has nothing under way. */
  ghost predicate Free(s: State) { s.proc.Some? && s.proc.value.phase.Collect? && s.proc.value.jobs == [] }

  /** Transaction `id` with the given script has sent `k` records of it. */
  ghost function Sent(s: State, id: TxId, t: Tx, k: nat): (s': State)
    requires s.proc.Some? && t.writer < |s.proc.value.queues| && k <= |t.Script()|
  {
    var p := s.proc.value;
    s.(proc := Some(p.(queues := p.queues[t.writer := p.queues[t.writer] + t.Script()[..k]])),
       txs := s.txs[id := t.(sent := k)])
  }

  lemma {:induction false} SendsAll(c: Codec, cfg: Config, s: State, id: TxId, t: Tx, k: nat)
      returns (states: seq<State>, steps: seq<Step>)
    requires s.proc.Some? && t.writer < |s.proc.value.queues| && k <= |t.Script()| && t.alive
    ensures Path(c, cfg, states, steps) && states[0] == Sent(s, id, t, 0) && states[|steps|] == Sent(s, id, t, k)
  {
    if k == 0 {
      states, steps := [Sent(s, id, t, 0)], [];
    } else {
      var a, x := SendsAll(c, cfg, s, id, t, k - 1);
      var s1, s2, q := Sent(s, id, t, k - 1), Sent(s, id, t, k), s.proc.value.queues[t.writer];
      assert t.Script()[..k] == t.Script()[..k - 1] + [t.Script()[k - 1]];
      Regroup(q, t.Script()[..k - 1], [t.Script()[k - 1]]);
      assert s1.proc.value.queues[t.writer := q + t.Script()[..k]] == s2.proc.value.queues;
      assert s1.txs[id := t.(sent := k)] == s2.txs;
      assert SendStep(s1, s2, id);
      var last, end := [s1, s2], [Send(id)];
      JoinPaths(c, cfg, a, x, last, end);
      states, steps := a + last[1..], x + end;
    }
  }

  /** The ids of the commits among the records. */
  function CommitIds(es: seq<WalEntry>): (ids: seq<TxId>) {
    if es == [] then []
    else
      var e := es[|es| - 1];
      CommitIds(es[..|es| - 1]) + (if e.Commit? then [e.txId] else [])
  }

  ghost function Collected(s: State, w: nat, n: nat): (s': State)
    requires s.proc.Some? && w < |s.proc.value.queues| && n <= |s.proc.value.queues[w]|
  {
    var p := s.proc.value;
    var q := p.queues[w];
    s.(proc := Some(p.(queues := p.queues[w := q[n..]], batch := p.batch + q[..n],
                       waiters := p.waiters + CommitIds(q[..n]))))
  }

  lemma {:induction false} DrainsAll(c: Codec, cfg: Config, s: State, w: nat, n: nat)
      returns (states: seq<State>, steps: seq<Step>)
    requires Free(s) && w < |s.proc.value.queues| && n <= |s.proc.value.queues[w]|
    ensures Path(c, cfg, states, steps) && states[0] == s && states[|steps|] == Collected(s, w, n)
  {
    var p := s.proc.value;
    var q := p.queues[w];
    if n == 0 {
      assert q[0..] == q && q[..0] == [] && p.queues[w := q] == p.queues;
      assert p.batch + [] == p.batch && p.waiters + [] == p.waiters;
      states, steps := [s], [];
    } else {
      var a, x := DrainsAll(c, cfg, s, w, n - 1);
      var s1, s2 := Collected(s, w, n - 1), Collected(s, w, n);
      assert q[..n][..n - 1] == q[..n - 1] && q[n - 1..][1..] == q[n..];
      assert s1.proc.value.queues[w := q[n..]] == s2.proc.value.queues;
      assert p.batch + q[..n] == (p.batch + q[..n - 1]) + [q[n - 1]];
      assert s2.proc.value.waiters == s1.proc.value.waiters + (if q[n - 1].Commit? then [q[n - 1].txId] else []);
      assert s1.proc.value.queues[w][0] == q[n - 1] && s1.proc.value.waiters + [] == s1.proc.value.waiters;
      assert DrainStep(cfg.mode, s1, s2, w);
      var last, end := [s1, s2], [Drain(w)];
      JoinPaths(c, cfg, a, x, last, end);
      states, steps := a + last[1..], x + end;
    }
  }

  /** A manager over the log's files, all but the active one counted as older. */
  ghost function ManagerOf(c: Codec, cfg: Config, fs: seq<File>): (m: Manager)
    requires fs != []
  {
    var f := Last(fs);
    var records := seq(|f.log|, i requires 0 <= i < |f.log| => Record(0, c.ser(f.log[i])));
    Manager(cfg.maxSegmentSize, Seg(Meta(f.id, |f.tiers.All()|, |f.log|, 0, 0), f.tiers, records), [], f.id + 1)
  }

  lemma ManagerMirrors(c: Codec, cfg: Config, fs: seq<File>)
    requires fs != [] && Increasing(fs) && FileInv(c, Last(fs)) && Last(fs).torn == []
    ensures MirrorsAll(c, ManagerOf(c, cfg, fs), fs[..|fs| - 1], fs)
  {
    var m, f := ManagerOf(c, cfg, fs), Last(fs);
    assert f.tiers.All() == Frames(c, f.log) + [] == Frames(c, f.log);
    assert Mirrors(c, SegsOf(m)[0], fs[|fs| - 1]);
  }

  lemma {:induction false} CommitListed(es: seq<WalEntry>, i: nat)
    requires i < |es| && es[i].Commit?
    ensures es[i].txId in CommitIds(es)
  {
    if i < |es| - 1 { CommitListed(es[..|es| - 1], i); }
  }

  /** What a writer may begin next: records of the next id, and its marker. */
  ghost predicate Allowed(c: Codec, s: State, w: nat, entries: seq<WalEntry>, marker: WalEntry) {
    && s.proc.Some? && w < |s.proc.value.queues|
    && (forall e :: e in entries ==> e.txId == s.proc.value.nextTx && !e.IsMarker())
    && marker.IsMarker() && marker.txId == s.proc.value.nextTx
    && FitsAll(c, entries) && Fits(c, marker) && (marker.Abort? ==> entries == [])
  }

  /** Begin and all sends: the script is at the end of the writer's queue. */
  lemma Sends(c: Codec, cfg: Config, s: State, w: nat, entries: seq<WalEntry>, marker: WalEntry)
      returns (states: seq<State>, steps: seq<Step>)
    requires Free(s) && Allowed(c, s, w, entries, marker)
    ensures Path(c, cfg, states, steps) && states[0] == s
    ensures var s', id := states[|steps|], s.proc.value.nextTx;
            && Free(s') && s'.files == s.files && s'.truncated == s.truncated - {id}
            && id in s'.txs && s'.txs[id] == Tx(w, entries, marker, |entries| + 1, true, false, false)
            && |s'.proc.value.queues| == |s.proc.value.queues|
            && s'.proc.value.queues[w] == s.proc.value.queues[w] + (entries + [marker])
  {
    var p, id, t := s.proc.value, s.proc.value.nextTx, Tx(w, entries, marker, 0, true, false, false);
    var s1 := s.(proc := Some(p.(nextTx := id + 1)), txs := s.txs[id := t], truncated := s.truncated - {id});
    assert BeginStep(c, s, s1, w, entries, marker);
    var q := p.queues[w];
    assert q + t.Script()[..0] == q && p.queues[w := q] == p.queues && s1.txs[id := t.(sent := 0)] == s1.txs;
    assert Sent(s1, id, t, 0) == s1;
    var n := |t.Script()|;
    var a, x := SendsAll(c, cfg, s1, id, t, n);
    assert t.Script()[..n] == entries + [marker];
    var first, start := [s, s1], [Begin(w, entries, marker)];
    JoinPaths(c, cfg, first, start, a, x);
    states, steps := first + a[1..], start + x;
  }

  /** From any state with a free flusher: the new transaction is sent, collected, written and fsynced,
      and a commit is acknowledged. */
  lemma Completes(c: Codec, cfg: Config, s: State, w: nat, entries: seq<WalEntry>, marker: WalEntry)
      returns (states: seq<State>, steps: seq<Step>)
    requires Inv(c, s) && Free(s) && Allowed(c, s, w, entries, marker)
    ensures Path(c, cfg, states, steps) && states[0] == s
    ensures var s', id := states[|steps|], s.proc.value.nextTx;
            && Free(s') && s'.proc.value.batch == [] && w < |s'.proc.value.queues| && s'.proc.value.queues[w] == []
            && id in s'.txs && s'.txs[id].entries == entries && s'.txs[id].sent == |entries| + 1
            && (marker.Commit? ==> Acked(s', id, entries))
  {
    var id := s.proc.value.nextTx;
    var a, x := Sends(c, cfg, s, w, entries, marker);
    var s1 := a[|x|];
    var q := s1.proc.value.queues[w];
    var b, y := DrainsAll(c, cfg, s1, w, |q|);
    var s2 := b[|y|];
    assert q[..|q|] == q && q[|q|..] == [] && q[|q| - 1] == marker;
    if marker.Commit? { CommitListed(q, |q| - 1); }
    ManagerMirrors(c, cfg, s2.files);
    var p2 := s2.proc.value;
    var batch := seq(|p2.batch|, i requires 0 <= i < |p2.batch| => Record(0, c.ser(p2.batch[i])));
    var d, z := FlushIsPath(c, cfg, s2, ManagerOf(c, cfg, s2.files), s2.files[..|s2.files| - 1], batch, true);
    JoinPaths(c, cfg, a, x, b, y);
    JoinPaths(c, cfg, a + b[1..], x + y, d, z);
    states, steps := a + b[1..] + d[1..], x + y + z;
  }

  lemma Crashes(c: Codec, cfg: Config, s: State, cuts: seq<nat>) returns (s': State)
    requires Lawful(c) && Inv(c, s) && Cuts(s.files, cuts)
    ensures Next(c, cfg, s, s', Crash(cuts)) && Inv(c, s') && s'.proc.None?
    ensures s'.files == CrashFiles(c, s.files, cuts)
  {
    s' := s.(files := CrashFiles(c, s.files, cuts), proc := None,
             txs := map id | id in s.txs :: s.txs[id].(alive := false));
    NextKeeps(c, cfg, s, s', Crash(cuts));
  }

  lemma Reopens(c: Codec, cfg: Config, s: State, writers: nat, counter: nat) returns (s': State)
    requires Lawful(c) && Inv(c, s) && s.proc.None? && counter > Parser.MaxId(RecoveredLog(c, s.files))
    ensures Next(c, cfg, s, s', Restart(writers, counter)) && Inv(c, s') && Free(s')
    ensures |s'.proc.value.queues| == writers && s'.proc.value.nextTx == counter
  {
    var id := if s.files == [] then 1 else Last(s.files).id + 1;
    s' := s.(files := s.files + [File(id, Tiers([], [], []), [], [])],
             proc := Some(Proc(seq(writers, _ => []), [], [], Collect, [], [], counter)));
    NextKeeps(c, cfg, s, s', Restart(writers, counter));
  }

  lemma OneStep(c: Codec, cfg: Config, s: State, s': State, step: Step)
    requires Next(c, cfg, s, s', step)
    ensures Path(c, cfg, [s, s'], [step])
  {}

  /** A crash at any point and a restart: the flusher is free. */
  lemma Restarts(c: Codec, cfg: Config, s: State, cuts: seq<nat>, writers: nat, counter: nat)
      returns (states: seq<State>, steps: seq<Step>)
    requires Lawful(c) && Inv(c, s) && Cuts(s.files, cuts)
    requires counter > Parser.MaxId(RecoveredLog(c, CrashFiles(c, s.files, cuts)))
    ensures Path(c, cfg, states, steps) && states[0] == s && steps == [Crash(cuts), Restart(writers, counter)]
    ensures var s' := states[2];
            && Inv(c, s') && Free(s') && |s'.proc.value.queues| == writers && s'.proc.value.nextTx == counter
  {
    var s1 := Crashes(c, cfg, s, cuts);
    var s2 := Reopens(c, cfg, s1, writers, counter);
    OneStep(c, cfg, s, s1, Crash(cuts));
    OneStep(c, cfg, s1, s2, Restart(writers, counter));
    JoinPaths(c, cfg, [s, s1], [Crash(cuts)], [s1, s2], [Restart(writers, counter)]);
    states, steps := [s, s1] + [s1, s2][1..], [Crash(cuts)] + [Restart(writers, counter)];
  }

  /** After any run, a crash at any point and a restart with any id counter that recovery allows,
      every transaction can be completed: a run goes on from there to its acknowledgement. */
  lemma ServiceResumes(c: Codec, cfg: Config, states: seq<State>, steps: seq<Step>, cuts: seq<nat>, writers: nat,
      counter: nat, w: nat, entries: seq<WalEntry>, marker: WalEntry)
      returns (states': seq<State>, steps': seq<Step>)
    requires Lawful(c) && Run(c, cfg, states, steps) && Cuts(states[|steps|].files, cuts) && w < writers
    requires counter > Parser.MaxId(RecoveredLog(c, CrashFiles(c, states[|steps|].files, cuts)))
    requires forall e :: e in entries ==> e.txId == counter && !e.IsMarker()
    requires marker.IsMarker() && marker.txId == counter && FitsAll(c, entries) && Fits(c, marker)
    requires marker.Abort? ==> entries == []
    ensures Run(c, cfg, states', steps') && states <= states'
    ensures steps + [Crash(cuts), Restart(writers, counter)] <= steps'
    ensures var s' := states'[|steps'|];
            && counter in s'.txs && s'.txs[counter].entries == entries && s'.txs[counter].sent == |entries| + 1
            && (marker.Commit? ==> Acked(s', counter, entries))
  {
    RunInv(c, cfg, states, steps, |steps|);
    var a, x := Restarts(c, cfg, states[|steps|], cuts, writers, counter);
    var b, y := Completes(c, cfg, a[2], w, entries, marker);
    JoinPaths(c, cfg, states, steps, a, x);
    JoinPaths(c, cfg, states + a[1..], steps + x, b, y);
    states', steps' := states + a[1..] + b[1..], steps + x + y;
  }
}
