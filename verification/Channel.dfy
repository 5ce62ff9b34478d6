/** The multi-producer channel: one ring per producer, drained in order by one consumer while
    producers reserve, write, commit and register between any two of its atomic steps. */
module Channel {
  import opened Words
  import opened RingRun
  import opened RingProof
  import opened RingWrap
  import opened ChannelRing

  /** An item together with the producer it came from. */
  datatype Tagged = Tagged(producer: nat, item: Item)

  function Tag(i: nat, items: seq<Item>): (ts: seq<Tagged>)
    ensures |ts| == |items|
  {
    seq(|items|, j requires 0 <= j < |items| => Tagged(i, items[j]))
  }

  /** The items of producer `i`, in order. */
  function From(i: nat, ts: seq<Tagged>): (items: seq<Item>) {
    if ts == [] then []
    else
      var n := |ts| - 1;
      From(i, ts[..n]) + (if ts[n].producer == i then [ts[n].item] else [])
  }

  lemma {:induction false} FromConcat(i: nat, a: seq<Tagged>, b: seq<Tagged>)
    ensures From(i, a + b) == From(i, a) + From(i, b)
  {
    if b == [] {
      assert a + b == a;
    } else {
      var n := |b| - 1;
      FromConcat(i, a, b[..n]);
      assert (a + b)[..|a + b| - 1] == a + b[..n];
      assert (a + b)[|a + b| - 1] == b[n];
    }
  }

  lemma {:induction false} FromTag(i: nat, j: nat, items: seq<Item>)
    ensures From(i, Tag(j, items)) == if i == j then items else []
  {
    if items != [] {
      var n := |items| - 1;
      FromTag(i, j, items[..n]);
      assert Tag(j, items)[..n] == Tag(j, items[..n]);
    }
  }

  /** Producers only ever append, and new producers come after the registered ones. */
  predicate Grows(before: seq<seq<Item>>, after: seq<seq<Item>>) {
    |before| <= |after| && forall i :: 0 <= i < |before| ==> before[i] <= after[i]
  }

  lemma GrowsMore(a: seq<seq<Item>>, b: seq<seq<Item>>, d: seq<seq<Item>>)
    requires Grows(a, b) && Grows(b, d)
    ensures Grows(a, d)
  {}

  /** The count of ring `i`; a ring that is not registered yet has delivered nothing. */
  function HeadOf(heads: seq<nat>, i: nat): (h: nat) { if i < |heads| then heads[i] else 0 }

  /** Items a up to b of producer `i`. */
  function Part(committed: seq<seq<Item>>, i: nat, a: nat, b: nat): (items: seq<Item>) {
    if i < |committed| && a <= b <= |committed[i]| then committed[i][a..b] else []
  }

  /** Heads only advance, and not past what is committed. */
  ghost predicate Advances(before: seq<nat>, after: seq<nat>, committed: seq<seq<Item>>) {
    && |before| <= |after| == |committed|
    && forall i :: 0 <= i < |after| ==> HeadOf(before, i) <= after[i] <= |committed[i]|
  }

  /** What a consuming call delivers of each producer: its next committed items. */
  ghost predicate Delivers(out: seq<Tagged>, before: seq<nat>, after: seq<nat>, committed: seq<seq<Item>>) {
    && Advances(before, after, committed)
    && forall i: nat :: From(i, out) == Part(committed, i, HeadOf(before, i), HeadOf(after, i))
  }

  lemma PartsJoin(c1: seq<seq<Item>>, c2: seq<seq<Item>>, i: nat, a: nat, b: nat, c: nat)
    requires Grows(c1, c2) && a <= b <= c && (i < |c1| ==> b <= |c1[i]|) && (i < |c2| ==> c <= |c2[i]|)
      && (i >= |c1| ==> a == b)
    ensures Part(c1, i, a, b) + Part(c2, i, b, c) == Part(c2, i, a, c)
  {}

  /** One call after another. */
  lemma DeliversMore(o1: seq<Tagged>, o2: seq<Tagged>, h0: seq<nat>, h1: seq<nat>, h2: seq<nat>, c1: seq<seq<Item>>,
      c2: seq<seq<Item>>)
    requires Delivers(o1, h0, h1, c1) && Delivers(o2, h1, h2, c2) && Grows(c1, c2)
    ensures Delivers(o1 + o2, h0, h2, c2)
  {
    forall i: nat ensures From(i, o1 + o2) == Part(c2, i, HeadOf(h0, i), HeadOf(h2, i)) {
      FromConcat(i, o1, o2);
      PartsJoin(c1, c2, i, HeadOf(h0, i), HeadOf(h1, i), HeadOf(h2, i));
    }
    forall i | 0 <= i < |h2| ensures HeadOf(h0, i) <= h2[i] <= |c2[i]| {
      if i < |h1| { assert h1[i] >= HeadOf(h0, i); }
    }
  }

  /** Nothing delivered while producers commit and register. */
  lemma DeliversNothing(before: seq<nat>, after: seq<nat>, committed: seq<seq<Item>>)
    requires |before| <= |after| == |committed| && forall i :: 0 <= i < |after| ==>
      HeadOf(before, i) == after[i] <= |committed[i]|
    ensures Delivers([], before, after, committed)
  {
    forall i: nat ensures From(i, []) == Part(committed, i, HeadOf(before, i), HeadOf(after, i)) {}
  }

  lemma DeliversOne(i: nat, n: nat, heads: seq<nat>, committed: seq<seq<Item>>)
    requires |heads| == |committed| && i < |heads| && heads[i] + n <= |committed[i]|
    requires forall j :: 0 <= j < |heads| ==> heads[j] <= |committed[j]|
    ensures Delivers(Tag(i, committed[i][heads[i]..heads[i] + n]), heads, heads[i := heads[i] + n], committed)
  {
    forall j: nat
      ensures From(j, Tag(i, committed[i][heads[i]..heads[i] + n]))
        == Part(committed, j, HeadOf(heads, j), HeadOf(heads[i := heads[i] + n], j))
    {
      FromTag(j, i, committed[i][heads[i]..heads[i] + n]);
    }
  }

  /** Ring `i` was seen empty: all that its last load showed is delivered, and with prompt loads
      that is all that had been committed in `before`. */
  predicate EmptyAt(i: nat, before: seq<seq<Item>>, heads: seq<nat>, seen: seq<nat>, prompt: bool)
    requires |before| <= |heads| == |seen|
  {
    i < |before| ==> heads[i] == seen[i] && (prompt ==> |before[i]| <= heads[i])
  }

  ghost predicate EmptyUpTo(n: nat, before: seq<seq<Item>>, heads: seq<nat>, seen: seq<nat>, prompt: bool) {
    |before| <= |heads| == |seen| && forall i :: 0 <= i < n ==> EmptyAt(i, before, heads, seen, prompt)
  }

  ghost predicate AllEmpty(before: seq<seq<Item>>, heads: seq<nat>, seen: seq<nat>, prompt: bool) {
    EmptyUpTo(|before|, before, heads, seen, prompt)
  }

  /** Some ring holds an item that the next load of its tail must show. */
  ghost predicate Waiting(committed: seq<seq<Item>>, heads: seq<nat>, seen: seq<nat>, prompt: bool) {
    exists i :: 0 <= i < |heads| && i < |seen| && i < |committed|
      && (heads[i] < seen[i] || (prompt && heads[i] < |committed[i]|))
  }

  /** A call that leaves every ring empty has delivered what was waiting. */
  lemma WaitingDelivered(out: seq<Tagged>, c0: seq<seq<Item>>, h0: seq<nat>, s0: seq<nat>, c1: seq<seq<Item>>,
      h1: seq<nat>, s1: seq<nat>, prompt: bool)
    requires Waiting(c0, h0, s0, prompt) && Delivers(out, h0, h1, c1) && AllEmpty(c0, h1, s1, prompt)
    requires |s0| <= |s1| && forall i :: 0 <= i < |s0| ==> s0[i] <= s1[i]
    ensures out != []
  {
    var i :| 0 <= i < |h0| && i < |s0| && i < |c0| && (h0[i] < s0[i] || (prompt && h0[i] < |c0[i]|));
    assert EmptyAt(i, c0, h1, s1, prompt);
    assert From(i, out) == Part(c1, i, HeadOf(h0, i), HeadOf(h1, i));
    assert HeadOf(h0, i) <= h1[i] <= |c1[i]| && |From(i, out)| > 0;
  }

  /** The rings' turns are in order, and a ring has its turn only when all before it are empty. */
  ghost predicate InTurn(out: seq<Tagged>, before: seq<seq<Item>>, heads: seq<nat>, seen: seq<nat>, prompt: bool) {
    && (forall a, b :: 0 <= a < b < |out| ==> out[a].producer <= out[b].producer)
    && (out != [] ==> EmptyUpTo(out[|out| - 1].producer, before, heads, seen, prompt))
  }

  lemma NextTurn(out: seq<Tagged>, more: seq<Tagged>, n: nat, c0: seq<seq<Item>>, h1: seq<nat>, s1: seq<nat>,
      h2: seq<nat>, s2: seq<nat>, prompt: bool)
    requires InTurn(out, c0, h1, s1, prompt) && EmptyUpTo(n, c0, h1, s1, prompt) && n < |c0|
    requires (forall x :: x in out ==> x.producer < n) && forall x :: x in more ==> x.producer == n
    requires |h1| <= |h2| == |s2| && forall j :: 0 <= j < |h1| && j != n ==> h2[j] == h1[j] && s2[j] == s1[j]
    ensures InTurn(out + more, c0, h2, s2, prompt) && forall x :: x in out + more ==> x.producer < n + 1
  {
    var all := out + more;
    forall a | 0 <= a < |all|
      ensures all[a].producer <= n && (a < |out| ==> all[a] == out[a]) && (a >= |out| ==> all[a].producer == n)
    {
      if a < |out| { assert out[a] in out; } else { assert more[a - |out|] in more; }
    }
    forall i | 0 <= i < n ensures EmptyAt(i, c0, h2, s2, prompt) { assert EmptyAt(i, c0, h1, s1, prompt); }
  }

  /** Ring `n` joins those seen empty, the others being untouched. */
  lemma OneMoreEmpty(n: nat, c0: seq<seq<Item>>, c1: seq<seq<Item>>, h1: seq<nat>, s1: seq<nat>, h2: seq<nat>,
      s2: seq<nat>, prompt: bool)
    requires n < |c0| && Grows(c0, c1) && |c1| == |h1| <= |h2| == |s2| && |s1| == |h1|
    requires EmptyUpTo(n, c0, h1, s1, prompt) && EmptyAt(n, c1, h2, s2, prompt)
    requires forall j :: 0 <= j < |h1| && j != n ==> h2[j] == h1[j] && s2[j] == s1[j]
    ensures EmptyUpTo(n + 1, c0, h2, s2, prompt)
  {
    forall i | 0 <= i < n + 1 ensures EmptyAt(i, c0, h2, s2, prompt) {
      if i < n { assert EmptyAt(i, c0, h1, s1, prompt); } else { assert c0[n] <= c1[n]; }
    }
  }

  /** Over any number of calls, what has been delivered of a producer is a prefix of what that
      producer committed, and the rest is still in its ring. */
  lemma DeliveredIsPrefix(out: seq<Tagged>, heads: seq<nat>, committed: seq<seq<Item>>, i: nat)
    requires Delivers(out, [], heads, committed) && i < |committed|
    ensures heads[i] <= |committed[i]| && From(i, out) == committed[i][..heads[i]]
    ensures From(i, out) + committed[i][heads[i]..] == committed[i]
  {
    assert From(i, out) == Part(committed, i, HeadOf([], i), HeadOf(heads, i));
  }

  /** Empty for what was committed later is empty for what was committed earlier. */
  lemma EmptyEarlier(c0: seq<seq<Item>>, c1: seq<seq<Item>>, heads: seq<nat>, seen: seq<nat>, prompt: bool)
    requires Grows(c0, c1) && AllEmpty(c1, heads, seen, prompt)
    ensures AllEmpty(c0, heads, seen, prompt)
  {
    forall i | 0 <= i < |c0| ensures EmptyAt(i, c0, heads, seen, prompt) {
      assert EmptyAt(i, c1, heads, seen, prompt) && c0[i] <= c1[i];
    }
  }

  /** What a loaded word stands for. */
  lemma LoadedTail(r: Ring, t: nat)
    requires Inv(r) && (t == Wrap(r).tail || Between(Wrapping, Wrap(r).seenTail, t, Wrap(r).tail))
    ensures Between(Wrapping, Wrap(r).seenTail, t, Wrap(r).tail)
    ensures r.seenTail <= Unwrap(r.seenTail, t) <= r.tail && (t == Wrap(r).tail ==> Unwrap(r.seenTail, t) == r.tail)
  {
    CapBelowLimit(r.bits);
    WrappedSub(r.tail, r.seenTail);
    UnwrapLoad(r.seenTail, t, r.tail);
  }

  lemma VisitDelivers(i: nat, before: seq<nat>, after: seq<nat>, committed: seq<seq<Item>>, out: seq<Tagged>)
    requires i < |before| <= |after| == |committed| && before[i] <= after[i]
    requires forall j :: 0 <= j < |after| ==> after[j] <= |committed[j]|
    requires forall j :: 0 <= j < |before| && j != i ==> after[j] == before[j]
    requires forall j :: |before| <= j < |after| ==> after[j] == 0
    requires out == Tag(i, committed[i][before[i]..after[i]])
    ensures Delivers(out, before, after, committed)
  {
    forall j: nat ensures From(j, out) == Part(committed, j, HeadOf(before, j), HeadOf(after, j)) {
      FromTag(j, i, committed[i][before[i]..after[i]]);
    }
  }

  lemma TagSnoc(i: nat, items: seq<Item>, a: nat, b: nat)
    requires a <= b < |items|
    ensures Tag(i, items[a..b + 1]) == Tag(i, items[a..b]) + [Tagged(i, items[b])]
  {
    assert items[a..b + 1] == items[a..b] + [items[b]];
  }

  lemma AppendNothing(committed: seq<seq<Item>>, i: nat, none: seq<Item>)
    requires i < |committed| && Held(none) == []
    ensures committed[i := committed[i] + none] == committed
  {
    assert none == [];
    assert committed[i] + none == committed[i];
  }

  lemma TakenIs(w: Ring)
    requires Shaped(w) && w.consumer.Reading? && w.consumer.pos < LIMIT
    ensures Taken(Wrapping, w, Read) == [At(Wrapping, w.bits, w.slots, w.consumer.pos)]
  {
    AddZero(w.consumer.pos);
  }

  /** What another thread does: an atomic step of a producer, or a registration if `ring` is the next
      one. */
  datatype Act = Act(ring: nat, step: Step)

  /** The rings after one such act; one that is not possible does nothing. */
  function AfterAct(rings: seq<Ring>, bits: nat, max: nat, act: Act): (rings': seq<Ring>) {
    var i, step := act.ring, act.step;
    if i < |rings| && Shaped(rings[i]) && (IsProducerStep(step) || step.Close?) && Enabled(Wrapping, rings[i], step)
    then rings[i := Exec(Wrapping, rings[i], step)]
    else if i == |rings| && |rings| < max then rings + [Fresh(bits, Heap, Consuming, 0)]
    else rings
  }

  function AfterActs(rings: seq<Ring>, bits: nat, max: nat, acts: seq<Act>): (rings': seq<Ring>) {
    if acts == [] then rings
    else AfterAct(AfterActs(rings, bits, max, acts[..|acts| - 1]), bits, max, acts[|acts| - 1])
  }

  class MpscChannel {
    const bits: nat
    /** `max_producers`. */
    const max: nat
    /** Whether a load of a tail returns the newest value; otherwise it may lag behind. */
    const prompt: bool
    /** The rings, with 64-bit counters and their slots. */
    var rings: seq<Ring>
    /** The rings with unbounded counters that they stand for. */
    ghost var ideal: seq<Ring>
    /** What each producer has committed, how many of its items were read, and how many the last
        load of its tail showed. */
    ghost var committed: seq<seq<Item>>
    ghost var heads: seq<nat>
    ghost var seen: seq<nat>

    ghost predicate Valid()
      reads this
    {
      && bits <= 63 && |rings| <= max && |rings| == |ideal| == |committed| == |heads| == |seen|
      && forall i :: 0 <= i < |rings| ==> RingOk(rings[i], ideal[i], committed[i], heads[i], seen[i])
    }

    /** No consuming call is under way. */
    ghost predicate Quiet()
      reads this
    {
      forall i :: 0 <= i < |ideal| ==> ideal[i].consumer == Resting
    }

    constructor (bits: nat, max: nat, prompt: bool)
      requires bits <= 63
      ensures Valid() && Quiet() && committed == [] && this.max == max && this.prompt == prompt
    {
      this.bits, this.max, this.prompt := bits, max, prompt;
      rings, ideal, committed, heads, seen := [], [], [], [], [];
    }

    /** One atomic step on ring `i`. */
    method Do(i: nat, step: Step)
      requires Valid() && i < |rings| && Enabled(Wrapping, rings[i], step) && Usual(step)
      modifies this
      ensures Valid() && |rings| == |old(rings)| && Enabled(Unbounded, old(ideal)[i], Lift(old(ideal)[i], step))
      ensures rings == old(rings)[i := Exec(Wrapping, old(rings)[i], step)]
      ensures ideal == old(ideal)[i := Exec(Unbounded, old(ideal)[i], Lift(old(ideal)[i], step))]
      ensures committed == old(committed)[i := old(committed)[i] + NewItems(old(rings)[i], step)]
      ensures heads == old(heads)[i := ReadPos(ideal[i])] && seen == old(seen)[i := ideal[i].seenTail]
      ensures old(heads)[i] <= heads[i] <= |committed[i]|
      ensures Taken(Wrapping, old(rings)[i], step) == Held(committed[i][old(heads)[i]..heads[i]])
    {
      RingStep(rings[i], ideal[i], committed[i], heads[i], seen[i], step);
      committed := committed[i := committed[i] + NewItems(rings[i], step)];
      rings := rings[i := Exec(Wrapping, rings[i], step)];
      ideal := ideal[i := Exec(Unbounded, ideal[i], Lift(ideal[i], step))];
      heads, seen := heads[i := ReadPos(ideal[i])], seen[i := ideal[i].seenTail];
    }

    /** Since then only producers have moved. */
    ghost predicate Undisturbed(ideal0: seq<Ring>, committed0: seq<seq<Item>>, heads0: seq<nat>, seen0: seq<nat>)
      reads this
    {
      && |ideal0| == |heads0| == |seen0| == |committed0| <= |ideal| == |heads| == |seen| == |committed|
        && Grows(committed0, committed)
      && (forall j :: 0 <= j < |ideal0| ==>
            heads[j] == heads0[j] && seen[j] == seen0[j] && ideal[j].consumer == ideal0[j].consumer)
      && (forall j :: |ideal0| <= j < |ideal| ==> heads[j] == 0 && ideal[j].consumer == Resting)
    }

    /** A step of a producer, or of a thread that closes the ring. */
    method ProducerDoes(i: nat, step: Step, ghost ideal0: seq<Ring>, ghost committed0: seq<seq<Item>>,
        ghost heads0: seq<nat>, ghost seen0: seq<nat>)
      requires Valid() && i < |rings| && Enabled(Wrapping, rings[i], step) && (IsProducerStep(step) || step.Close?)
      requires Undisturbed(ideal0, committed0, heads0, seen0)
      modifies this
      ensures Valid() && Undisturbed(ideal0, committed0, heads0, seen0)
      ensures rings == old(rings)[i := Exec(Wrapping, old(rings)[i], step)]
      ensures committed == old(committed)[i := old(committed)[i] + NewItems(old(rings)[i], step)]
    {
      ghost var r, c := ideal[i], committed;
      Do(i, step);
      ProducerSide(r, Lift(r, step));
      assert heads == old(heads) && seen == old(seen);
      GrowsMore(committed0, c, committed);
    }

    /** A producer registers: a fresh ring behind the others. */
    method Register(ghost ideal0: seq<Ring>, ghost committed0: seq<seq<Item>>, ghost heads0: seq<nat>,
        ghost seen0: seq<nat>)
      requires Valid() && |rings| < max && Undisturbed(ideal0, committed0, heads0, seen0)
      modifies this
      ensures Valid() && Undisturbed(ideal0, committed0, heads0, seen0)
      ensures rings == old(rings) + [Fresh(bits, Heap, Consuming, 0)] && committed == old(committed) + [[]]
    {
      FreshOk(bits);
      var r := Fresh(bits, Heap, Consuming, 0);
      rings, ideal, committed, heads, seen := rings + [r], ideal + [r], committed + [[]], heads + [0], seen + [0];
    }

    /** One act of another thread. */
    method Perform(act: Act, ghost ideal0: seq<Ring>, ghost committed0: seq<seq<Item>>, ghost heads0: seq<nat>,
        ghost seen0: seq<nat>)
      requires Valid() && Undisturbed(ideal0, committed0, heads0, seen0)
      modifies this
      ensures Valid() && Undisturbed(ideal0, committed0, heads0, seen0)
      ensures rings == AfterAct(old(rings), bits, max, act)
    {
      var i, step := act.ring, act.step;
      if i < |rings| && (IsProducerStep(step) || step.Close?) && Enabled(Wrapping, rings[i], step) {
        ProducerDoes(i, step, ideal0, committed0, heads0, seen0);
      } else if i == |rings| && |rings| < max {
        Register(ideal0, committed0, heads0, seen0);
      }
    }

    /** Other threads run for a while: any producers take any steps they can, and register. */
    method Traffic(todo: seq<Act>)
      requires Valid()
      modifies this
      ensures Valid() && Undisturbed(old(ideal), old(committed), old(heads), old(seen))
      ensures rings == AfterActs(old(rings), bits, max, todo)
    {
      ghost var r0, c0, h0, s0 := ideal, committed, heads, seen;
      var k := 0;
      while k < |todo|
        invariant k <= |todo| && Valid() && Undisturbed(r0, c0, h0, s0)
        invariant rings == AfterActs(old(rings), bits, max, todo[..k])
      {
        assert todo[..k + 1][..k] == todo[..k];
        Perform(todo[k], r0, c0, h0, s0);
        k := k + 1;
      }
      assert todo[..k] == todo;
    }

    /** Only ring `i` moved, and only on the consumer's side. */
    ghost predicate OnlyConsumer(i: nat, ideal0: seq<Ring>, committed0: seq<seq<Item>>, heads0: seq<nat>,
        seen0: seq<nat>)
      reads this
    {
      && |ideal0| == |ideal| && |heads0| == |heads| && |seen0| == |seen| && committed == committed0
      && forall j :: 0 <= j < |ideal| && j < |heads| && j < |seen| && j != i ==>
           ideal[j] == ideal0[j] && heads[j] == heads0[j] && seen[j] == seen0[j]
    }

    /** An atomic step of the consumer. */
    method ConsumerDoes(i: nat, step: Step)
      requires Valid() && i < |rings| && Enabled(Wrapping, rings[i], step)
        && (step.LoadTail? || step.Read? || step.Finish?)
      modifies this
      ensures Valid() && OnlyConsumer(i, old(ideal), old(committed), old(heads), old(seen))
      ensures Enabled(Unbounded, old(ideal)[i], Lift(old(ideal)[i], step))
      ensures ideal[i] == Exec(Unbounded, old(ideal)[i], Lift(old(ideal)[i], step))
      ensures heads[i] == ReadPos(ideal[i]) && seen[i] == ideal[i].seenTail
      ensures old(heads)[i] <= heads[i] <= |committed[i]|
      ensures Taken(Wrapping, old(rings)[i], step) == Held(committed[i][old(heads)[i]..heads[i]])
    {
      ghost var none := NewItems(rings[i], step);
      AppendNothing(committed, i, none);
      Do(i, step);
    }

    /** The acquire load of ring `i`'s tail that starts a consuming call. */
    method LoadTail(i: nat, limit: Limit)
      requires Valid() && i < |rings| && ideal[i].consumer == Resting && limit != UpTo(0)
      modifies this
      ensures Valid() && OnlyConsumer(i, old(ideal), old(committed), old(heads), old(seen)) && heads[i] == old(heads)[i]
      ensures old(seen)[i] <= seen[i] <= |committed[i]| && (prompt ==> seen[i] == |committed[i]|)
      ensures heads[i] <= seen[i] && Left(ideal[i]) == TakeCount(limit, seen[i] - heads[i])
      ensures ideal[i].consumer == Resting || ideal[i].consumer.Reading?
    {
      ghost var r := ideal[i];
      var w := rings[i];
      var t: nat := *;
      if prompt || !Between(Wrapping, w.seenTail, t, w.tail) { t := w.tail; }
      LoadedTail(r, t);
      LoadSets(r, limit, Unwrap(r.seenTail, t));
      ConsumerDoes(i, Step.LoadTail(limit, t));
    }

    /** One turn of the consuming loop: the item is moved out of its slot. */
    method ReadOne(i: nat) returns (item: Item)
      requires Valid() && i < |rings| && ideal[i].consumer.Reading? && Left(ideal[i]) > 0
      modifies this
      ensures Valid() && OnlyConsumer(i, old(ideal), old(committed), old(heads), old(seen)) && seen[i] == old(seen)[i]
      ensures heads[i] == old(heads)[i] + 1 <= |committed[i]| && item == committed[i][old(heads)[i]]
      ensures ideal[i].consumer.Reading? && Left(ideal[i]) == Left(old(ideal)[i]) - 1
    {
      ghost var r := ideal[i];
      var w := rings[i];
      LoopTest(r);
      StepAgrees(r, Read);
      ReadTakes(r);
      TakenIs(w);
      var cell := At(Wrapping, w.bits, w.slots, w.consumer.pos);
      ConsumerDoes(i, Read);
      assert [cell][0] == Held(committed[i][old(heads)[i]..heads[i]])[0];
      item := cell.item;
    }

    /** The store of the head that ends a consuming call. */
    method StoreHead(i: nat)
      requires Valid() && i < |rings| && ideal[i].consumer.Reading? && Left(ideal[i]) == 0
      modifies this
      ensures Valid() && OnlyConsumer(i, old(ideal), old(committed), old(heads), old(seen)) && seen[i] == old(seen)[i]
      ensures heads[i] == old(heads)[i] && ideal[i].consumer == Resting
    {
      ghost var r := ideal[i];
      LoopTest(r);
      StepAgrees(r, Finish);
      FinishRests(r);
      ConsumerDoes(i, Finish);
    }

    /** Inside the visit of ring `i`: `out` has been read from it, n items in all will be. */
    ghost predicate Visiting(i: nat, committed0: seq<seq<Item>>, heads0: seq<nat>, seen0: seq<nat>, n: nat,
        out: seq<Tagged>)
      reads this
    {
      && i < |heads0| == |seen0| == |committed0| <= |heads| == |seen| == |committed| == |ideal|
        && Grows(committed0, committed)
      && (forall j :: 0 <= j < |heads0| && j != i ==>
            heads[j] == heads0[j] && seen[j] == seen0[j] && ideal[j].consumer == Resting)
      && (forall j :: |heads0| <= j < |heads| ==> heads[j] == 0 && ideal[j].consumer == Resting)
      && seen[i] == seen0[i] && heads[i] == heads0[i] + |out| <= |committed[i]|
      && Left(ideal[i]) + |out| == n && (ideal[i].consumer == Resting || ideal[i].consumer.Reading?)
      && out == Tag(i, committed[i][heads0[i]..heads[i]])
    }

    /** Other threads do not disturb a visit. */
    method TrafficInVisit(i: nat, ghost committed0: seq<seq<Item>>, ghost heads0: seq<nat>, ghost seen0: seq<nat>,
        ghost n: nat, ghost out: seq<Tagged>)
      requires Valid() && Visiting(i, committed0, heads0, seen0, n, out)
      modifies this
      ensures Valid() && Visiting(i, committed0, heads0, seen0, n, out)
      ensures ideal[i].consumer == old(ideal)[i].consumer
    {
      var todo: seq<Act> := *;
      Traffic(todo);
      assert committed[i][heads0[i]..heads[i]] == old(committed)[i][heads0[i]..heads[i]];
    }

    method ReadInVisit(i: nat, ghost committed0: seq<seq<Item>>, ghost heads0: seq<nat>, ghost seen0: seq<nat>,
        ghost n: nat, out: seq<Tagged>)
      returns (out': seq<Tagged>)
      requires Valid() && Visiting(i, committed0, heads0, seen0, n, out) && ideal[i].consumer.Reading?
        && Left(ideal[i]) > 0
      modifies this
      ensures Valid() && Visiting(i, committed0, heads0, seen0, n, out') && |out'| == |out| + 1
        && ideal[i].consumer.Reading?
    {
      ghost var h := heads[i];
      var item := ReadOne(i);
      out' := out + [Tagged(i, item)];
      TagSnoc(i, committed[i], heads0[i], h);
    }

    /** The start of a visit: other threads run, then the tail is loaded. */
    method StartVisit(i: nat, limit: Limit)
      requires Valid() && Quiet() && i < |rings| && limit != UpTo(0)
      modifies this
      ensures Valid() && |old(heads)| <= |heads| == |seen|
      ensures var s := seen[..|old(seen)|];
              Visiting(i, old(committed), old(heads), s, TakeCount(limit, seen[i] - heads[i]), [])
                && heads[i] <= seen[i]
      ensures old(seen)[i] <= seen[i] && (prompt ==> |old(committed)[i]| <= seen[i])
      ensures forall j :: 0 <= j < |old(seen)| && j != i ==> seen[j] == old(seen)[j]
    {
      var todo: seq<Act> := *;
      Traffic(todo);
      LoadTail(i, limit);
      assert committed[i][heads[i]..heads[i]] == [];
      assert old(committed)[i] <= committed[i];
    }

    /** The loop of a consuming call. */
    method ReadAll(i: nat, ghost committed0: seq<seq<Item>>, ghost heads0: seq<nat>, ghost seen0: seq<nat>,
        ghost n: nat) returns (out: seq<Tagged>)
      requires Valid() && Visiting(i, committed0, heads0, seen0, n, [])
      modifies this
      ensures Valid() && Visiting(i, committed0, heads0, seen0, n, out) && |out| == n
    {
      out := [];
      while rings[i].consumer.Reading? && rings[i].consumer.pos != rings[i].consumer.end
        invariant Valid() && Visiting(i, committed0, heads0, seen0, n, out) && |out| <= n
        decreases n - |out|
      {
        LoopTest(ideal[i]);
        TrafficInVisit(i, committed0, heads0, seen0, n, out);
        out := ReadInVisit(i, committed0, heads0, seen0, n, out);
      }
      if ideal[i].consumer.Reading? { LoopTest(ideal[i]); }
    }

    /** The end of a visit: other threads run, then the head is stored. */
    method StoreInVisit(i: nat, ghost committed0: seq<seq<Item>>, ghost heads0: seq<nat>, ghost seen0: seq<nat>,
        ghost n: nat, ghost out: seq<Tagged>)
      requires Valid() && Visiting(i, committed0, heads0, seen0, n, out) && |out| == n && ideal[i].consumer.Reading?
      modifies this
      ensures Valid() && Quiet() && Visiting(i, committed0, heads0, seen0, n, out)
    {
      StoreHead(i);
    }

    method EndVisit(i: nat, ghost committed0: seq<seq<Item>>, ghost heads0: seq<nat>, ghost seen0: seq<nat>,
        ghost n: nat, ghost out: seq<Tagged>)
      requires Valid() && Visiting(i, committed0, heads0, seen0, n, out) && |out| == n
      modifies this
      ensures Valid() && Quiet() && Visiting(i, committed0, heads0, seen0, n, out)
      ensures Delivers(out, heads0, heads, committed)
    {
      TrafficInVisit(i, committed0, heads0, seen0, n, out);
      if rings[i].consumer.Reading? { StoreInVisit(i, committed0, heads0, seen0, n, out); }
      VisitDelivers(i, heads0, heads, committed, out);
    }

    /** `consume_batch` or `consume_up_to` on ring `i`, with other threads running between any two of
        its atomic steps. */
    method Visit(i: nat, limit: Limit) returns (out: seq<Tagged>)
      requires Valid() && Quiet() && i < |rings| && limit != UpTo(0)
      modifies this
      ensures Valid() && Quiet() && Grows(old(committed), committed) && Delivers(out, old(heads), heads, committed)
      ensures limit.UpTo? ==> |out| <= limit.max
      ensures EmptyAt(i, old(committed), heads, seen, prompt) || (limit.UpTo? && |out| == limit.max)
      ensures forall j :: 0 <= j < |old(heads)| && j != i ==> heads[j] == old(heads)[j] && seen[j] == old(seen)[j]
      ensures old(seen)[i] <= seen[i] && forall x :: x in out ==> x.producer == i
    {
      ghost var c0, h0 := committed, heads;
      StartVisit(i, limit);
      ghost var s0, t := seen[..|h0|], seen[i];
      ghost var n := TakeCount(limit, t - heads[i]);
      out := ReadAll(i, c0, h0, s0, n);
      EndVisit(i, c0, h0, s0, n, out);
    }

    /** The first n rings have had their turn and gave `out`. */
    ghost predicate Consumed(n: nat, c0: seq<seq<Item>>, h0: seq<nat>, s0: seq<nat>, limit: Limit, out: seq<Tagged>)
      reads this
    {
      && Grows(c0, committed) && Delivers(out, h0, heads, committed) && (limit.UpTo? ==> |out| <= limit.max)
      && |committed| == |seen| && |s0| == |c0| && (forall j :: 0 <= j < |s0| ==> s0[j] <= seen[j])
      && (EmptyUpTo(n, c0, heads, seen, prompt) || (limit.UpTo? && |out| == limit.max))
      && InTurn(out, c0, heads, seen, prompt) && forall x :: x in out ==> x.producer < n
    }

    /** The turn of ring `n`, when the limit is not reached yet. */
    method VisitNext(n: nat, ghost c0: seq<seq<Item>>, ghost h0: seq<nat>, ghost s0: seq<nat>, limit: Limit,
        out: seq<Tagged>) returns (out': seq<Tagged>)
      requires Valid() && Quiet() && Consumed(n, c0, h0, s0, limit, out) && n < |c0|
      requires limit.UpTo? ==> |out| < limit.max
      modifies this
      ensures Valid() && Quiet() && Consumed(n + 1, c0, h0, s0, limit, out')
    {
      ghost var h1, s1, c1 := heads, seen, committed;
      var more := Visit(n, if limit.UpTo? then UpTo(limit.max - |out|) else All);
      DeliversMore(out, more, h0, h1, heads, c1, committed);
      NextTurn(out, more, n, c0, h1, s1, heads, seen, prompt);
      if EmptyAt(n, c1, heads, seen, prompt) { OneMoreEmpty(n, c0, c1, h1, s1, heads, seen, prompt); }
      out' := out + more;
    }

    /** The `consume_all` family: the rings registered at the start, in order, until the limit.
        A ring keeps items that its load showed only if the limit was reached. */
    method ConsumeAll(limit: Limit) returns (out: seq<Tagged>)
      requires Valid() && Quiet()
      modifies this
      ensures Valid() && Quiet() && Grows(old(committed), committed) && Delivers(out, old(heads), heads, committed)
      ensures limit.UpTo? ==> |out| <= limit.max
      ensures AllEmpty(old(committed), heads, seen, prompt) || (limit.UpTo? && |out| == limit.max)
      ensures InTurn(out, old(committed), heads, seen, prompt)
      ensures limit != UpTo(0) && Waiting(old(committed), old(heads), old(seen), prompt) ==> out != []
    {
      ghost var c0, h0, s0 := committed, heads, seen;
      var count := |rings|;
      out := [];
      DeliversNothing(h0, heads, committed);
      for i := 0 to count
        invariant Valid() && Quiet() && Consumed(i, c0, h0, s0, limit, out)
      {
        if limit.UpTo? && |out| >= limit.max { break; }
        out := VisitNext(i, c0, h0, s0, limit, out);
      }
      if AllEmpty(c0, heads, seen, prompt) && Waiting(c0, h0, s0, prompt) {
        WaitingDelivered(out, c0, h0, s0, committed, heads, seen, prompt);
      }
    }
  }
}
