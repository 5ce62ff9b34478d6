/** `StackProducer::send` with the consumer running concurrently: over every interleaving it is
    all-or-nothing, in at most two reservations. */
module RingSend {
  import opened Words
  import opened RingRun
  import opened RingProof
  import opened RingWrap

  /** Where the call is: about to test `closed`, about to reserve, copying, or returned. `sent` is
      the local counter of the loop. */
  datatype Pc = Asking(sent: nat) | Asked(sent: nat) | Filling(sent: nat, copied: nat) | Done(sent: nat)

  function Start(items: seq<Item>): (pc: Pc) { if items == [] then Done(0) else Asking(0) }

  /** The producer step is the one the call takes next. */
  predicate Follows(items: seq<Item>, pc: Pc, r: Ring, step: Step) {
    match pc
    case Asking(_) => step == Check
    case Asked(sent) => step.Reserve? && sent <= |items| && step.n == |items| - sent
    case Filling(sent, copied) =>
      && r.producer.Reserved?
      && (if copied < r.producer.len then sent + copied < |items| && step == Write(copied, items[sent + copied])
          else step == RingRun.Commit(copied))
    case Done(_) => false
  }

  /** Where it is after that step, which led to ring `r'`. */
  function NextPc(items: seq<Item>, pc: Pc, step: Step, r': Ring): (pc': Pc) {
    match pc
    case Asking(sent) => if r'.producer == Checked then Asked(sent) else Done(sent)
    case Asked(sent) => if r'.producer.Reserved? then Filling(sent, 0) else Done(sent)
    case Filling(sent, copied) =>
      if step.Write? then Filling(sent, copied + 1)
      else if sent + copied < |items| then Asking(sent + copied) else Done(sent + copied)
    case Done(_) => pc
  }

  predicate IsConsumerStep(step: Step) { step.LoadTail? || step.Read? || step.Finish? || step.Peek? || step.Advance? }

  /** A run in which the producer executes `send(items)` from `pc` on and the consumer does what it
      likes. The ring is neither closed nor dropped meanwhile. */
  ghost predicate Sends(a: Arith, r: Ring, items: seq<Item>, pc: Pc, steps: seq<Step>)
    requires Shaped(r)
    decreases |steps|
  {
    steps == [] ||
    (&& Enabled(a, r, steps[0])
     && var r' := Exec(a, r, steps[0]);
     if IsConsumerStep(steps[0]) then Sends(a, r', items, pc, steps[1..])
     else Follows(items, pc, r, steps[0]) && Sends(a, r', items, NextPc(items, pc, steps[0], r'), steps[1..]))
  }

  ghost function PcAfter(items: seq<Item>, pc: Pc, step: Step, r': Ring): (pc': Pc) {
    if IsConsumerStep(step) then pc else NextPc(items, pc, step, r')
  }

  ghost function EndPc(a: Arith, r: Ring, items: seq<Item>, pc: Pc, steps: seq<Step>): (pc': Pc)
    requires Shaped(r) && Sends(a, r, items, pc, steps)
    decreases |steps|
  {
    if steps == [] then pc
    else
      var r' := Exec(a, r, steps[0]);
      EndPc(a, r', items, PcAfter(items, pc, steps[0], r'), steps[1..])
  }

  lemma {:induction false} SendsRuns(a: Arith, r: Ring, items: seq<Item>, pc: Pc, steps: seq<Step>)
    requires Shaped(r) && Sends(a, r, items, pc, steps)
    ensures Runs(a, r, steps)
    decreases |steps|
  {
    if steps != [] {
      var r' := Exec(a, r, steps[0]);
      SendsRuns(a, r', items, PcAfter(items, pc, steps[0], r'), steps[1..]);
    }
  }

  /** How many `reserve` calls succeed in the run, and how many steps the producer takes. */
  ghost function Reservations(a: Arith, r: Ring, steps: seq<Step>): (n: nat)
    requires Shaped(r) && Runs(a, r, steps)
    decreases |steps|
  {
    if steps == [] then 0
    else
      var r' := Exec(a, r, steps[0]);
      (if steps[0].Reserve? && r'.producer.Reserved? then 1 else 0) + Reservations(a, r', steps[1..])
  }

  function ProducerSteps(steps: seq<Step>): (n: nat) {
    if steps == [] then 0 else (if IsConsumerStep(steps[0]) then 0 else 1) + ProducerSteps(steps[1..])
  }

  /** The head that the first `reserve` of the run loads, or would load. */
  function FirstLoad(steps: seq<Step>): (heads: seq<nat>) {
    if steps == [] then [] else if steps[0].Reserve? then [steps[0].head] else FirstLoad(steps[1..])
  }

  /** That head, or the cached one, leaves room for n items. */
  predicate HasRoom(a: Arith, r: Ring, n: nat, head: nat) {
    0 < n <= Cap(r) && (Space(a, r, r.cachedHead) >= n || Space(a, r, head) >= n)
  }

  predicate Granted(a: Arith, r: Ring, n: nat, steps: seq<Step>) {
    FirstLoad(steps) != [] && HasRoom(a, r, n, FirstLoad(steps)[0])
  }

  // ----- The invariant of the call -----

  /** After the first reservation was granted. */
  predicate Granting(items: seq<Item>, pc: Pc) { pc.Filling? || 0 < pc.sent }

  /** A reservation for n items: all of them if it is the second one, and otherwise the rest is
      promised behind it. */
  predicate HoldsSpace(r: Ring, n: int, second: bool) {
    && r.producer.Reserved? && 0 < r.producer.len <= n && (second ==> r.producer.len == n)
    && (r.producer.len < n ==> Promised(r.(tail := r.tail + r.producer.len), n - r.producer.len))
  }

  ghost predicate SendInv(r: Ring, items: seq<Item>, pc: Pc) {
    && Inv(r) && r.alive && r.kind == Stack && !r.closed && pc.sent <= |items|
    && match pc
       case Asking(sent) => r.producer == Idle && sent < |items| && (sent > 0 ==> Promised(r, |items| - sent))
       case Asked(sent) => r.producer == Checked && sent < |items| && (sent > 0 ==> Promised(r, |items| - sent))
       case Filling(sent, copied) =>
         && HoldsSpace(r, |items| - sent, sent > 0) && copied <= r.producer.len
         && r.slots[r.producer.idx..r.producer.idx + copied] == Held(items[sent..sent + copied])
       case Done(sent) => r.producer == Idle && (sent == 0 || sent == |items|)
  }

  /** Reservations that the call has made at `pc` or may still make. */
  function Budget(items: seq<Item>, pc: Pc): (n: nat) {
    match pc
    case Asking(sent) => if sent == 0 then 2 else 1
    case Asked(sent) => if sent == 0 then 2 else 1
    case Filling(sent, _) => if sent == 0 then 1 else 0
    case Done(_) => 0
  }

  /** Producer steps that are left at most. */
  function StepsLeft(items: seq<Item>, pc: Pc): (n: int) {
    match pc
    case Asking(sent) => |items| - sent + (if sent == 0 then 6 else 3)
    case Asked(sent) => |items| - sent + (if sent == 0 then 5 else 2)
    case Filling(sent, copied) => |items| - sent - copied + (if sent == 0 then 4 else 1)
    case Done(_) => 0
  }

  /** What a consumer step does not change. */
  lemma ConsumerFrame(r: Ring, step: Step)
    requires Inv(r) && Enabled(Unbounded, r, step) && IsConsumerStep(step)
    ensures var r' := Exec(Unbounded, r, step);
            && Inv(r') && r'.alive && r'.kind == r.kind && r'.closed == r.closed && r'.bits == r.bits
            && r'.tail == r.tail && r'.cachedHead == r.cachedHead && r'.producer == r.producer
  {
    StepRefines(r, step);
  }

  /** Reading out a committed item leaves the reserved slots alone. */
  lemma ReservedUntouched(r: Ring, step: Step, n: nat)
    requires Inv(r) && Enabled(Unbounded, r, step) && IsConsumerStep(step) && r.producer.Reserved?
      && n <= r.producer.len
    ensures var r', i := Exec(Unbounded, r, step), r.producer.idx; r'.slots[i..i + n] == r.slots[i..i + n]
  {
    var r', i := Exec(Unbounded, r, step), r.producer.idx;
    var before, after := r.slots[i..i + n], r'.slots[i..i + n];
    if step.Read? {
      forall j | 0 <= j < n ensures after[j] == before[j] {
        NoOverlap(r, j, r.consumer.pos);
      }
    }
  }

  /** The consumer cannot disturb the call. */
  lemma ConsumerKeeps(r: Ring, items: seq<Item>, pc: Pc, step: Step)
    requires SendInv(r, items, pc) && Enabled(Unbounded, r, step) && IsConsumerStep(step)
    ensures SendInv(Exec(Unbounded, r, step), items, pc) && Committed(r, step) == []
  {
    ConsumerFrame(r, step);
    if pc.Filling? { ReservedUntouched(r, step, pc.copied); }
  }

  lemma CheckKeeps(r: Ring, items: seq<Item>, pc: Pc)
    requires SendInv(r, items, pc) && pc.Asking? && Enabled(Unbounded, r, Check)
    ensures SendInv(Exec(Unbounded, r, Check), items, Asked(pc.sent))
  {
    StepRefines(r, Check);
  }

  lemma ReserveGranted(r: Ring, n: nat, head: nat)
    requires Inv(r) && r.producer == Checked && Enabled(Unbounded, r, Reserve(n, head))
    ensures var r' := Exec(Unbounded, r, Reserve(n, head));
            && (r'.producer.Reserved? <==> HasRoom(Unbounded, r, n, head))
              && (!r'.producer.Reserved? ==> r'.producer == Idle)
            && (r'.producer.Reserved? ==> 0 < r'.producer.len <= n)
            && r'.alive == r.alive && r'.kind == r.kind && r'.closed == r.closed
  {}

  lemma ReserveHolds(r: Ring, n: nat, head: nat, second: bool)
    requires Inv(r) && r.producer == Checked && Enabled(Unbounded, r, Reserve(n, head)) && (second ==> Promised(r, n))
    ensures var r' := Exec(Unbounded, r, Reserve(n, head));
            && Inv(r') && r'.alive == r.alive && r'.kind == r.kind && r'.closed == r.closed
            && (r'.producer.Reserved? <==> HasRoom(Unbounded, r, n, head)) && (second ==> r'.producer.Reserved?)
            && (if r'.producer.Reserved? then HoldsSpace(r', n, second) else r'.producer == Idle)
  {
    StepRefines(r, Reserve(n, head));
    ReserveGranted(r, n, head);
    ShortReservation(r, n, head);
    if second { SecondReservation(r, n, head); }
  }

  /** The reservation: the first is granted if there is room, the second always. */
  lemma ReserveKeeps(r: Ring, items: seq<Item>, pc: Pc, head: nat)
    requires SendInv(r, items, pc) && pc.Asked? && Enabled(Unbounded, r, Reserve(|items| - pc.sent, head))
    ensures var r' := Exec(Unbounded, r, Reserve(|items| - pc.sent, head));
            && SendInv(r', items, if r'.producer.Reserved? then Filling(pc.sent, 0) else Done(pc.sent))
            && (r'.producer.Reserved? <==> HasRoom(Unbounded, r, |items| - pc.sent, head))
            && (pc.sent > 0 ==> r'.producer.Reserved?)
  {
    var n := |items| - pc.sent;
    ReserveHolds(r, n, head, pc.sent > 0);
    NothingSent(items, pc.sent);
    var r' := Exec(Unbounded, r, Reserve(n, head));
    if r'.producer.Reserved? {
      assert r'.slots[r'.producer.idx..r'.producer.idx + 0] == [];
    }
  }

  lemma CopiedOne(slots: seq<Cell>, idx: nat, items: seq<Item>, sent: nat, n: nat)
    requires idx + n < |slots| && sent + n < |items| && slots[idx..idx + n] == Held(items[sent..sent + n])
    ensures slots[idx + n := Holds(items[sent + n])][idx..idx + n + 1] == Held(items[sent..sent + n + 1])
  {
    var slots' := slots[idx + n := Holds(items[sent + n])];
    assert slots'[idx..idx + n + 1] == slots[idx..idx + n] + [Holds(items[sent + n])];
    assert Held(items[sent..sent + n + 1]) == Held(items[sent..sent + n]) + [Holds(items[sent + n])];
  }

  lemma WriteFrame(r: Ring, i: nat, item: Item)
    requires Inv(r) && Enabled(Unbounded, r, Write(i, item)) && r.producer.Reserved?
    ensures var r' := Exec(Unbounded, r, Write(i, item));
            Inv(r') && r' == r.(slots := r.slots[r.producer.idx + i := Holds(item)])
  {
    StepRefines(r, Write(i, item));
  }

  lemma OneMoreCopied(r: Ring, items: seq<Item>, sent: nat, copied: nat, slots: seq<Cell>)
    requires SendInv(r, items, Filling(sent, copied)) && copied < r.producer.len && Inv(r.(slots := slots))
    requires r.producer.idx + copied < |slots| && sent + copied < |items|
    requires slots[r.producer.idx..r.producer.idx + copied + 1] == Held(items[sent..sent + copied + 1])
    ensures SendInv(r.(slots := slots), items, Filling(sent, copied + 1))
  {}

  lemma WriteKeeps(r: Ring, items: seq<Item>, pc: Pc)
    requires SendInv(r, items, pc) && pc.Filling? && pc.copied < r.producer.len
    ensures SendInv(Exec(Unbounded, r, Write(pc.copied, items[pc.sent + pc.copied])), items,
      Filling(pc.sent, pc.copied + 1))
  {
    WriteFrame(r, pc.copied, items[pc.sent + pc.copied]);
    CopiedOne(r.slots, r.producer.idx, items, pc.sent, pc.copied);
    OneMoreCopied(r, items, pc.sent, pc.copied,
      r.slots[r.producer.idx + pc.copied := Holds(items[pc.sent + pc.copied])]);
  }

  lemma CommitKeepsCall(r: Ring, items: seq<Item>, pc: Pc)
    requires SendInv(r, items, pc) && pc.Filling? && pc.copied == r.producer.len
      && Enabled(Unbounded, r, RingRun.Commit(pc.copied))
    ensures var n := pc.sent + pc.copied;
            SendInv(Exec(Unbounded, r, RingRun.Commit(pc.copied)), items, if n < |items| then Asking(n) else Done(n))
    ensures Committed(r, RingRun.Commit(pc.copied)) == Held(items[pc.sent..pc.sent + pc.copied])
  {
    StepRefines(r, RingRun.Commit(pc.copied));
  }

  // ----- One step and whole runs -----

  /** What a step of the run means for the call. */
  ghost predicate Progress(r: Ring, items: seq<Item>, pc: Pc, step: Step, r': Ring, pc': Pc)
    requires Shaped(r)
  {
    && SendInv(r', items, pc') && pc.sent <= pc'.sent <= |items|
    && Committed(r, step) == Held(items[pc.sent..pc'.sent])
    && (if step.Reserve? && r'.producer.Reserved? then 1 else 0) + Budget(items, pc') <= Budget(items, pc)
    && (if IsConsumerStep(step) then 0 else 1) + StepsLeft(items, pc') <= StepsLeft(items, pc)
    && (Granting(items, pc) ==> Granting(items, pc'))
  }

  lemma NothingSent(items: seq<Item>, sent: nat)
    requires sent <= |items|
    ensures Held(items[sent..sent]) == []
  {}

  lemma ConsumerProgress(r: Ring, items: seq<Item>, pc: Pc, step: Step)
    requires SendInv(r, items, pc) && Enabled(Unbounded, r, step) && IsConsumerStep(step)
    ensures var r' := Exec(Unbounded, r, step); Progress(r, items, pc, step, r', PcAfter(items, pc, step, r'))
  {
    NothingSent(items, pc.sent);
    ConsumerKeeps(r, items, pc, step);
  }

  lemma CheckProgress(r: Ring, items: seq<Item>, pc: Pc, step: Step)
    requires SendInv(r, items, pc) && Enabled(Unbounded, r, step) && pc.Asking? && step == Check
    ensures var r' := Exec(Unbounded, r, step); Progress(r, items, pc, step, r', PcAfter(items, pc, step, r'))
  {
    NothingSent(items, pc.sent);
    CheckKeeps(r, items, pc);
  }

  lemma ReserveProgress(r: Ring, items: seq<Item>, pc: Pc, step: Step)
    requires SendInv(r, items, pc) && Enabled(Unbounded, r, step) && pc.Asked? && Follows(items, pc, r, step)
    ensures var r' := Exec(Unbounded, r, step); Progress(r, items, pc, step, r', PcAfter(items, pc, step, r'))
  {
    NothingSent(items, pc.sent);
    ReserveKeeps(r, items, pc, step.head);
  }

  lemma WriteProgress(r: Ring, items: seq<Item>, pc: Pc, step: Step)
    requires SendInv(r, items, pc) && Enabled(Unbounded, r, step) && pc.Filling? && step.Write?
      && Follows(items, pc, r, step)
    ensures var r' := Exec(Unbounded, r, step); Progress(r, items, pc, step, r', PcAfter(items, pc, step, r'))
  {
    NothingSent(items, pc.sent);
    WriteKeeps(r, items, pc);
  }

  lemma CommitProgress(r: Ring, items: seq<Item>, pc: Pc, step: Step)
    requires SendInv(r, items, pc) && Enabled(Unbounded, r, step) && pc.Filling? && !step.Write?
      && Follows(items, pc, r, step)
    ensures var r' := Exec(Unbounded, r, step); Progress(r, items, pc, step, r', PcAfter(items, pc, step, r'))
  {
    CommitKeepsCall(r, items, pc);
  }

  lemma SendProgress(r: Ring, items: seq<Item>, pc: Pc, step: Step)
    requires SendInv(r, items, pc) && Enabled(Unbounded, r, step)
      && (IsConsumerStep(step) || Follows(items, pc, r, step))
    ensures var r' := Exec(Unbounded, r, step); Progress(r, items, pc, step, r', PcAfter(items, pc, step, r'))
  {
    if IsConsumerStep(step) {
      ConsumerProgress(r, items, pc, step);
    } else {
      match pc
      case Asking(_) => CheckProgress(r, items, pc, step);
      case Asked(_) => ReserveProgress(r, items, pc, step);
      case Filling(_, _) => if step.Write? { WriteProgress(r, items, pc, step); }
        else { CommitProgress(r, items, pc, step); }
    }
  }

  lemma HeldJoin(items: seq<Item>, a: nat, b: nat, e: nat)
    requires a <= b <= e <= |items|
    ensures Held(items[a..b]) + Held(items[b..e]) == Held(items[a..e])
  {}

  lemma {:induction false} SendRun(r: Ring, items: seq<Item>, pc: Pc, steps: seq<Step>)
    requires SendInv(r, items, pc) && Sends(Unbounded, r, items, pc, steps) && Runs(Unbounded, r, steps)
    ensures var e := EndPc(Unbounded, r, items, pc, steps);
            && SendInv(Last(Unbounded, r, steps), items, e) && pc.sent <= e.sent <= |items|
            && AllCommitted(Unbounded, r, steps) == Held(items[pc.sent..e.sent])
            && Reservations(Unbounded, r, steps) + Budget(items, e) <= Budget(items, pc)
            && ProducerSteps(steps) + StepsLeft(items, e) <= StepsLeft(items, pc)
            && (Granting(items, pc) ==> Granting(items, e))
    decreases |steps|
  {
    NothingSent(items, pc.sent);
    if steps != [] {
      var r' := Exec(Unbounded, r, steps[0]);
      var pc' := PcAfter(items, pc, steps[0], r');
      SendProgress(r, items, pc, steps[0]);
      SendRun(r', items, pc', steps[1..]);
      HeldJoin(items, pc.sent, pc'.sent, EndPc(Unbounded, r', items, pc', steps[1..]).sent);
    }
  }

  /** What is decided about the call once it has returned or been granted a reservation. */
  ghost predicate Decides(r: Ring, items: seq<Item>, e: Pc, steps: seq<Step>) {
    (e.Done? || Granting(items, e)) ==> (Granting(items, e) <==> Granted(Unbounded, r, |items|, steps))
  }

  lemma ReserveDecides(r: Ring, items: seq<Item>, steps: seq<Step>)
    requires SendInv(r, items, Asked(0)) && Sends(Unbounded, r, items, Asked(0), steps) && steps != []
      && !IsConsumerStep(steps[0])
    ensures Decides(r, items, EndPc(Unbounded, r, items, Asked(0), steps), steps)
  {
    var r' := Exec(Unbounded, r, steps[0]);
    var pc' := PcAfter(items, Asked(0), steps[0], r');
    ReserveKeeps(r, items, Asked(0), steps[0].head);
    SendsRuns(Unbounded, r', items, pc', steps[1..]);
    SendRun(r', items, pc', steps[1..]);
    if pc' == Done(0) { DoneStays(r', items, pc', steps[1..]); }
  }

  lemma SameGrant(r: Ring, r': Ring, items: seq<Item>, e: Pc, steps: seq<Step>)
    requires steps != [] && !steps[0].Reserve? && r'.tail == r.tail && r'.cachedHead == r.cachedHead
      && r'.bits == r.bits
    requires Decides(r', items, e, steps[1..])
    ensures Decides(r, items, e, steps)
  {}

  /** The first reservation decides. */
  lemma {:induction false} FirstReserveDecides(r: Ring, items: seq<Item>, pc: Pc, steps: seq<Step>)
    requires SendInv(r, items, pc) && Sends(Unbounded, r, items, pc, steps) && (pc == Asking(0) || pc == Asked(0))
    ensures Decides(r, items, EndPc(Unbounded, r, items, pc, steps), steps)
    decreases |steps|
  {
    if steps != [] {
      var step, rest := steps[0], steps[1..];
      var r' := Exec(Unbounded, r, step);
      if IsConsumerStep(step) {
        ConsumerKeeps(r, items, pc, step);
        ConsumerFrame(r, step);
        FirstReserveDecides(r', items, pc, rest);
        SameGrant(r, r', items, EndPc(Unbounded, r', items, pc, rest), steps);
      } else if pc.Asking? {
        CheckKeeps(r, items, pc);
        FirstReserveDecides(r', items, Asked(0), rest);
        SameGrant(r, r', items, EndPc(Unbounded, r', items, Asked(0), rest), steps);
      } else {
        ReserveDecides(r, items, steps);
      }
    }
  }

  lemma {:induction false} DoneStays(r: Ring, items: seq<Item>, pc: Pc, steps: seq<Step>)
    requires Shaped(r) && pc.Done? && Sends(Unbounded, r, items, pc, steps)
    ensures EndPc(Unbounded, r, items, pc, steps) == pc
    decreases |steps|
  {
    if steps != [] { DoneStays(Exec(Unbounded, r, steps[0]), items, pc, steps[1..]); }
  }

  lemma StartInv(r: Ring, items: seq<Item>)
    requires Inv(r) && r.alive && r.kind == Stack && !r.closed && r.producer == Idle
    ensures SendInv(r, items, Start(items))
  {}

  /** What `send(items)` does, at every point of every such run: what is committed is a prefix of the
      items, in at most two reservations and a bounded number of steps; and once the call has
      returned it is all of them or none, decided by the head its first reservation loads. */
  ghost predicate AllOrNothing(a: Arith, r: Ring, items: seq<Item>, steps: seq<Step>)
    requires Shaped(r) && Sends(a, r, items, Start(items), steps) && Runs(a, r, steps)
  {
    var e := EndPc(a, r, items, Start(items), steps);
    && e.sent <= |items| && AllCommitted(a, r, steps) == Held(items[..e.sent])
    && Reservations(a, r, steps) <= 2 && ProducerSteps(steps) <= |items| + 6
    && (e.Done? ==> e.sent == if Granted(a, r, |items|, steps) then |items| else 0)
  }

  lemma SendIsAllOrNothing(r: Ring, items: seq<Item>, steps: seq<Step>)
    requires Inv(r) && r.alive && r.kind == Stack && !r.closed && r.producer == Idle
    requires Sends(Unbounded, r, items, Start(items), steps)
    ensures Runs(Unbounded, r, steps) && AllOrNothing(Unbounded, r, items, steps)
  {
    StartInv(r, items);
    SendsRuns(Unbounded, r, items, Start(items), steps);
    SendRun(r, items, Start(items), steps);
    var e := EndPc(Unbounded, r, items, Start(items), steps);
    assert items[0..e.sent] == items[..e.sent];
    StepsLeftNat(Last(Unbounded, r, steps), items, e);
    if items != [] { FirstReserveDecides(r, items, Start(items), steps); }
  }

  lemma StepsLeftNat(r: Ring, items: seq<Item>, pc: Pc)
    requires SendInv(r, items, pc)
    ensures StepsLeft(items, pc) >= 0
  {}

  // ----- On 64-bit counters -----

  /** The first step of a sending run, and what it adds to the counts. */
  lemma Unfold(a: Arith, r: Ring, items: seq<Item>, pc: Pc, steps: seq<Step>)
    requires Shaped(r) && Sends(a, r, items, pc, steps) && Runs(a, r, steps) && steps != []
    ensures Enabled(a, r, steps[0]) && (IsConsumerStep(steps[0]) || Follows(items, pc, r, steps[0]))
    ensures var r' := Exec(a, r, steps[0]); var pc' := PcAfter(items, pc, steps[0], r');
            && Sends(a, r', items, pc', steps[1..]) && Runs(a, r', steps[1..])
            && EndPc(a, r, items, pc, steps) == EndPc(a, r', items, pc', steps[1..])
            && Reservations(a, r, steps) == (if steps[0].Reserve? && r'.producer.Reserved? then 1 else 0)
              + Reservations(a, r', steps[1..])
  {}

  lemma Fold(a: Arith, r: Ring, items: seq<Item>, pc: Pc, steps: seq<Step>)
    requires Shaped(r) && steps != [] && Enabled(a, r, steps[0])
      && (IsConsumerStep(steps[0]) || Follows(items, pc, r, steps[0]))
    requires var r' := Exec(a, r, steps[0]);
             Sends(a, r', items, PcAfter(items, pc, steps[0], r'), steps[1..]) && Runs(a, r', steps[1..])
    ensures Sends(a, r, items, pc, steps) && Runs(a, r, steps)
  {}

  /** A step of the call is the same step of the call on unbounded counters. */
  lemma LiftOne(r: Ring, items: seq<Item>, pc: Pc, step: Step)
    requires Inv(r) && Enabled(Wrapping, Wrap(r), step) && (IsConsumerStep(step) || Follows(items, pc, Wrap(r), step))
    ensures var up := Lift(r, step);
            && Enabled(Unbounded, r, up) && (IsConsumerStep(up) || Follows(items, pc, r, up))
            && IsConsumerStep(up) == IsConsumerStep(step) && up.Reserve? == step.Reserve?
            && var r' := Exec(Unbounded, r, up);
            && Inv(r') && Exec(Wrapping, Wrap(r), step) == Wrap(r')
            && PcAfter(items, pc, up, r') == PcAfter(items, pc, step, Wrap(r'))
  {
    StepAgrees(r, step);
    StepRefines(r, Lift(r, step));
  }

  /** The same run on unbounded counters. */
  ghost predicate Alike(r: Ring, items: seq<Item>, pc: Pc, steps: seq<Step>, up: seq<Step>)
    requires Inv(r) && Sends(Wrapping, Wrap(r), items, pc, steps) && Runs(Wrapping, Wrap(r), steps)
  {
    && Sends(Unbounded, r, items, pc, up) && Runs(Unbounded, r, up)
    && EndPc(Unbounded, r, items, pc, up) == EndPc(Wrapping, Wrap(r), items, pc, steps)
    && Reservations(Unbounded, r, up) == Reservations(Wrapping, Wrap(r), steps)
    && ProducerSteps(up) == ProducerSteps(steps)
  }

  lemma LiftCons(r: Ring, items: seq<Item>, pc: Pc, steps: seq<Step>)
    requires Inv(r) && Runs(Wrapping, Wrap(r), steps) && steps != []
    requires Enabled(Unbounded, r, Lift(r, steps[0])) && Inv(Exec(Unbounded, r, Lift(r, steps[0])))
    requires Exec(Wrapping, Wrap(r), steps[0]) == Wrap(Exec(Unbounded, r, Lift(r, steps[0])))
    ensures LiftAll(r, steps) == [Lift(r, steps[0])] + LiftAll(Exec(Unbounded, r, Lift(r, steps[0])), steps[1..])
  {}

  lemma {:induction false} LiftSends(r: Ring, items: seq<Item>, pc: Pc, steps: seq<Step>)
    requires Inv(r) && Sends(Wrapping, Wrap(r), items, pc, steps) && Runs(Wrapping, Wrap(r), steps)
    ensures Alike(r, items, pc, steps, LiftAll(r, steps))
    decreases |steps|
  {
    if steps != [] {
      var up := Lift(r, steps[0]);
      var r' := Exec(Wrapping, Wrap(r), steps[0]);
      Unfold(Wrapping, Wrap(r), items, pc, steps);
      LiftOne(r, items, pc, steps[0]);
      var s := Exec(Unbounded, r, up);
      var pc' := PcAfter(items, pc, up, s);
      LiftSends(s, items, pc', steps[1..]);
      LiftCons(r, items, pc, steps);
      var ups := LiftAll(r, steps);
      assert ups[0] == up && ups[1..] == LiftAll(s, steps[1..]);
      Fold(Unbounded, r, items, pc, ups);
      Unfold(Unbounded, r, items, pc, ups);
    }
  }

  lemma SameRoom(r: Ring, n: nat, head: nat)
    requires Inv(r) && Between(Wrapping, r.cachedHead % LIMIT, head, r.head % LIMIT)
    ensures HasRoom(Wrapping, Wrap(r), n, head) <==> HasRoom(Unbounded, r, n, Unwrap(r.cachedHead, head))
  {
    CapBelowLimit(r.bits);
    UnwrapLoad(r.cachedHead, head, r.head);
    SpaceAgrees(r, r.cachedHead);
    SpaceAgrees(r, Unwrap(r.cachedHead, head));
  }

  lemma LaterGrant(a: Arith, r: Ring, r': Ring, n: nat, steps: seq<Step>)
    requires steps != [] && !steps[0].Reserve? && r'.tail == r.tail && r'.cachedHead == r.cachedHead
      && r'.bits == r.bits
    ensures Granted(a, r, n, steps) == Granted(a, r', n, steps[1..])
  {}

  /** Steps of the call before its first reservation. */
  lemma BeforeReserve(r: Ring, items: seq<Item>, pc: Pc, step: Step)
    requires SendInv(r, items, pc) && (pc == Asking(0) || pc == Asked(0)) && Enabled(Unbounded, r, step)
    requires (IsConsumerStep(step) || Follows(items, pc, r, step)) && !step.Reserve?
    ensures var r' := Exec(Unbounded, r, step); var pc' := PcAfter(items, pc, step, r');
            && SendInv(r', items, pc') && (pc' == Asking(0) || pc' == Asked(0))
            && r'.tail == r.tail && r'.cachedHead == r.cachedHead && r'.bits == r.bits
  {
    if IsConsumerStep(step) {
      ConsumerKeeps(r, items, pc, step);
      ConsumerFrame(r, step);
    } else {
      CheckKeeps(r, items, pc);
    }
  }

  lemma {:induction false} SameGranted(r: Ring, items: seq<Item>, pc: Pc, steps: seq<Step>)
    requires SendInv(r, items, pc) && (pc == Asking(0) || pc == Asked(0))
    requires Sends(Wrapping, Wrap(r), items, pc, steps) && Runs(Wrapping, Wrap(r), steps)
    ensures Granted(Wrapping, Wrap(r), |items|, steps) <==> Granted(Unbounded, r, |items|, LiftAll(r, steps))
    decreases |steps|
  {
    if steps != [] {
      Unfold(Wrapping, Wrap(r), items, pc, steps);
      LiftOne(r, items, pc, steps[0]);
      LiftCons(r, items, pc, steps);
      var up := Lift(r, steps[0]);
      var r', ups := Exec(Unbounded, r, up), LiftAll(r, steps);
      assert ups[0] == up && ups[1..] == LiftAll(r', steps[1..]);
      if steps[0].Reserve? {
        SameRoom(r, |items|, steps[0].head);
      } else {
        BeforeReserve(r, items, pc, up);
        SameGranted(r', items, PcAfter(items, pc, up, r'), steps[1..]);
        LaterGrant(Unbounded, r, r', |items|, ups);
        LaterGrant(Wrapping, Wrap(r), Wrap(r'), |items|, steps);
      }
    }
  }

  /** `StackProducer::send` on 64-bit counters, from any state of a ring that is open and stays so,
      with the consumer interleaved in any way: all items in order, in at most two reservations, or
      none, as the head that the first reservation loads leaves room or not. */
  lemma SendOn64Bits(r: Ring, items: seq<Item>, steps: seq<Step>)
    requires Inv(r) && r.alive && r.kind == Stack && !r.closed && r.producer == Idle
    requires Sends(Wrapping, Wrap(r), items, Start(items), steps)
    ensures Runs(Wrapping, Wrap(r), steps) && AllOrNothing(Wrapping, Wrap(r), items, steps)
  {
    SendsRuns(Wrapping, Wrap(r), items, Start(items), steps);
    LiftSends(r, items, Start(items), steps);
    WrapAroundInvisible(r, steps);
    SendIsAllOrNothing(r, items, LiftAll(r, steps));
    StartInv(r, items);
    if items != [] { SameGranted(r, items, Start(items), steps); }
  }

  /** The step that the call takes next; a reservation loads the newest head. */
  function NextStep(items: seq<Item>, pc: Pc, r: Ring): (step: Step)
    requires !pc.Done? && pc.sent <= |items|
    requires pc.Filling? ==> r.producer.Reserved? && pc.copied <= r.producer.len <= |items| - pc.sent
  {
    match pc
    case Asking(_) => Check
    case Asked(sent) => Reserve(|items| - sent, r.head)
    case Filling(sent, copied) =>
      if copied < r.producer.len then Write(copied, items[sent + copied]) else RingRun.Commit(copied)
  }

  lemma CanGoOn(r: Ring, items: seq<Item>, pc: Pc)
    requires SendInv(r, items, pc) && !pc.Done?
    ensures var step := NextStep(items, pc, r);
            Enabled(Unbounded, r, step) && !IsConsumerStep(step) && Follows(items, pc, r, step)
  {
    if pc.Filling? && pc.copied == r.producer.len {
      var cells := r.slots[r.producer.idx..r.producer.idx + pc.copied];
      forall x | x in cells ensures x.Holds? {
        var k :| 0 <= k < |cells| && cells[k] == x;
        assert Held(items[pc.sent..pc.sent + pc.copied])[k].Holds?;
      }
    }
  }

  /** From every point of every such call the producer can run it to its end. */
  lemma {:induction false} CallReturns(r: Ring, items: seq<Item>, pc: Pc) returns (steps: seq<Step>)
    requires SendInv(r, items, pc)
    ensures Sends(Unbounded, r, items, pc, steps) && EndPc(Unbounded, r, items, pc, steps).Done?
    ensures pc.Asking? ==> FirstLoad(steps) == [r.head]
    ensures pc.Asked? ==> FirstLoad(steps) == [r.head]
    decreases StepsLeft(items, pc)
  {
    if pc.Done? { return []; }
    var step := NextStep(items, pc, r);
    CanGoOn(r, items, pc);
    SendProgress(r, items, pc, step);
    var r' := Exec(Unbounded, r, step);
    var pc' := NextPc(items, pc, step, r');
    StepsLeftNat(r', items, pc');
    var rest := CallReturns(r', items, pc');
    SendCons(r, items, pc, step, rest);
    steps := [step] + rest;
    assert steps[1..] == rest;
  }

  /** Such runs exist, for all items: with room behind the head all of them are sent, without it none. */
  lemma SendCompletes(r: Ring, items: seq<Item>) returns (steps: seq<Step>)
    requires Inv(r) && r.alive && r.kind == Stack && !r.closed && r.producer == Idle
    ensures Sends(Unbounded, r, items, Start(items), steps)
    ensures EndPc(Unbounded, r, items, Start(items), steps)
      == Done(if r.tail + |items| <= r.head + Cap(r) then |items| else 0)
  {
    StartInv(r, items);
    steps := CallReturns(r, items, Start(items));
    SendIsAllOrNothing(r, items, steps);
  }

  lemma SendCons(r: Ring, items: seq<Item>, pc: Pc, step: Step, rest: seq<Step>)
    requires Shaped(r) && Enabled(Unbounded, r, step) && !IsConsumerStep(step) && Follows(items, pc, r, step)
    requires var r' := Exec(Unbounded, r, step); Sends(Unbounded, r', items, NextPc(items, pc, step, r'), rest)
    ensures Sends(Unbounded, r, items, pc, [step] + rest)
    ensures var r' := Exec(Unbounded, r, step);
            EndPc(Unbounded, r, items, pc, [step] + rest)
              == EndPc(Unbounded, r', items, NextPc(items, pc, step, r'), rest)
  {
    assert ([step] + rest)[1..] == rest;
  }
}
