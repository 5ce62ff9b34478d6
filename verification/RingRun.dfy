/** The single-producer single-consumer ring as interleaved atomic steps.
    The same steps are given for two kinds of counters: the wrapping 64-bit ones of the code and
    unbounded ones, which serve as the reference. */
module RingRun {
  import opened Words

  type Item(==, !new)

  /** A buffer slot: `MaybeUninit<T>`. Reading an item out leaves the slot uninitialised. */
  datatype Cell = Empty | Holds(item: Item)

  function Held(items: seq<Item>): (cs: seq<Cell>)
    ensures |cs| == |items| && forall i :: 0 <= i < |items| ==> cs[i] == Holds(items[i])
  {
    seq(|items|, i requires 0 <= i < |items| => Holds(items[i]))
  }

  datatype Arith = Wrapping | Unbounded

  function Add(a: Arith, x: nat, n: nat): (r: nat) { if a.Wrapping? then WrapAdd(x, n) else x + n }

  function Sub(a: Arith, x: nat, y: nat): (r: nat) { if a.Wrapping? then WrapSub(x, y) else if x < y then 0 else x - y }

  /** `counter & mask`, or the remainder by the capacity. */
  function Index(a: Arith, x: nat, bits: nat): (i: nat)
    ensures i < Pow2(bits)
  {
    AndMask(x, bits);
    if a.Wrapping? then And(x, Pow2(bits) - 1) else Low(x, bits)
  }

  /** `x` is a value of a counter that went from `lo` to `hi`: what a load of it may return when
      `lo` was the last value seen and `hi` is the current one. */
  predicate Between(a: Arith, lo: nat, x: nat, hi: nat) {
    if a.Wrapping? then x < LIMIT && WrapSub(x, lo) <= WrapSub(hi, lo) else lo <= x <= hi
  }

  function Min(x: nat, y: nat): (m: nat) { if x < y then x else y }

  /** `Ring` or `StackRing`: only the latter's `reserve` looks at `closed`. */
  datatype Kind = Heap | Stack

  /** Which half of the consumer interface is used on this ring. */
  datatype Family = Consuming | Peeking

  datatype Producer = Idle | Checked | Reserved(idx: nat, len: nat)

  datatype Consumer = Resting | Reading(pos: nat, end: nat) | Viewing(len: nat)

  datatype Limit = All | UpTo(max: nat)

  /** `seenTail` is the last tail value the consumer loaded; it is the field `cached_tail` for the
      peeking family. */
  datatype Ring = Ring(
    bits: nat, kind: Kind, family: Family,
    tail: nat, cachedHead: nat, head: nat, seenTail: nat,
    closed: bool, slots: seq<Cell>, producer: Producer, consumer: Consumer, alive: bool)

  function Cap(r: Ring): (c: nat)
    ensures c > 0
  {
    Pow2(r.bits)
  }

  predicate Shaped(r: Ring) {
    && |r.slots| == Cap(r)
    && (r.producer.Reserved? ==> r.producer.idx + r.producer.len <= Cap(r))
  }

  datatype Step =
    | Check
    | Reserve(n: nat, head: nat)
    | Write(j: nat, item: Item)
    | Commit(n: nat)
    | Abandon
    | LoadTail(limit: Limit, tail: nat)
    | Read
    | Finish
    | Peek(tail: nat)
    | Advance(n: nat)
    | Close
    | Drop

  /** Who may do what when. The conditions on Commit and Advance are the caller's side of the
      interface: committed slots have been written, and no more is advanced than was viewed. */
  predicate Enabled(a: Arith, r: Ring, step: Step)
    requires Shaped(r)
  {
    r.alive &&
    match step
    case Check => r.producer == Idle
    case Reserve(_, head) => r.producer == Checked && Between(a, r.cachedHead, head, r.head)
    case Write(j, _) => r.producer.Reserved? && j < r.producer.len
    case Commit(n) =>
      && r.producer.Reserved? && n <= r.producer.len
      && forall c :: c in r.slots[r.producer.idx..r.producer.idx + n] ==> c.Holds?
    case Abandon => r.producer.Reserved?
    case LoadTail(_, tail) => r.family == Consuming && r.consumer == Resting && Between(a, r.seenTail, tail, r.tail)
    case Read => r.consumer.Reading? && r.consumer.pos != r.consumer.end
    case Finish => r.consumer.Reading? && r.consumer.pos == r.consumer.end
    case Peek(tail) => r.family == Peeking && r.consumer == Resting && Between(a, r.seenTail, tail, r.tail)
    case Advance(n) => r.consumer.Viewing? && n <= r.consumer.len
    case Close => true
    case Drop => r.producer == Idle && r.consumer == Resting
  }

  /** `capacity.saturating_sub(tail.wrapping_sub(head))`. */
  function Space(a: Arith, r: Ring, head: nat): (s: nat) {
    var used := Sub(a, r.tail, head);
    if used < Cap(r) then Cap(r) - used else 0
  }

  function MakeReservation(a: Arith, r: Ring, n: nat): (r': Ring)
    requires Shaped(r)
    ensures Shaped(r')
  {
    var idx := Index(a, r.tail, r.bits);
    r.(producer := Reserved(idx, Min(n, Cap(r) - idx)))
  }

  /** `reserve` after the `closed` test: the fast path trusts `cachedHead`, the slow one stores
      the loaded `head` in it. */
  function DoReserve(a: Arith, r: Ring, n: nat, head: nat): (r': Ring)
    requires Shaped(r)
    ensures Shaped(r')
  {
    if n == 0 || n > Cap(r) then r.(producer := Idle)
    else if Space(a, r, r.cachedHead) >= n then MakeReservation(a, r, n)
    else if Space(a, r, head) < n then r.(cachedHead := head, producer := Idle)
    else MakeReservation(a, r.(cachedHead := head), n)
  }

  function DoLoadTail(a: Arith, r: Ring, limit: Limit, tail: nat): (r': Ring)
    requires Shaped(r)
    ensures Shaped(r')
  {
    var avail := Sub(a, tail, r.head);
    if r.kind == Heap && limit == UpTo(0) then r
    else if avail == 0 then r.(seenTail := tail)
    else
      var end := if limit == All then tail else Add(a, r.head, Min(avail, limit.max));
      r.(seenTail := tail, consumer := Reading(r.head, end))
  }

  function DoPeek(a: Arith, r: Ring, tail: nat): (r': Ring)
    requires Shaped(r)
    ensures Shaped(r')
  {
    var seen := if Sub(a, r.seenTail, r.head) == 0 then tail else r.seenTail;
    var avail := Sub(a, seen, r.head);
    if avail == 0 then r.(seenTail := seen)
    else r.(seenTail := seen, consumer := Viewing(Min(avail, Cap(r) - Index(a, r.head, r.bits))))
  }

  function Exec(a: Arith, r: Ring, step: Step): (r': Ring)
    requires Shaped(r) && Enabled(a, r, step)
    ensures Shaped(r')
  {
    match step
    case Check => r.(producer := if r.kind == Stack && r.closed then Idle else Checked)
    case Reserve(n, head) => DoReserve(a, r, n, head)
    case Write(j, item) => r.(slots := r.slots[r.producer.idx + j := Holds(item)])
    case Commit(n) => r.(tail := Add(a, r.tail, n), producer := Idle)
    case Abandon => r.(producer := Idle)
    case LoadTail(limit, tail) => DoLoadTail(a, r, limit, tail)
    case Read => r.(slots := r.slots[Index(a, r.consumer.pos, r.bits) := Empty],
      consumer := Reading(Add(a, r.consumer.pos, 1), r.consumer.end))
    case Finish => r.(head := r.consumer.end, consumer := Resting)
    case Peek(tail) => DoPeek(a, r, tail)
    case Advance(n) => r.(head := Add(a, r.head, n), consumer := Resting)
    case Close => r.(closed := true)
    case Drop => r.(alive := false)
  }

  /** The slot of a counter. */
  function At(a: Arith, bits: nat, slots: seq<Cell>, i: nat): (c: Cell)
    requires |slots| == Pow2(bits)
  {
    slots[Index(a, i, bits)]
  }

  /** The n slots from counter `from` on. */
  function Cells(a: Arith, bits: nat, slots: seq<Cell>, from: nat, n: nat): (cs: seq<Cell>)
    requires |slots| == Pow2(bits)
    ensures |cs| == n
  {
    seq(n, i requires 0 <= i < n => At(a, bits, slots, Add(a, from, i)))
  }

  // ----- What a step hands over -----

  function Committed(r: Ring, step: Step): (cs: seq<Cell>)
    requires Shaped(r)
  {
    if step.Commit? && r.producer.Reserved? && step.n <= r.producer.len
    then r.slots[r.producer.idx..r.producer.idx + step.n] else []
  }

  /** The slots a consumer receives, as they are at that moment. */
  function Taken(a: Arith, r: Ring, step: Step): (cs: seq<Cell>)
    requires Shaped(r)
  {
    if step.Read? && r.consumer.Reading? then Cells(a, r.bits, r.slots, r.consumer.pos, 1)
    else if step.Advance? then Cells(a, r.bits, r.slots, r.head, step.n)
    else []
  }

  /** The slots that dropping the ring drops. */
  function Dropped(a: Arith, r: Ring, step: Step): (cs: seq<Cell>)
    requires Shaped(r)
  {
    if step.Drop? then Cells(a, r.bits, r.slots, r.head, Sub(a, r.tail, r.head)) else []
  }

  // ----- Runs -----

  ghost predicate Runs(a: Arith, r: Ring, steps: seq<Step>)
    requires Shaped(r)
    decreases |steps|
  {
    steps == [] || (Enabled(a, r, steps[0]) && Runs(a, Exec(a, r, steps[0]), steps[1..]))
  }

  ghost function Last(a: Arith, r: Ring, steps: seq<Step>): (r': Ring)
    requires Shaped(r) && Runs(a, r, steps)
    ensures Shaped(r')
    decreases |steps|
  {
    if steps == [] then r else Last(a, Exec(a, r, steps[0]), steps[1..])
  }

  ghost function AllCommitted(a: Arith, r: Ring, steps: seq<Step>): (cs: seq<Cell>)
    requires Shaped(r) && Runs(a, r, steps)
    decreases |steps|
  {
    if steps == [] then [] else Committed(r, steps[0]) + AllCommitted(a, Exec(a, r, steps[0]), steps[1..])
  }

  ghost function AllTaken(a: Arith, r: Ring, steps: seq<Step>): (cs: seq<Cell>)
    requires Shaped(r) && Runs(a, r, steps)
    decreases |steps|
  {
    if steps == [] then [] else Taken(a, r, steps[0]) + AllTaken(a, Exec(a, r, steps[0]), steps[1..])
  }

  ghost function AllDropped(a: Arith, r: Ring, steps: seq<Step>): (cs: seq<Cell>)
    requires Shaped(r) && Runs(a, r, steps)
    decreases |steps|
  {
    if steps == [] then [] else Dropped(a, r, steps[0]) + AllDropped(a, Exec(a, r, steps[0]), steps[1..])
  }

  /** A new ring; its counters may start anywhere. */
  function Fresh(bits: nat, kind: Kind, family: Family, start: nat): (r: Ring)
    ensures Shaped(r)
  {
    Ring(bits, kind, family, start, start, start, start, false, seq(Pow2(bits), _ => Empty), Idle, Resting, true)
  }
}
