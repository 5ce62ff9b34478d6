/** Producer registration: fetch_add, bound check and compensating fetch_sub by any number of
    concurrent calls. */
module Registration {

  type Call = nat

  /** `passed` calls have read `closed` as false; `granted` maps a successful call to its id;
      `overflowing` calls have added to the counter, got an id that is too large and have not yet
      subtracted again. */
  datatype State = State(
    max: nat, closed: bool, count: nat,
    passed: set<Call>, granted: map<Call, nat>, overflowing: set<Call>, refused: set<Call>)

  datatype Step = CheckClosed(call: Call) | FetchAdd(call: Call) | FetchSub(call: Call) | Close

  function Start(max: nat): (s: State) { State(max, false, 0, {}, map[], {}, {}) }

  predicate New(s: State, call: Call) {
    call !in s.passed && call !in s.granted && call !in s.overflowing && call !in s.refused
  }

  predicate Enabled(s: State, step: Step) {
    match step
    case CheckClosed(call) => New(s, call)
    case FetchAdd(call) => call in s.passed
    case FetchSub(call) => call in s.overflowing
    case Close => true
  }

  function Exec(s: State, step: Step): (s': State) {
    match step
    case CheckClosed(call) => if s.closed then s.(refused := s.refused + {call}) else s.(passed := s.passed + {call})
    case FetchAdd(call) =>
      var s1 := s.(count := s.count + 1, passed := s.passed - {call});
      if s.count >= s.max then s1.(overflowing := s.overflowing + {call})
        else s1.(granted := s.granted[call := s.count])
    case FetchSub(call) =>
      var count := if s.count == 0 then 0 else s.count - 1;
      s.(count := count, overflowing := s.overflowing - {call}, refused := s.refused + {call})
    case Close => s.(closed := true)
  }

  ghost predicate Owned(g: map<Call, nat>, id: nat) { exists c :: c in g && g[c] == id }

  ghost predicate Distinct(g: map<Call, nat>) {
    forall c, d :: c in g && d in g && c != d ==> g[c] != g[d]
  }

  /** The ids handed out are exactly 0 .. |g| - 1, each to one call. */
  ghost predicate Dense(g: map<Call, nat>) {
    Distinct(g) && forall id: nat :: Owned(g, id) <==> id < |g|
  }

  /** The counter is the number of ids handed out plus the calls that are about to subtract; there
      are such calls only when all ids are taken. */
  predicate Counted(s: State) {
    && s.count == |s.granted| + |s.overflowing| && |s.granted| <= s.max
    && (s.overflowing != {} ==> |s.granted| == s.max)
  }

  ghost predicate Inv(s: State) {
    && s.passed !! s.granted.Keys && s.passed !! s.overflowing && s.overflowing !! s.granted.Keys
    && Counted(s) && Dense(s.granted)
  }

  lemma Grant(g: map<Call, nat>, call: Call)
    requires call !in g && Dense(g)
    ensures Dense(g[call := |g|]) && |g[call := |g|]| == |g| + 1
  {
    var g' := g[call := |g|];
    assert g'.Keys == g.Keys + {call};
    assert |g'| == |g'.Keys| && |g| == |g.Keys|;
    forall c | c in g ensures g[c] < |g| { assert Owned(g, g[c]); }
    forall id: nat ensures Owned(g', id) <==> id < |g'| {
      if id == |g| {
        assert g'[call] == id;
      } else {
        GrantOther(g, call, id);
      }
    }
  }

  lemma GrantOther(g: map<Call, nat>, call: Call, id: nat)
    requires call !in g && id != |g|
    ensures Owned(g[call := |g|], id) <==> Owned(g, id)
  {
    var g' := g[call := |g|];
    if Owned(g, id) {
      var c :| c in g && g[c] == id;
      assert g'[c] == id;
    }
  }

  lemma StepKeeps(s: State, step: Step)
    requires Inv(s) && Enabled(s, step)
    ensures Inv(Exec(s, step))
  {
    if step.FetchAdd? && s.count < s.max {
      assert s.overflowing == {};
      Grant(s.granted, step.call);
    }
  }

  ghost predicate Runs(s: State, steps: seq<Step>)
    decreases |steps|
  {
    steps == [] || (Enabled(s, steps[0]) && Runs(Exec(s, steps[0]), steps[1..]))
  }

  function Last(s: State, steps: seq<Step>): (s': State)
    decreases |steps|
  {
    if steps == [] then s else Last(Exec(s, steps[0]), steps[1..])
  }

  lemma {:induction false} RunKeeps(s: State, steps: seq<Step>)
    requires Inv(s) && Runs(s, steps)
    ensures Inv(Last(s, steps)) && Last(s, steps).max == s.max
    decreases |steps|
  {
    if steps != [] {
      StepKeeps(s, steps[0]);
      RunKeeps(Exec(s, steps[0]), steps[1..]);
    }
  }

  /** Under every interleaving: no two producers share a ring, every ring below the number of
      producers has one, and the consumer's slice `rings[..count]` is within bounds exactly when
      no failing registration is between its fetch_add and its fetch_sub. */
  lemma RegistrationIsExclusive(max: nat, steps: seq<Step>)
    requires Runs(Start(max), steps)
    ensures var s := Last(Start(max), steps);
            && Dense(s.granted)
            && s.count == |s.granted| + |s.overflowing| && |s.granted| <= max
            && (s.overflowing != {} ==> |s.granted| == max)
            && (s.count <= max <==> s.overflowing == {})
  {
    RunKeeps(Start(max), steps);
  }

  // ----- Which calls succeed -----

  lemma {:induction false} RunsSnoc(s: State, steps: seq<Step>, step: Step)
    requires Runs(s, steps + [step])
    ensures Runs(s, steps) && Enabled(Last(s, steps), step) && Last(s, steps + [step]) == Exec(Last(s, steps), step)
    decreases |steps|
  {
    if steps == [] {
      assert ([] + [step])[1..] == [];
    } else {
      assert (steps + [step])[1..] == steps[1..] + [step];
      RunsSnoc(Exec(s, steps[0]), steps[1..], step);
    }
  }

  /** The call made its test of `closed` before any close, or after one. */
  ghost predicate Early(steps: seq<Step>, call: Call) {
    exists j :: 0 <= j < |steps| && steps[j] == CheckClosed(call) && Close !in steps[..j]
  }

  ghost predicate Late(steps: seq<Step>, call: Call) {
    exists j :: 0 <= j < |steps| && steps[j] == CheckClosed(call) && Close in steps[..j]
  }

  /** Where a call stands after the run, by what it did and when. */
  ghost predicate Stands(s: State, steps: seq<Step>, call: Call) {
    && (Late(steps, call) ==> call in s.refused)
    && (Early(steps, call) ==> (call in s.refused <==> FetchSub(call) in steps))
    && (Early(steps, call) ==> (call in s.passed <==> FetchAdd(call) !in steps))
    && (Early(steps, call) || Late(steps, call) <==> !New(s, call))
    && (FetchSub(call) in steps ==> FetchAdd(call) in steps && |s.granted| == s.max)
    && (FetchAdd(call) in steps || FetchSub(call) in steps ==> Early(steps, call))
    && !(Early(steps, call) && Late(steps, call))
    && (call in s.refused ==> call !in s.passed && call !in s.granted && call !in s.overflowing)
  }

  lemma EarlySnoc(steps: seq<Step>, step: Step, call: Call)
    ensures Early(steps + [step], call) <==> Early(steps, call) || (step == CheckClosed(call) && Close !in steps)
    ensures Late(steps + [step], call) <==> Late(steps, call) || (step == CheckClosed(call) && Close in steps)
  {
    var all := steps + [step];
    assert all[|steps|] == step && all[..|steps|] == steps;
    forall j | 0 <= j < |steps| ensures all[j] == steps[j] && all[..j] == steps[..j] {}
  }

  /** `step` is the last of the run now, and where `call` stands goes on from `s`. */
  ghost predicate OneMore(s: State, steps: seq<Step>, step: Step, all: seq<Step>, call: Call) {
    && Inv(s) && Enabled(s, step) && Stands(s, steps, call) && (s.closed <==> Close in steps)
    && (Early(all, call) <==> Early(steps, call) || (step == CheckClosed(call) && Close !in steps))
    && (Late(all, call) <==> Late(steps, call) || (step == CheckClosed(call) && Close in steps))
    && (FetchAdd(call) in all <==> FetchAdd(call) in steps || step == FetchAdd(call))
    && (FetchSub(call) in all <==> FetchSub(call) in steps || step == FetchSub(call))
  }

  lemma StandsCheck(s: State, steps: seq<Step>, other: Call, all: seq<Step>, call: Call)
    requires OneMore(s, steps, CheckClosed(other), all, call)
    ensures Stands(Exec(s, CheckClosed(other)), all, call)
  {}

  lemma StandsAdd(s: State, steps: seq<Step>, other: Call, all: seq<Step>, call: Call)
    requires OneMore(s, steps, FetchAdd(other), all, call)
    ensures Stands(Exec(s, FetchAdd(other)), all, call)
  {
    if |s.granted| == s.max { assert Exec(s, FetchAdd(other)).granted == s.granted; }
  }

  lemma StandsSub(s: State, steps: seq<Step>, other: Call, all: seq<Step>, call: Call)
    requires OneMore(s, steps, FetchSub(other), all, call)
    ensures Stands(Exec(s, FetchSub(other)), all, call)
  {}

  lemma StandsSnoc(s: State, steps: seq<Step>, step: Step, call: Call)
    requires Inv(s) && Enabled(s, step) && Stands(s, steps, call) && (s.closed <==> Close in steps)
    ensures Stands(Exec(s, step), steps + [step], call)
  {
    EarlySnoc(steps, step, call);
    match step
    case CheckClosed(other) => StandsCheck(s, steps, other, steps + [step], call);
    case FetchAdd(other) => StandsAdd(s, steps, other, steps + [step], call);
    case FetchSub(other) => StandsSub(s, steps, other, steps + [step], call);
    case Close =>
  }

  lemma {:induction false} RunStands(max: nat, steps: seq<Step>, call: Call)
    requires Runs(Start(max), steps)
    ensures var s := Last(Start(max), steps); Inv(s) && (s.closed <==> Close in steps) && Stands(s, steps, call)
  {
    RunKeeps(Start(max), steps);
    if steps != [] {
      var n := |steps| - 1;
      assert steps == steps[..n] + [steps[n]];
      RunsSnoc(Start(max), steps[..n], steps[n]);
      RunStands(max, steps[..n], call);
      StandsSnoc(Last(Start(max), steps[..n]), steps[..n], steps[n], call);
    }
  }

  /** Under every interleaving: a call that tests `closed` after a close never gets an id; one that
      tests it before any close is refused only after it found all ids taken, and otherwise has its
      id once its fetch_add is done. */
  lemma RefusedIff(max: nat, steps: seq<Step>, call: Call)
    requires Runs(Start(max), steps)
    ensures var s := Last(Start(max), steps);
            && (Late(steps, call) ==> call in s.refused && call !in s.granted)
            && (Early(steps, call) ==>
              && (call in s.refused <==> FetchSub(call) in steps) && (call in s.refused ==> |s.granted| == max)
              && (FetchAdd(call) in steps && |s.granted| < max ==> call in s.granted))
            && (call in s.granted ==> Early(steps, call) && FetchAdd(call) in steps)
  {
    RunStands(max, steps, call);
    RunKeeps(Start(max), steps);
  }

  /** How many calls have added to the counter. */
  ghost function Adds(steps: seq<Step>): (n: nat) {
    if steps == [] then 0 else Adds(steps[..|steps| - 1]) + (if steps[|steps| - 1].FetchAdd? then 1 else 0)
  }

  /** As long as no more calls add than there are ids, each that adds has an id, also when the
      channel is closed in between. */
  lemma {:induction false} EnoughIds(max: nat, steps: seq<Step>)
    requires Runs(Start(max), steps) && Adds(steps) <= max
    ensures var s := Last(Start(max), steps);
            && s.count == |s.granted| == Adds(steps) && s.overflowing == {}
            && forall call :: call in s.granted <==> FetchAdd(call) in steps
  {
    RunKeeps(Start(max), steps);
    if steps != [] {
      var n := |steps| - 1;
      assert steps == steps[..n] + [steps[n]];
      RunsSnoc(Start(max), steps[..n], steps[n]);
      EnoughIds(max, steps[..n]);
    }
  }

  // ----- Calls one after the other -----

  function OneCall(call: Call): (steps: seq<Step>) { [CheckClosed(call), FetchAdd(call)] }

  function Calls(n: nat): (steps: seq<Step>) {
    if n == 0 then [] else Calls(n - 1) + OneCall(n - 1)
  }

  /** Call k has id k. */
  function IdsInOrder(n: nat): (g: map<Call, nat>)
    ensures forall call: Call :: call in g <==> call < n
    ensures forall call: Call :: call in g ==> g[call] == call
  {
    if n == 0 then map[] else IdsInOrder(n - 1)[n - 1 := n - 1]
  }

  lemma {:induction false} RunsConcat(s: State, a: seq<Step>, b: seq<Step>)
    requires Runs(s, a) && Runs(Last(s, a), b)
    ensures Runs(s, a + b) && Last(s, a + b) == Last(Last(s, a), b)
    decreases |a|
  {
    if a == [] {
      assert a + b == b;
    } else {
      assert (a + b)[1..] == a[1..] + b;
      RunsConcat(Exec(s, a[0]), a[1..], b);
    }
  }

  /** While there are ids, calls that do not overlap get them in order. */
  lemma {:induction false} CallsInOrder(max: nat, n: nat)
    requires n <= max
    ensures Runs(Start(max), Calls(n))
    ensures Last(Start(max), Calls(n)) == State(max, false, n, {}, IdsInOrder(n), {}, {})
  {
    if n > 0 {
      CallsInOrder(max, n - 1);
      var s := Last(Start(max), Calls(n - 1));
      var s1 := Exec(s, CheckClosed(n - 1));
      var s2 := Exec(s1, FetchAdd(n - 1));
      assert s2.passed == {};
      var two := OneCall(n - 1);
      assert two[1..] == [FetchAdd(n - 1)] && two[1..][1..] == [];
      assert Runs(s2, two[1..][1..]) && Last(s2, two[1..][1..]) == s2;
      assert Runs(s1, two[1..]) && Last(s1, two[1..]) == s2;
      RunsConcat(Start(max), Calls(n - 1), OneCall(n - 1));
    }
  }

  /** The call after the last id is refused and leaves the counter as it was. */
  lemma OneTooMany(max: nat)
    ensures var steps := Calls(max) + [CheckClosed(max), FetchAdd(max), FetchSub(max)];
            && Runs(Start(max), steps)
            && Last(Start(max), steps) == Last(Start(max), Calls(max)).(refused := {max})
  {
    CallsInOrder(max, max);
    var s := Last(Start(max), Calls(max));
    var s1 := Exec(s, CheckClosed(max));
    var s2 := Exec(s1, FetchAdd(max));
    var s3 := Exec(s2, FetchSub(max));
    assert s3 == s.(refused := {max});
    var tail := [CheckClosed(max), FetchAdd(max), FetchSub(max)];
    assert tail[1..] == [FetchAdd(max), FetchSub(max)];
    assert tail[1..][1..] == [FetchSub(max)] && tail[1..][1..][1..] == [];
    assert Runs(s3, tail[1..][1..][1..]) && Last(s3, tail[1..][1..][1..]) == s3;
    assert Runs(s2, tail[1..][1..]) && Last(s2, tail[1..][1..]) == s3;
    assert Runs(s1, tail[1..]) && Last(s1, tail[1..]) == s3;
    RunsConcat(Start(max), Calls(max), tail);
  }
}
