/**
 What the semaphore calls of src/semaphore.c answer, from the call to its return, over every run; and
 that calls settle: a wait that does not return sleeps on an empty semaphore.
 */
module SemaphoreCalls {
  import opened Semaphore

  datatype Move = Move(thread: nat, action: Action)

  // Move i leads from state i to the next.
  predicate StepAt(run: seq<State>, moves: seq<Move>, i: nat)
    requires i < |moves| < |run|
  {
    Step(run[i], run[i + 1], moves[i].thread, moves[i].action)
  }

  // A run with the moves that made it.
  ghost predicate IsRunBy(run: seq<State>, moves: seq<Move>) {
    && |run| == |moves| + 1
    && Init(run[0])
    && forall i :: 0 <= i < |moves| ==> StepAt(run, moves, i)
  }

  lemma RunByIsRun(run: seq<State>, moves: seq<Move>)
    requires IsRunBy(run, moves)
    ensures IsRun(run)
  {
    forall i | 0 <= i < |run| - 1
      ensures Next(run[i], run[i + 1])
    {
      assert StepAt(run, moves, i);
    }
  }

  predicate IsCall(a: Action) {
    a.CallTryWait? || a.CallWait? || a.CallPost?
  }

  // ---------------------------------------------------------------- answers

  // Move i is this call by thread t, which has not returned in any state up to j.
  ghost predicate Inside(run: seq<State>, moves: seq<Move>, i: nat, j: nat, t: nat, call: Action) {
    && IsRunBy(run, moves) && i < j < |run| && IsCall(call) && moves[i] == Move(t, call)
    && forall k :: i < k <= j ==> t < |run[k].threads| && !run[k].threads[t].Idle?
  }

  // ... and returns with move j.
  ghost predicate Returns(run: seq<State>, moves: seq<Move>, i: nat, j: nat, t: nat, call: Action) {
    && Inside(run, moves, i, j, t, call) && j + 1 < |run|
    && t < |run[j + 1].threads| && run[j + 1].threads[t].Idle?
  }

  // What thread t's own moves from move i up to state j have done to the word.
  function Contribution(run: seq<State>, moves: seq<Move>, t: nat, i: nat, j: nat): int
    requires i <= j < |run| == |moves| + 1
    decreases j
  {
    if j == i then 0
    else
      Contribution(run, moves, t, i, j - 1)
      + if moves[j - 1].thread == t then Int32(run[j].value - run[j - 1].value) else 0
  }

  // Where a thread can be in a call, and what it has then done to the word.
  predicate InCall(call: Action, pc: Pc, done: int) {
    match call
    case CallTryWait => (pc.TryLoad? || pc.TryCas?) && done == 0
    case CallWait(timed) =>
      (pc.WaitLoad? || pc.WaitCas? || pc.WaitFutex? || pc.Asleep?) && pc.timed == timed && done == 0
    case CallPost => (pc.PostAdd? && done == 0) || (pc.PostWake? && done == 1)
    case _ => false
  }

  // What a call may return, and what it has then done to the word.
  predicate Answer(call: Action, rc: int, done: int) {
    match call
    case CallTryWait => (rc == 0 && done == -1) || (rc == -EAGAIN && done == 0)
    case CallWait(timed) => (rc == 0 && done == -1) || (timed && rc == -ETIMEDOUT && done == 0)
    case CallPost => rc == 0 && done == 1
    case _ => false
  }

  lemma OtherStep(s: State, s': State, u: nat, a: Action, t: nat)
    requires Step(s, s', u, a) && t < |s.threads| && u != t
    ensures |s'.threads| == |s.threads|
    ensures s'.threads[t] == s.threads[t] || (s.threads[t].Asleep? && s'.threads[t] == WaitLoad(s.threads[t].timed))
  {
  }

  lemma UnitSteps(v: int)
    requires -0x8000_0000 <= v <= INT_MAX
    ensures Int32(Int32(v + 1) - v) == 1 && Int32((v - 1) - v) == -1
  {
  }

  lemma OwnStep(s: State, s': State, t: nat, a: Action, call: Action, done: int)
    requires Conserved(s) && Step(s, s', t, a) && InCall(call, s.threads[t], done)
    ensures |s'.threads| == |s.threads|
    ensures var d := done + Int32(s'.value - s.value);
            if s'.threads[t].Idle? then Answer(call, s'.threads[t].rc, d) else InCall(call, s'.threads[t], d)
    ensures s'.threads[t] == Idle(-EAGAIN) ==> s.value <= 0
    ensures s'.threads[t] == Idle(-ETIMEDOUT) ==> s.threads[t].Asleep? && a.Timeout?
  {
    UnitSteps(s.value);
    assert Int32(0) == 0;
  }

  lemma {:induction false} RunKeepsThreads(run: seq<State>, moves: seq<Move>, i: nat)
    requires IsRunBy(run, moves) && i < |run|
    ensures |run[i].threads| == |run[0].threads|
  {
    if i > 0 {
      RunKeepsThreads(run, moves, i - 1);
      assert StepAt(run, moves, i - 1);
    }
  }

  lemma FirstStep(s: State, s': State, t: nat, call: Action)
    requires IsCall(call) && Step(s, s', t, call)
    ensures InCall(call, s'.threads[t], 0) && s'.value == s.value
  {
  }

  lemma LaterStep(s: State, s': State, m: Move, t: nat, call: Action, done: int)
    requires Conserved(s) && Step(s, s', m.thread, m.action) && t < |s.threads| == |s'.threads|
    requires InCall(call, s.threads[t], done) && !s'.threads[t].Idle?
    ensures InCall(call, s'.threads[t], done + if m.thread == t then Int32(s'.value - s.value) else 0)
  {
    if m.thread == t {
      OwnStep(s, s', t, m.action, call, done);
    } else {
      OtherStep(s, s', m.thread, m.action, t);
    }
  }

  lemma {:induction false} CallKeepsItsPlaces(run: seq<State>, moves: seq<Move>, i: nat, j: nat, t: nat, call: Action)
    requires Inside(run, moves, i, j, t, call)
    ensures t < |run[j].threads| && InCall(call, run[j].threads[t], Contribution(run, moves, t, i, j))
    decreases j
  {
    var k := j - 1;
    assert StepAt(run, moves, k);
    if k == i {
      FirstStep(run[k], run[j], t, call);
      assert Contribution(run, moves, t, i, i) == 0 && Int32(0) == 0;
    } else {
      CallKeepsItsPlaces(run, moves, i, k, t, call);
      RunByIsRun(run, moves);
      RunKeepsInv(run, k);
      RunKeepsThreads(run, moves, k);
      RunKeepsThreads(run, moves, j);
      LaterStep(run[k], run[j], moves[k], t, call, Contribution(run, moves, t, i, k));
    }
  }

  /** What every call returns, and what it has done to the word by then: a post has added one unit; a
      wait or trywait that returns 0 has taken one; a trywait that returns -EAGAIN has taken none and
      saw none; only a timed wait returns -ETIMEDOUT, having taken none and slept. */
  lemma CallsAnswer(run: seq<State>, moves: seq<Move>, i: nat, j: nat, t: nat, call: Action)
    requires Returns(run, moves, i, j, t, call)
    ensures Answer(call, run[j + 1].threads[t].rc, Contribution(run, moves, t, i, j + 1))
    ensures call.CallTryWait? && run[j + 1].threads[t].rc != 0 ==> run[j].value <= 0
    ensures call.CallWait? && run[j + 1].threads[t].rc != 0 ==>
              moves[j] == Move(t, Timeout) && t < |run[j].threads| && run[j].threads[t].Asleep?
  {
    CallKeepsItsPlaces(run, moves, i, j, t, call);
    RunByIsRun(run, moves);
    RunKeepsInv(run, j);
    var m := moves[j];
    assert StepAt(run, moves, j);
    if m.thread != t {
      OtherStep(run[j], run[j + 1], m.thread, m.action, t);
    }
    OwnStep(run[j], run[j + 1], t, m.action, call, Contribution(run, moves, t, i, j));
  }

  // Move k is a successful return from a wait or a trywait.
  predicate TakesWith(s: State, s': State, t: nat) {
    && t < |s.threads| == |s'.threads| && s'.threads[t] == Idle(0)
    && !s.threads[t].Idle? && !s.threads[t].PostAdd? && !s.threads[t].PostWake?
  }

  function Takes(run: seq<State>, moves: seq<Move>, i: nat): nat
    requires i < |run| == |moves| + 1
  {
    if i == 0 then 0 else Takes(run, moves, i - 1) + if TakesWith(run[i - 1], run[i], moves[i - 1].thread) then 1 else 0
  }

  lemma StepTakes(s: State, s': State, t: nat, a: Action)
    requires Step(s, s', t, a)
    ensures s'.taken == s.taken + if TakesWith(s, s', t) then 1 else 0
  {
  }

  /** Successful returns of waits and trywaits are exactly the units taken. */
  lemma {:induction false} SuccessesAreTakes(run: seq<State>, moves: seq<Move>, i: nat)
    requires IsRunBy(run, moves) && i < |run|
    ensures Takes(run, moves, i) == run[i].taken
  {
    if i > 0 {
      SuccessesAreTakes(run, moves, i - 1);
      assert StepAt(run, moves, i - 1);
      StepTakes(run[i - 1], run[i], moves[i - 1].thread, moves[i - 1].action);
    }
  }

  // ---------------------------------------------------------------- settling

  // How many steps a thread can still take on its own while the value stays. Whoever changes the value
  // pays two more for each of n threads; a poster pays for the sleeper it wakes.
  function Weight(pc: Pc, value: int, n: nat): nat {
    match pc
    case Idle(_) => 0
    case Asleep(_) => 1
    case TryLoad => 2 + 2 * n
    case TryCas(v) => if v == value then 1 + 2 * n else 2 + 2 * n
    case WaitLoad(_) => 2 + 2 * n
    case WaitCas(_, v) => if v == value then 1 + 2 * n else 3 + 2 * n
    case WaitFutex(_) => if value == 0 then 1 + 2 * n else 3 + 2 * n
    case PostWake => 3 + 2 * n
    case PostAdd => 4 + 4 * n
  }

  function TotalWeight(threads: seq<Pc>, value: int, n: nat): nat {
    if threads == [] then 0 else Weight(threads[0], value, n) + TotalWeight(threads[1..], value, n)
  }

  function Fuel(s: State): nat {
    TotalWeight(s.threads, s.value, |s.threads|)
  }

  lemma {:induction false} TotalWeightUpdate(threads: seq<Pc>, t: nat, pc: Pc, value: int, n: nat)
    requires t < |threads|
    ensures TotalWeight(threads[t := pc], value, n)
         == TotalWeight(threads, value, n) - Weight(threads[t], value, n) + Weight(pc, value, n)
  {
    if t == 0 {
      assert threads[0 := pc][1..] == threads[1..];
    } else {
      assert threads[t := pc][1..] == threads[1..][t - 1 := pc];
      TotalWeightUpdate(threads[1..], t - 1, pc, value, n);
    }
  }

  lemma {:induction false} TotalWeightValue(threads: seq<Pc>, value: int, value': int, n: nat)
    ensures TotalWeight(threads, value', n) <= TotalWeight(threads, value, n) + 2 * |threads|
  {
    if threads != [] {
      TotalWeightValue(threads[1..], value, value', n);
    }
  }

  predicate IsDisturbance(a: Action) {
    a.CasFails? || a.Disturb?
  }

  // The stepping thread's own weight pays for its step and for what its change costs the others.
  lemma StepperPays(s: State, s': State, t: nat, a: Action)
    requires s.value >= 0 && s'.value >= 0 && Step(s, s', t, a) && (a.Advance? || a.Timeout?)
    ensures s'.threads == s.threads[t := s'.threads[t]]
    ensures Weight(s'.threads[t], s'.value, |s.threads|) + (if s.value != s'.value then 2 * |s.threads| else 0)
          < Weight(s.threads[t], s.value, |s.threads|)
    ensures s.value != s'.value ==>
              Weight(s.threads[t], s.value, |s.threads|) <= Weight(s.threads[t], s'.value, |s.threads|)
  {
  }

  lemma StepBurnsFuel(s: State, s': State, t: nat, a: Action)
    requires s.value >= 0 && s'.value >= 0 && Step(s, s', t, a) && !IsCall(a)
    ensures if IsDisturbance(a) then Fuel(s') <= Fuel(s) + 1 + 2 * |s.threads| else Fuel(s') < Fuel(s)
    ensures |s'.threads| == |s.threads|
  {
    var n := |s.threads|;
    if a.Wake? {
      TotalWeightUpdate(s.threads, t, Idle(0), s.value, n);
      TotalWeightUpdate(s.threads[t := Idle(0)], a.sleeper, WaitLoad(s.threads[a.sleeper].timed), s.value, n);
    } else if IsDisturbance(a) {
      TotalWeightUpdate(s.threads, t, s'.threads[t], s.value, n);
    } else {
      StepperPays(s, s', t, a);
      TotalWeightUpdate(s.threads, t, s'.threads[t], s'.value, n);
      TotalWeightValue(s.threads, s.value, s'.value, n);
    }
  }

  // A run none of whose steps starts a new call, without overflow.
  ghost predicate CallFreeRun(run: seq<State>, moves: seq<Move>) {
    && |run| == |moves| + 1
    && Fine(run[0])
    && (forall i :: 0 <= i < |run| ==> Count(run[i]) <= INT_MAX)
    && forall i :: 0 <= i < |moves| ==>
         StepAt(run, moves, i) && !IsCall(moves[i].action)
  }

  function Disturbances(moves: seq<Move>): nat {
    if moves == [] then 0
    else Disturbances(moves[..|moves| - 1]) + if IsDisturbance(moves[|moves| - 1].action) then 1 else 0
  }

  predicate Fine(s: State) {
    Conserved(s) && NoLostPost(s)
  }

  lemma StepKeepsFine(s: State, s': State, t: nat, a: Action)
    requires Fine(s) && Step(s, s', t, a)
    ensures Fine(s')
  {
    StepKeepsConserved(s, s', t, a);
    StepKeepsNoLostPost(s, s', t, a);
  }

  lemma StepWithinFuel(s: State, s': State, m: Move)
    requires Fine(s) && Fine(s') && Count(s) <= INT_MAX && Count(s') <= INT_MAX
    requires !IsCall(m.action) && Step(s, s', m.thread, m.action)
    ensures |s'.threads| == |s.threads|
    ensures Fuel(s') + 1 <= Fuel(s) + if IsDisturbance(m.action) then 2 + 2 * |s.threads| else 0
  {
    StepBurnsFuel(s, s', m.thread, m.action);
  }

  lemma OneMoreMove(moves: seq<Move>, i: nat, cost: nat)
    requires 0 < i <= |moves|
    ensures cost * Disturbances(moves[..i])
         == cost * Disturbances(moves[..i - 1]) + if IsDisturbance(moves[i - 1].action) then cost else 0
  {
    assert moves[..i][..i - 1] == moves[..i - 1];
    var d := Disturbances(moves[..i - 1]);
    assert cost * (d + 1) == cost * d + cost;
  }

  lemma {:induction false} CallFreeRunIsFine(run: seq<State>, moves: seq<Move>, i: nat)
    requires CallFreeRun(run, moves) && i <= |moves|
    ensures Fine(run[i])
  {
    if i > 0 {
      CallFreeRunIsFine(run, moves, i - 1);
      assert StepAt(run, moves, i - 1);
      StepKeepsFine(run[i - 1], run[i], moves[i - 1].thread, moves[i - 1].action);
    }
  }

  lemma {:induction false} CallFreeRunBurnsFuel(run: seq<State>, moves: seq<Move>, i: nat)
    requires CallFreeRun(run, moves) && i <= |moves|
    ensures |run[i].threads| == |run[0].threads|
    ensures Fuel(run[i]) + i <= Fuel(run[0]) + (2 + 2 * |run[0].threads|) * Disturbances(moves[..i])
  {
    if i > 0 {
      var k := i - 1;
      CallFreeRunBurnsFuel(run, moves, k);
      CallFreeRunIsFine(run, moves, k);
      CallFreeRunIsFine(run, moves, i);
      assert StepAt(run, moves, k);
      StepWithinFuel(run[k], run[i], moves[k]);
      OneMoreMove(moves, i, 2 + 2 * |run[0].threads|);
    }
  }

  lemma BusyThreadMoves(s: State) returns (s': State, t: nat, a: Action)
    requires !Quiescent(s)
    ensures Step(s, s', t, a) && (a.Advance? || a.Wake?)
  {
    t :| t < |s.threads| && !s.threads[t].Idle? && !s.threads[t].Asleep?;
    if s.threads[t].PostWake? && HasSleeper(s) {
      var z :| 0 <= z < |s.threads| && s.threads[z].Asleep?;
      s', a := Put(Put(s, t, Idle(0)), z, WaitLoad(s.threads[z].timed)), Wake(z);
    } else {
      s', a := Advanced(s, t), Advance;
    }
  }

  /** Once clients stop making calls, and while the count fits the word, the library takes only
      boundedly many more steps, it can always take the next one until nobody inside it has a move left,
      and whoever then still sleeps waits for a semaphore that is empty. */
  lemma CallsSettle(run: seq<State>, moves: seq<Move>)
    requires CallFreeRun(run, moves)
    ensures |moves| <= Fuel(run[0]) + (2 + 2 * |run[0].threads|) * Disturbances(moves)
    ensures var last := run[|moves|];
            !Quiescent(last) ==> exists s', t, a :: Step(last, s', t, a) && (a.Advance? || a.Wake?)
    ensures var last := run[|moves|];
            Quiescent(last) && HasSleeper(last) ==> Count(last) == 0
  {
    CallFreeRunBurnsFuel(run, moves, |moves|);
    CallFreeRunIsFine(run, moves, |moves|);
    assert moves[..|moves|] == moves;
    var last := run[|moves|];
    assert Count(last) <= INT_MAX;
    if !Quiescent(last) {
      var s', t, a := BusyThreadMoves(last);
    } else {
      QuiescentAttendsNone(last.threads);
    }
  }

  /** The limit is exact: on a word that has gone negative a wait neither takes a unit nor sleeps, but
      comes back to the same state after two steps. */
  lemma NegativeValueSpins(s: State, t: nat, s1: State, s2: State)
    requires s.value < 0 && t < |s.threads| && s.threads[t].WaitLoad?
    requires Step(s, s1, t, Advance) && Step(s1, s2, t, Advance)
    ensures s2 == s && s1 != s
  {
    assert s.threads[t := s1.threads[t]][t := s.threads[t]] == s.threads;
  }
}
