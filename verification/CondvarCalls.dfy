/**
 What the condition-variable calls of src/pthread.c do, from the call to its return, over every run: a
 signal wakes exactly one waiter, a broadcast all of them, a wait reports a timeout if and only if it
 timed out, and a thread inside a call can always go on unless it sleeps.
 */
module CondvarCalls {
  import opened Condvar
  import M = Mutex

  datatype Move = Move(thread: nat, action: Action)

  // Move i leads from state i to the next.
  predicate StepAt(run: seq<State>, moves: seq<Move>, i: nat)
    requires i < |moves| < |run|
  {
    Step(run[i], run[i + 1], moves[i].thread, moves[i].action)
  }

  // A run with the moves that made it.
  ghost predicate IsRunBy(run: seq<State>, moves: seq<Move>) {
    && |run| == |moves| + 1
    && Init(run[0])
    && forall i :: 0 <= i < |moves| ==> StepAt(run, moves, i)
  }

  lemma RunByIsRun(run: seq<State>, moves: seq<Move>)
    requires IsRunBy(run, moves)
    ensures IsRun(run)
  {
    forall i | 0 <= i < |run| - 1
      ensures Next(run[i], run[i + 1])
    {
      assert StepAt(run, moves, i);
    }
  }

  predicate IsCall(a: Action) {
    a.CallWait? || a.CallSignal? || a.CallBroadcast?
  }

  // Move i is this call by thread t, which has not returned in any state up to j.
  ghost predicate Inside(run: seq<State>, moves: seq<Move>, i: nat, j: nat, t: nat, call: Action) {
    && IsRunBy(run, moves) && i < j < |run| && IsCall(call) && moves[i] == Move(t, call)
    && forall k :: i < k <= j ==> t < |run[k].pcs| && !run[k].pcs[t].Out?
  }

  // ... and returns with move j.
  ghost predicate Returns(run: seq<State>, moves: seq<Move>, i: nat, j: nat, t: nat, call: Action) {
    && Inside(run, moves, i, j, t, call) && j + 1 < |run|
    && t < |run[j + 1].pcs| && run[j + 1].pcs[t].Out?
  }

  // Thread t has timed out with one of the moves from i up to state j.
  predicate TimedOut(moves: seq<Move>, t: nat, i: nat, j: nat)
    requires i <= j <= |moves|
  {
    exists k :: i <= k < j && moves[k] == Move(t, Timeout)
  }

  // Where a thread can be in a call that began when the bump count was `from`.
  predicate InCall(call: Action, pc: Pc, timedOut: bool, from: nat, bumps: nat) {
    match call
    case CallWait(timed) =>
      if pc.Woken? || pc.Relocking? then pc.timedOut == timedOut && (timedOut ==> timed)
      else (pc.ReadSeq? || Waiting(pc)) && pc.timed == timed && !timedOut
    case CallSignal => pc.SigBump? || (pc.SigWake? && from < pc.mark <= bumps)
    case CallBroadcast => pc.BcBump? || (pc.BcWake? && from < pc.mark <= bumps)
    case _ => false
  }

  lemma FirstStep(s: State, s': State, t: nat, call: Action)
    requires IsCall(call) && Step(s, s', t, call)
    ensures |s'.pcs| == |s.pcs| && InCall(call, s'.pcs[t], false, s.bumps, s'.bumps)
  {
  }

  lemma OwnStep(s: State, s': State, t: nat, a: Action, call: Action, timedOut: bool, from: nat)
    requires Step(s, s', t, a) && InCall(call, s.pcs[t], timedOut, from, s.bumps) && from <= s.bumps
    ensures |s'.pcs| == |s.pcs|
    ensures !s'.pcs[t].Out? ==> InCall(call, s'.pcs[t], timedOut || a.Timeout?, from, s'.bumps)
    ensures s'.pcs[t].Out? && call.CallWait? ==>
              s.pcs[t].Relocking? && s'.pcs[t].rc == (if timedOut then -ETIMEDOUT else 0) && !a.Timeout?
    ensures s'.pcs[t].Out? && !call.CallWait? ==> s'.pcs[t].rc == 0
    ensures s'.pcs[t].Out? && call.CallSignal? ==> s.pcs[t].SigWake?
    ensures s'.pcs[t].Out? && call.CallBroadcast? ==> s.pcs[t].BcWake?
  {
  }

  lemma OtherStep(s: State, s': State, u: nat, a: Action, t: nat, call: Action, timedOut: bool, from: nat)
    requires Step(s, s', u, a) && u != t && t < |s.pcs| && InCall(call, s.pcs[t], timedOut, from, s.bumps)
    ensures |s'.pcs| == |s.pcs| && InCall(call, s'.pcs[t], timedOut, from, s'.bumps)
  {
    StepKeepsOthers(s, s', u, a);
  }

  lemma {:induction false} RunKeepsThreads(run: seq<State>, moves: seq<Move>, i: nat)
    requires IsRunBy(run, moves) && i < |run|
    ensures |run[i].pcs| == |run[0].pcs|
  {
    if i > 0 {
      RunKeepsThreads(run, moves, i - 1);
      assert StepAt(run, moves, i - 1);
      StepKeepsOthers(run[i - 1], run[i], moves[i - 1].thread, moves[i - 1].action);
    }
  }

  lemma {:induction false} CallKeepsItsPlaces(run: seq<State>, moves: seq<Move>, i: nat, j: nat, t: nat, call: Action)
    requires Inside(run, moves, i, j, t, call)
    ensures t < |run[j].pcs| && run[i].bumps <= run[j].bumps
    ensures InCall(call, run[j].pcs[t], TimedOut(moves, t, i, j), run[i].bumps, run[j].bumps)
    decreases j
  {
    var k := j - 1;
    assert StepAt(run, moves, k);
    StepKeepsOthers(run[k], run[j], moves[k].thread, moves[k].action);
    if k == i {
      FirstStep(run[i], run[j], t, call);
      assert !TimedOut(moves, t, i, j);
    } else {
      CallKeepsItsPlaces(run, moves, i, k, t, call);
      var m := moves[k];
      var before := TimedOut(moves, t, i, k);
      assert TimedOut(moves, t, i, j) <==> before || m == Move(t, Timeout);
      if m.thread == t {
        OwnStep(run[k], run[j], t, m.action, call, before, run[i].bumps);
      } else {
        OtherStep(run[k], run[j], m.thread, m.action, t, call, before, run[i].bumps);
      }
    }
  }

  // Only a thread's own move takes it out of a call.
  lemma ReturnIsOwnMove(run: seq<State>, moves: seq<Move>, i: nat, j: nat, t: nat, call: Action)
    requires Returns(run, moves, i, j, t, call)
    ensures moves[j].thread == t && t < |run[j].pcs| == |run[j + 1].pcs|
    ensures Step(run[j], run[j + 1], t, moves[j].action)
    ensures InCall(call, run[j].pcs[t], TimedOut(moves, t, i, j), run[i].bumps, run[j].bumps)
    ensures run[i].bumps <= run[j].bumps
  {
    CallKeepsItsPlaces(run, moves, i, j, t, call);
    assert StepAt(run, moves, j);
    StepKeepsOthers(run[j], run[j + 1], moves[j].thread, moves[j].action);
    assert run[j].pcs[t].Asleep? ==> WakeOne(run[j].pcs[t]) == Woken(false);
  }

  /** A wait returns -ETIMEDOUT if it timed out and 0 otherwise, never -ETIMEDOUT if it was given no
      timeout, and in any case as the only owner of the mutex. */
  lemma WaitAnswers(run: seq<State>, moves: seq<Move>, i: nat, j: nat, t: nat, timed: bool)
    requires Returns(run, moves, i, j, t, CallWait(timed))
    ensures run[j + 1].pcs[t].rc == if TimedOut(moves, t, i, j) then -ETIMEDOUT else 0
    ensures TimedOut(moves, t, i, j) ==> timed
    ensures t < |run[j + 1].mutex.threads| && run[j + 1].mutex.threads[t] == M.Thread(M.Idle, true)
    ensures M.AtMostOneHolder(run[j + 1].mutex)
  {
    ReturnIsOwnMove(run, moves, i, j, t, CallWait(timed));
    OwnStep(run[j], run[j + 1], t, moves[j].action, CallWait(timed), TimedOut(moves, t, i, j), run[i].bumps);
    RunByIsRun(run, moves);
    WaitReturnsHolding(run, j, t);
    RunKeepsInv(run, j + 1);
  }

  // ---------------------------------------------------------------- waking

  function Sleepers(pcs: seq<Pc>): nat {
    if pcs == [] then 0 else (if pcs[0].Asleep? then 1 else 0) + Sleepers(pcs[1..])
  }

  lemma {:induction false} SleepersUpdate(pcs: seq<Pc>, t: nat, pc: Pc)
    requires t < |pcs|
    ensures Sleepers(pcs[t := pc])
         == Sleepers(pcs) - (if pcs[t].Asleep? then 1 else 0) + (if pc.Asleep? then 1 else 0)
  {
    if t == 0 {
      assert pcs[0 := pc][1..] == pcs[1..];
    } else {
      assert pcs[t := pc][1..] == pcs[1..][t - 1 := pc];
      SleepersUpdate(pcs[1..], t - 1, pc);
    }
  }

  lemma WakeTakesOne(s: State, s': State, t: nat, a: Action) returns (w: nat)
    requires Step(s, s', t, a) && s.pcs[t].SigWake? && |s'.pcs| == |s.pcs| && s'.pcs[t].Out?
    ensures !HasSleeper(s) ==> s'.pcs == s.pcs[t := Out(0)]
    ensures HasSleeper(s) ==>
              && w < |s.pcs| && s.pcs[w].Asleep? && w != t
              && s'.pcs == s.pcs[t := Out(0)][w := Woken(false)]
  {
    w := if a.Wake? then a.sleeper else 0;
  }

  /** pthread_cond_signal, from its call to its return: it bumps the sequence number, and if anybody
      sleeps at its wake then exactly one sleeper is woken, without a timeout, and nobody else is
      touched. With the mutex owned, that one had begun to wait before the signal's bump. */
  lemma SignalWakesExactlyOne(run: seq<State>, moves: seq<Move>, i: nat, j: nat, t: nat) returns (w: nat)
    requires Returns(run, moves, i, j, t, CallSignal)
    ensures run[j].bumps > run[i].bumps && t < |run[j].pcs|
    ensures !HasSleeper(run[j]) ==> run[j + 1].pcs == run[j].pcs[t := Out(0)]
    ensures HasSleeper(run[j]) ==>
              && w < |run[j].pcs| && run[j].pcs[w].Asleep? && w != t
              && run[j + 1].pcs == run[j].pcs[t := Out(0)][w := Woken(false)]
              && Sleepers(run[j + 1].pcs) == Sleepers(run[j].pcs) - 1
              && (Owns(run[j], t) ==> run[j].pcs[t].SigWake? && run[j].pcs[w].snap < run[j].pcs[t].mark)
  {
    ReturnIsOwnMove(run, moves, i, j, t, CallSignal);
    OwnStep(run[j], run[j + 1], t, moves[j].action, CallSignal, TimedOut(moves, t, i, j), run[i].bumps);
    w := WakeTakesOne(run[j], run[j + 1], t, moves[j].action);
    if HasSleeper(run[j]) {
      SleepersUpdate(run[j].pcs, t, Out(0));
      SleepersUpdate(run[j].pcs[t := Out(0)], w, Woken(false));
      RunByIsRun(run, moves);
      if Owns(run[j], t) {
        OwnedSignalWakesAnEarlierWaiter(run, j, t, w);
      }
    }
  }

  /** pthread_cond_broadcast, from its call to its return: it bumps the sequence number, everybody who
      sleeps at its wake is woken without a timeout, and nobody else is touched. */
  lemma BroadcastWakesEveryone(run: seq<State>, moves: seq<Move>, i: nat, j: nat, t: nat)
    requires Returns(run, moves, i, j, t, CallBroadcast)
    ensures run[j].bumps > run[i].bumps && t < |run[j].pcs| == |run[j + 1].pcs| && run[j + 1].pcs[t] == Out(0)
    ensures forall w :: 0 <= w < |run[j].pcs| && w != t ==>
              run[j + 1].pcs[w] == if run[j].pcs[w].Asleep? then Woken(false) else run[j].pcs[w]
    ensures !HasSleeper(run[j + 1])
  {
    ReturnIsOwnMove(run, moves, i, j, t, CallBroadcast);
    OwnStep(run[j], run[j + 1], t, moves[j].action, CallBroadcast, TimedOut(moves, t, i, j), run[i].bumps);
  }

  /** A predicate set for good under the mutex, then a broadcast called and returned from: nobody sleeps
      in any later state. */
  lemma PredicateThenBroadcastWakeAll(run: seq<State>, moves: seq<Move>, b: nat, i: nat, j: nat, t: nat, k: nat)
    requires Returns(run, moves, i, j, t, CallBroadcast) && IsFreshRun(run)
    requires b <= i && run[b].pred && j < k < |run|
    ensures !HasSleeper(run[k])
  {
    ReturnIsOwnMove(run, moves, i, j, t, CallBroadcast);
    OwnStep(run[j], run[j + 1], t, moves[j].action, CallBroadcast, TimedOut(moves, t, i, j), run[i].bumps);
    RunByIsRun(run, moves);
    RunGrows(run, b, i);
    PredicateAndBroadcastWakeAll(run, i, j, t, run[j].pcs[t].mark, k);
  }

  // ---------------------------------------------------------------- going on

  // How many of its own steps a thread has left in its call, not counting those on the mutex.
  function Rank(pc: Pc): nat {
    match pc
    case Out(_) => 0
    case ReadSeq(_) => 6
    case Unlocking(_, _, _) => 5
    case FutexWait(_, _, _) => 4
    case Asleep(_, _, _) => 3
    case Woken(_) => 2
    case Relocking(_) => 1
    case SigBump => 2
    case SigWake(_) => 1
    case BcBump => 2
    case BcWake(_) => 1
  }

  /** Every step of a call leads on towards its return, and no step of another thread leads it back. */
  lemma CallsGoForward(s: State, s': State, t: nat, a: Action, u: nat)
    requires Step(s, s', t, a) && u < |s.pcs|
    ensures |s'.pcs| == |s.pcs|
    ensures u == t && (a.Advance? || a.Wake? || a.Disturb? || a.Timeout?) ==> Rank(s'.pcs[t]) < Rank(s.pcs[t])
    ensures u != t || a.MutexMove? || a.SetPredicate? ==> Rank(s'.pcs[u]) <= Rank(s.pcs[u])
  {
    StepKeepsOthers(s, s', t, a);
  }

  predicate IsForward(a: Action) {
    a.Advance? || a.Wake? || (a.MutexMove? && (a.move.Advance? || a.move.Wake?))
  }

  lemma MutexThreadMoves(s: State, t: nat) returns (s': State, a: Action)
    requires t < |s.pcs| == |s.mutex.threads| && (s.pcs[t].Unlocking? || s.pcs[t].Relocking?)
    requires !s.mutex.threads[t].pc.Idle? && !s.mutex.threads[t].pc.Asleep?
    ensures Step(s, s', t, a) && IsForward(a)
  {
    var th := s.mutex.threads[t];
    var m, m';
    if th.pc.UnlockWake? && M.HasSleeper(s.mutex) {
      var z :| 0 <= z < |s.mutex.threads| && s.mutex.threads[z].pc.Asleep?;
      m := M.Wake(z);
      m' := M.Put(M.Put(s.mutex, t, th.(pc := M.Idle)), z, s.mutex.threads[z].(pc := M.LockXchg));
    } else {
      m, m' := M.Advance, M.Advanced(s.mutex, t);
    }
    s', a := s.(mutex := m'), MutexMove(m);
  }

  /** In every reachable state a thread inside a call can take its next step, unless it sleeps on the
      condition variable or on the mutex. */
  lemma CallersMove(run: seq<State>, i: nat, t: nat) returns (s': State, a: Action)
    requires IsRun(run) && i < |run| && t < |run[i].pcs| == |run[i].mutex.threads|
    requires !run[i].pcs[t].Out? && !run[i].pcs[t].Asleep? && !run[i].mutex.threads[t].pc.Asleep?
    ensures Step(run[i], s', t, a) && IsForward(a)
  {
    RunKeepsInv(run, i);
    var s := run[i];
    var pc, th := s.pcs[t], s.mutex.threads[t];
    assert MutexAgrees(pc, th);
    if (pc.Unlocking? || pc.Relocking?) && !th.pc.Idle? {
      s', a := MutexThreadMoves(s, t);
    } else if pc.SigWake? && HasSleeper(s) {
      var z :| 0 <= z < |s.pcs| && s.pcs[z].Asleep?;
      s', a := Put(Put(s, t, Out(0)), z, Woken(false)), Wake(z);
    } else {
      a := Advance;
      s' := match pc
            case ReadSeq(timed) =>
              Put(s, t, Unlocking(timed, s.word, s.bumps)).(mutex := M.Put(s.mutex, t, th.(pc := M.UnlockSub)))
            case Unlocking(timed, read, snap) => Put(s, t, FutexWait(timed, read, snap))
            case FutexWait(timed, read, snap) =>
              Put(s, t, if s.word == read then Asleep(timed, read, snap) else Woken(false))
            case Woken(x) => Put(s, t, Relocking(x)).(mutex := M.Put(s.mutex, t, th.(pc := M.LockCas)))
            case Relocking(x) => Put(s, t, Out(if x then -ETIMEDOUT else 0))
            case SigBump => Put(Bump(s), t, SigWake(s.bumps + 1))
            case BcBump => Put(Bump(s), t, BcWake(s.bumps + 1))
            case BcWake(mark) =>
              s.(pcs := WakeAll(s.pcs)[t := Out(0)], settled := if mark > s.settled then mark else s.settled)
            case SigWake(_) => Put(s, t, Out(0))
            case _ => s;
    }
  }
}
