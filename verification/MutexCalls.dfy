/**
 What the mutex calls of src/pthread.c answer, from the call to its return, over every run: trylock
 succeeds exactly on a mutex nobody owns and never blocks, lock returns only as the owner, unlock
 returns only having released, and an uncontended pair of calls makes no system call.
 */
module MutexCalls {
  import opened Mutex

  // Move i leads from state i to the next.
  predicate StepAt(run: seq<State>, moves: seq<Move>, i: nat)
    requires i < |moves| < |run|
  {
    Step(run[i], run[i + 1], moves[i].thread, moves[i].action)
  }

  // A run with the moves that made it.
  ghost predicate IsRunBy(run: seq<State>, moves: seq<Move>) {
    && |run| == |moves| + 1
    && Init(run[0])
    && forall i :: 0 <= i < |moves| ==> StepAt(run, moves, i)
  }

  lemma RunByIsRun(run: seq<State>, moves: seq<Move>)
    requires IsRunBy(run, moves)
    ensures IsRun(run)
  {
    forall i | 0 <= i < |run| - 1
      ensures Next(run[i], run[i + 1])
    {
      assert StepAt(run, moves, i);
    }
  }

  lemma {:induction false} RunKeepsThreads(run: seq<State>, moves: seq<Move>, i: nat)
    requires IsRunBy(run, moves) && i < |run|
    ensures |run[i].threads| == |run[0].threads|
  {
    if i > 0 {
      RunKeepsThreads(run, moves, i - 1);
      assert StepAt(run, moves, i - 1);
      StepFrame(run[i - 1], run[i], moves[i - 1].thread, moves[i - 1].action);
    }
  }

  lemma RunIsExclusive(run: seq<State>, moves: seq<Move>, i: nat)
    requires IsRunBy(run, moves) && i < |run|
    ensures Exclusive(run[i])
  {
    RunByIsRun(run, moves);
    RunKeepsInv(run, i);
  }

  // Move i is this call by thread t, which has not returned in any state up to j.
  ghost predicate Inside(run: seq<State>, moves: seq<Move>, i: nat, j: nat, t: nat, call: Action) {
    && IsRunBy(run, moves) && i < j < |run| && IsCall(call) && moves[i] == Move(t, call)
    && t < |run[0].threads|
    && forall k :: i < k <= j ==> t < |run[k].threads| && !run[k].threads[t].pc.Idle?
  }

  // ... and returns with move j.
  ghost predicate Returns(run: seq<State>, moves: seq<Move>, i: nat, j: nat, t: nat, call: Action) {
    && Inside(run, moves, i, j, t, call) && j + 1 < |run|
    && t < |run[j + 1].threads| && run[j + 1].threads[t].pc.Idle?
  }

  // Where a thread can be in a call, and whether it then owns the mutex, given whether it did before.
  predicate InCall(call: Action, th: Thread, owned: bool) {
    match call
    case CallTryLock => th == Thread(TryCas, owned)
    case CallLock => (th.pc.LockCas? || th.pc.LockXchg? || th.pc.FutexWait? || th.pc.Asleep?) && th.holds == owned
    case CallUnlock =>
      || ((th.pc.UnlockSub? || th.pc.UnlockStore?) && th.holds)
      || (th.pc.UnlockWake? && !th.holds)
    case _ => false
  }

  lemma StepStaysInCall(s: State, s': State, u: nat, a: Action, t: nat, call: Action, owned: bool)
    requires Step(s, s', u, a) && t < |s.threads| == |s'.threads| && InCall(call, s.threads[t], owned)
    ensures s'.threads[t].pc.Idle? || InCall(call, s'.threads[t], owned)
  {
    if u != t {
      StepFrame(s, s', u, a);
    }
  }

  lemma {:induction false} CallKeepsItsPlaces(run: seq<State>, moves: seq<Move>, i: nat, j: nat, t: nat, call: Action)
    requires Inside(run, moves, i, j, t, call)
    ensures t < |run[i].threads| && t < |run[j].threads|
    ensures InCall(call, run[j].threads[t], run[i].threads[t].holds)
    decreases j
  {
    RunKeepsThreads(run, moves, i);
    RunKeepsThreads(run, moves, j);
    if j == i + 1 {
      assert StepAt(run, moves, i);
    } else {
      CallKeepsItsPlaces(run, moves, i, j - 1, t, call);
      assert StepAt(run, moves, j - 1);
      StepStaysInCall(run[j - 1], run[j], moves[j - 1].thread, moves[j - 1].action, t, call, run[i].threads[t].holds);
    }
  }

  // Only a thread's own move takes it out of a call.
  lemma ReturnIsOwnMove(s: State, s': State, u: nat, a: Action, t: nat)
    requires Step(s, s', u, a) && t < |s.threads| == |s'.threads|
    requires !s.threads[t].pc.Idle? && s'.threads[t].pc.Idle?
    ensures u == t && (a.Advance? || (a.Wake? && s.threads[t].pc.UnlockWake?))
  {
    if u != t {
      StepFrame(s, s', u, a);
    }
  }

  /** pthread_mutex_trylock returns owning the mutex if and only if nobody owned it at its one access,
      changes nothing otherwise, and is never asleep. */
  lemma TryLockAnswers(run: seq<State>, moves: seq<Move>, i: nat, j: nat, t: nat)
    requires Returns(run, moves, i, j, t, CallTryLock)
    ensures t < |run[i].threads| && |run[j + 1].threads| == |run[j].threads|
    ensures !run[i].threads[t].holds ==> (run[j + 1].threads[t].holds <==> !SomeHolder(run[j]))
    ensures run[i].threads[t].holds ==> run[j + 1].threads[t].holds
    ensures SomeHolder(run[j]) ==> run[j + 1].word == run[j].word
    ensures forall k :: i < k <= j ==> t < |run[k].threads| && !run[k].threads[t].pc.Asleep?
  {
    RunByIsRun(run, moves);
    RunKeepsInv(run, j);
    RunKeepsThreads(run, moves, i);
    RunKeepsThreads(run, moves, j + 1);
    CallKeepsItsPlaces(run, moves, i, j, t, CallTryLock);
    assert StepAt(run, moves, j);
    ReturnIsOwnMove(run[j], run[j + 1], moves[j].thread, moves[j].action, t);
    assert run[j].threads[t].holds ==> SomeHolder(run[j]);
    forall k | i < k <= j
      ensures t < |run[k].threads| && !run[k].threads[t].pc.Asleep?
    {
      CallKeepsItsPlaces(run, moves, i, k, t, CallTryLock);
    }
  }

  /** pthread_mutex_lock returns only as the owner, having found the mutex owned by nobody. */
  lemma LockReturnsOwning(run: seq<State>, moves: seq<Move>, i: nat, j: nat, t: nat)
    requires Returns(run, moves, i, j, t, CallLock)
    ensures run[j + 1].threads[t].holds && !SomeHolder(run[j]) && AtMostOneHolder(run[j + 1])
  {
    RunByIsRun(run, moves);
    RunKeepsInv(run, j);
    RunKeepsInv(run, j + 1);
    RunKeepsThreads(run, moves, j);
    RunKeepsThreads(run, moves, j + 1);
    CallKeepsItsPlaces(run, moves, i, j, t, CallLock);
    assert StepAt(run, moves, j);
    ReturnIsOwnMove(run[j], run[j + 1], moves[j].thread, moves[j].action, t);
  }

  /** pthread_mutex_unlock returns only having given up the mutex it owned. */
  lemma UnlockReleases(run: seq<State>, moves: seq<Move>, i: nat, j: nat, t: nat)
    requires Returns(run, moves, i, j, t, CallUnlock)
    ensures t < |run[i].threads| && run[i].threads[t].holds && !run[j + 1].threads[t].holds
  {
    RunByIsRun(run, moves);
    RunKeepsInv(run, j);
    RunKeepsThreads(run, moves, i);
    RunKeepsThreads(run, moves, j);
    RunKeepsThreads(run, moves, j + 1);
    CallKeepsItsPlaces(run, moves, i, j, t, CallUnlock);
    assert StepAt(run, moves, i);
    assert StepAt(run, moves, j);
    ReturnIsOwnMove(run[j], run[j + 1], moves[j].thread, moves[j].action, t);
    assert run[j].threads[t].holds ==> SomeHolder(run[j]);
  }

  // ---------------------------------------------------------------- the wake

  /** The wake of an unlock takes exactly one sleeper out of the queue, if there is one, and touches
      nothing else. */
  lemma WakeTakesOne(s: State, s': State, t: nat, a: Action) returns (w: nat)
    requires Step(s, s', t, a) && s.threads[t].pc.UnlockWake?
    ensures s'.word == s.word
    ensures !HasSleeper(s) ==> s'.threads == s.threads[t := s.threads[t].(pc := Idle)]
    ensures HasSleeper(s) ==>
              && w < |s.threads| && s.threads[w].pc.Asleep? && w != t
              && s'.threads == s.threads[t := s.threads[t].(pc := Idle)][w := s.threads[w].(pc := LockXchg)]
  {
    w := if a.Wake? then a.sleeper else 0;
  }

  // ---------------------------------------------------------------- no contention

  // Nobody but t is ever inside the library, and t does not lock what it owns.
  ghost predicate Uncontended(run: seq<State>, t: nat) {
    forall k :: 0 <= k < |run| ==>
      && t < |run[k].threads|
      && (run[k].threads[t].pc.LockCas? ==> !run[k].threads[t].holds)
      && forall u :: 0 <= u < |run[k].threads| && u != t ==> run[k].threads[u] == Thread(Idle, false)
  }

  predicate NoKernel(s: State, t: nat)
    requires t < |s.threads|
  {
    var th := s.threads[t];
    && (th.pc.Idle? || th.pc.TryCas? || th.pc.LockCas? || th.pc.UnlockSub?)
    && s.word == if th.holds then 1 else 0
  }

  lemma StepNeedsNoKernel(s: State, s': State, m: Move, t: nat)
    requires Exclusive(s) && Step(s, s', m.thread, m.action) && t < |s.threads| == |s'.threads| && NoKernel(s, t)
    requires s.threads[t].pc.LockCas? ==> !s.threads[t].holds
    requires m.thread == t
    ensures NoKernel(s', t)
  {
    assert s.threads[t].holds ==> SomeHolder(s);
  }

  lemma OthersStayIdle(s: State, s': State, m: Move, t: nat)
    requires Step(s, s', m.thread, m.action) && |s.threads| == |s'.threads|
    requires forall u :: 0 <= u < |s.threads| && u != t ==> s.threads[u] == s'.threads[u] == Thread(Idle, false)
    ensures m.thread == t
  {
  }

  /** A thread that has the mutex to itself never enters the kernel and never leaves the word at 2. */
  lemma {:induction false} UncontendedNeedsNoKernel(run: seq<State>, moves: seq<Move>, t: nat, i: nat)
    requires IsRunBy(run, moves) && i < |run| && Uncontended(run, t)
    ensures t < |run[i].threads| && NoKernel(run[i], t)
  {
    if i > 0 {
      UncontendedNeedsNoKernel(run, moves, t, i - 1);
      assert StepAt(run, moves, i - 1);
      RunKeepsThreads(run, moves, i - 1);
      RunKeepsThreads(run, moves, i);
      RunIsExclusive(run, moves, i - 1);
      OthersStayIdle(run[i - 1], run[i], moves[i - 1], t);
      StepNeedsNoKernel(run[i - 1], run[i], moves[i - 1], t);
    }
  }
}
