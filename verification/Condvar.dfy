/**
 The sequence-number condition variable of src/pthread.c, composed with the futex mutex.

 A waiter's unlock and relock are the mutex's own steps, taken by the same thread inside the wait,
 so everything proved about the mutex holds here without being assumed. The condition variable
 adds one 32-bit word and one sleep queue of its own.

 History, read by no step: `bumps` counts every increment of the word since the start, a waiter's
 `snap` and a waker's `mark` are values of that counter, `settled` is the largest mark of a
 broadcast that has returned. `pred` is the clients' predicate, set once and for good by a thread
 that owns the mutex, and `setAt` the bump count at that moment.
 */
module Condvar {
  import M = Mutex

  const TWO32: nat := 0x1_0000_0000
  const ETIMEDOUT := 110

  datatype Pc =
    | Out(rc: int)                                 // not in a call; what the last one returned
    | ReadSeq(timed: bool)                         // cond_wait: about to load seq
    | Unlocking(timed: bool, read: nat, snap: nat) // inside pthread_mutex_unlock
    | FutexWait(timed: bool, read: nat, snap: nat) // about to enter futex_wait(&seq, read)
    | Asleep(timed: bool, read: nat, snap: nat)    // queued in the kernel on seq
    | Woken(timedOut: bool)                        // back from futex_wait
    | Relocking(timedOut: bool)                    // inside pthread_mutex_lock
    | SigBump                                      // pthread_cond_signal: fetch_add
    | SigWake(mark: nat)                           // about to call futex_wake(&seq, 1)
    | BcBump                                       // pthread_cond_broadcast: fetch_add
    | BcWake(mark: nat)                            // about to call futex_wake(&seq, INT_MAX)

  datatype State = State(
    mutex: M.State, word: nat, pcs: seq<Pc>,
    bumps: nat, settled: nat, pred: bool, setAt: nat)

  datatype Action =
    | MutexMove(move: M.Action)
    | SetPredicate
    | CallWait(timed: bool)
    | CallSignal
    | CallBroadcast
    | Advance
    | Wake(sleeper: nat)
    | Disturb
    | Timeout

  predicate Init(s: State) {
    && M.Init(s.mutex)
    && |s.pcs| == |s.mutex.threads|
    && s.word == 0 && s.bumps == 0 && s.settled == 0 && !s.pred && s.setAt == 0
    && forall i :: 0 <= i < |s.pcs| ==> s.pcs[i].Out?
  }

  predicate HasSleeper(s: State) {
    exists i :: 0 <= i < |s.pcs| && s.pcs[i].Asleep?
  }

  function Put(s: State, t: nat, pc: Pc): State
    requires t < |s.pcs|
  {
    s.(pcs := s.pcs[t := pc])
  }

  function Bump(s: State): State {
    s.(word := (s.word + 1) % TWO32, bumps := s.bumps + 1)
  }

  function WakeOne(pc: Pc): Pc {
    if pc.Asleep? then Woken(false) else pc
  }

  function WakeAll(pcs: seq<Pc>): (r: seq<Pc>)
    ensures |r| == |pcs| && forall i :: 0 <= i < |pcs| ==> r[i] == WakeOne(pcs[i])
  {
    seq(|pcs|, i requires 0 <= i < |pcs| => WakeOne(pcs[i]))
  }

  // Thread `t` is outside the library, on both objects.
  predicate Free(s: State, t: nat) {
    t < |s.pcs| == |s.mutex.threads| && s.pcs[t].Out? && s.mutex.threads[t].pc.Idle?
  }

  predicate Owns(s: State, t: nat) {
    t < |s.mutex.threads| && s.mutex.threads[t].holds
  }

  // A thread runs the mutex on its own account, or as part of the wait it is in.
  predicate MutexStep(s: State, s': State, t: nat, a: M.Action)
    requires t < |s.pcs| == |s.mutex.threads|
  {
    && (s.pcs[t].Out? || ((s.pcs[t].Unlocking? || s.pcs[t].Relocking?) && !M.IsCall(a)))
    && s' == s.(mutex := s'.mutex)
    && M.Step(s.mutex, s'.mutex, t, a)
  }

  predicate AdvanceStep(s: State, s': State, t: nat)
    requires t < |s.pcs| == |s.mutex.threads|
  {
    match s.pcs[t]
    case ReadSeq(timed) =>
      && s' == Put(s, t, Unlocking(timed, s.word, s.bumps)).(mutex := s'.mutex)
      && M.Step(s.mutex, s'.mutex, t, M.CallUnlock)
    case Unlocking(timed, read, snap) =>
      s.mutex.threads[t].pc.Idle? && s' == Put(s, t, FutexWait(timed, read, snap))
    case FutexWait(timed, read, snap) =>
      s' == Put(s, t, if s.word == read then Asleep(timed, read, snap) else Woken(false))
    case Woken(timedOut) =>
      && s' == Put(s, t, Relocking(timedOut)).(mutex := s'.mutex)
      && M.Step(s.mutex, s'.mutex, t, M.CallLock)
    case Relocking(timedOut) =>
      s.mutex.threads[t].pc.Idle? && s' == Put(s, t, Out(if timedOut then -ETIMEDOUT else 0))
    case SigBump =>
      s' == Put(Bump(s), t, SigWake(s.bumps + 1))
    case SigWake(_) =>
      !HasSleeper(s) && s' == Put(s, t, Out(0))
    case BcBump =>
      s' == Put(Bump(s), t, BcWake(s.bumps + 1))
    case BcWake(mark) =>
      s' == s.(pcs := WakeAll(s.pcs)[t := Out(0)], settled := if mark > s.settled then mark else s.settled)
    case _ => false
  }

  // The demands on clients: a waiter owns the mutex and waits only on a predicate it finds unset,
  // and only an owner sets the predicate.
  predicate Step(s: State, s': State, t: nat, a: Action) {
    && t < |s.pcs| == |s.mutex.threads|
    && match a
       case MutexMove(m) => MutexStep(s, s', t, m)
       case SetPredicate =>
         Free(s, t) && Owns(s, t) && s' == if s.pred then s else s.(pred := true, setAt := s.bumps)
       case CallWait(timed) => Free(s, t) && Owns(s, t) && !s.pred && s' == Put(s, t, ReadSeq(timed))
       case CallSignal => Free(s, t) && s' == Put(s, t, SigBump)
       case CallBroadcast => Free(s, t) && s' == Put(s, t, BcBump)
       case Advance => AdvanceStep(s, s', t)
       case Wake(w) =>
         && s.pcs[t].SigWake?
         && w < |s.pcs| && s.pcs[w].Asleep?
         && s' == Put(Put(s, t, Out(0)), w, Woken(false))
       case Disturb => (s.pcs[t].FutexWait? || s.pcs[t].Asleep?) && s' == Put(s, t, Woken(false))
       case Timeout => s.pcs[t].Asleep? && s.pcs[t].timed && s' == Put(s, t, Woken(true))
  }

  ghost predicate Next(s: State, s': State) {
    exists t, a :: Step(s, s', t, a)
  }

  predicate Waiting(pc: Pc) {
    pc.Unlocking? || pc.FutexWait? || pc.Asleep?
  }

  // No broadcast has returned since the load, or the number of bumps since shows in the word.
  predicate Noticed(s: State, snap: nat) {
    snap >= s.settled || (s.bumps - snap) % TWO32 != 0
  }

  predicate Fresh(s: State) {
    forall i :: 0 <= i < |s.pcs| && s.pcs[i].FutexWait? ==> Noticed(s, s.pcs[i].snap)
  }

  ghost predicate IsRun(run: seq<State>) {
    && |run| > 0
    && Init(run[0])
    && forall i :: 0 <= i < |run| - 1 ==> Next(run[i], run[i + 1])
  }

  ghost predicate IsFreshRun(run: seq<State>) {
    IsRun(run) && forall i :: 0 <= i < |run| ==> Fresh(run[i])
  }

  // ---------------------------------------------------------------- invariants

  // Where the thread's mutex call stands at each point of a condition-variable call.
  predicate MutexAgrees(pc: Pc, th: M.Thread) {
    match pc
    case Out(_) => true
    case ReadSeq(_) => th == M.Thread(M.Idle, true)
    case Unlocking(_, _, _) =>
      || th.pc.UnlockSub? || th.pc.UnlockStore? || (th.pc.UnlockWake? && !th.holds)
      || th == M.Thread(M.Idle, false)
    case FutexWait(_, _, _) => th == M.Thread(M.Idle, false)
    case Asleep(_, _, _) => th == M.Thread(M.Idle, false)
    case Woken(_) => th == M.Thread(M.Idle, false)
    case Relocking(_) =>
      || ((th.pc.LockCas? || th.pc.LockXchg? || th.pc.FutexWait? || th.pc.Asleep?) && !th.holds)
      || th == M.Thread(M.Idle, true)
    case _ => th.pc.Idle?
  }

  predicate CallsAgree(s: State) {
    && |s.pcs| == |s.mutex.threads|
    && forall i :: 0 <= i < |s.pcs| ==> MutexAgrees(s.pcs[i], s.mutex.threads[i])
  }

  // Every number a thread carries is a past value of the bump counter.
  predicate PcIsPast(pc: Pc, bumps: nat) {
    && (Waiting(pc) ==> pc.snap <= bumps && pc.read == pc.snap % TWO32)
    && (pc.SigWake? || pc.BcWake? ==> pc.mark <= bumps)
  }

  predicate CountersArePast(s: State) {
    s.word == s.bumps % TWO32 && s.settled <= s.bumps && s.setAt <= s.bumps
  }

  predicate MarksArePast(s: State) {
    CountersArePast(s) && forall i :: 0 <= i < |s.pcs| ==> PcIsPast(s.pcs[i], s.bumps)
  }

  predicate NobodyMissed(s: State) {
    forall i :: 0 <= i < |s.pcs| && s.pcs[i].Asleep? ==> s.pcs[i].snap >= s.settled
  }

  // Once the predicate is set, nobody who is waiting read the word after that.
  predicate OldWaiter(s: State, pc: Pc) {
    s.pred ==> !pc.ReadSeq? && (Waiting(pc) ==> pc.snap <= s.setAt)
  }

  predicate OldWaitersOnly(s: State) {
    forall i :: 0 <= i < |s.pcs| ==> OldWaiter(s, s.pcs[i])
  }

  // A signaller that owns the mutex keeps newcomers out between its bump and its wake.
  predicate OwnedSignals(s: State)
    requires |s.pcs| == |s.mutex.threads|
  {
    forall t, i | 0 <= t < |s.pcs| && 0 <= i < |s.pcs| ::
      s.pcs[t].SigWake? && s.mutex.threads[t].holds && Waiting(s.pcs[i]) ==> s.pcs[i].snap < s.pcs[t].mark
  }

  predicate Inv(s: State) {
    M.Inv(s.mutex) && CallsAgree(s) && MarksArePast(s) && OldWaitersOnly(s) && OwnedSignals(s)
  }

  lemma StepIsMutexStep(s: State, s': State, t: nat, a: Action)
    requires M.Inv(s.mutex) && Step(s, s', t, a)
    ensures s'.mutex == s.mutex || exists m :: M.Step(s.mutex, s'.mutex, t, m)
    ensures M.Inv(s'.mutex)
  {
    if s'.mutex != s.mutex {
      var m :| M.Step(s.mutex, s'.mutex, t, m);
      M.StepKeepsExclusive(s.mutex, s'.mutex, t, m);
      M.StepKeepsNoLostWake(s.mutex, s'.mutex, t, m);
    }
  }

  // ---------------------------------------------------------------- what one step changes

  // Other threads are left alone, except that sleepers may be woken.
  predicate OthersKept(s: State, s': State, t: nat) {
    && |s'.pcs| == |s.pcs|
    && forall i :: 0 <= i < |s.pcs| && i != t ==> s'.pcs[i] == s.pcs[i] || s'.pcs[i] == WakeOne(s.pcs[i])
  }

  predicate OthersKeptOnMutex(s: State, s': State, t: nat) {
    && |s'.mutex.threads| == |s.mutex.threads|
    && forall i :: 0 <= i < |s.mutex.threads| && i != t ==>
         var th, th' := s.mutex.threads[i], s'.mutex.threads[i];
         th' == th || (th.pc.Asleep? && th' == th.(pc := M.LockXchg))
  }

  lemma StepKeepsOthers(s: State, s': State, t: nat, a: Action)
    requires Step(s, s', t, a)
    ensures OthersKept(s, s', t)
    ensures s.bumps <= s'.bumps
  {
  }

  lemma StepKeepsOthersOnMutex(s: State, s': State, t: nat, a: Action)
    requires Step(s, s', t, a)
    ensures OthersKeptOnMutex(s, s', t)
  {
    if s'.mutex != s.mutex {
      var m :| M.Step(s.mutex, s'.mutex, t, m);
      M.StepFrame(s.mutex, s'.mutex, t, m);
    }
  }

  // ---------------------------------------------------------------- preservation

  lemma StepperAgrees(s: State, s': State, t: nat, a: Action)
    requires M.Inv(s.mutex) && CallsAgree(s) && Step(s, s', t, a)
    requires |s'.pcs| == |s.pcs| && |s'.mutex.threads| == |s.mutex.threads|
    ensures MutexAgrees(s'.pcs[t], s'.mutex.threads[t])
  {
    assert MutexAgrees(s.pcs[t], s.mutex.threads[t]);
    assert s.mutex.threads[t].holds ==> M.SomeHolder(s.mutex);
  }

  lemma StepKeepsCalls(s: State, s': State, t: nat, a: Action)
    requires M.Inv(s.mutex) && CallsAgree(s) && Step(s, s', t, a)
    ensures CallsAgree(s')
  {
    StepKeepsOthers(s, s', t, a);
    StepKeepsOthersOnMutex(s, s', t, a);
    StepperAgrees(s, s', t, a);
    forall i | 0 <= i < |s'.pcs|
      ensures MutexAgrees(s'.pcs[i], s'.mutex.threads[i])
    {
      assert MutexAgrees(s.pcs[i], s.mutex.threads[i]);
    }
  }

  lemma CountersStayPast(s: State, s': State, t: nat, a: Action)
    requires MarksArePast(s) && Step(s, s', t, a)
    ensures CountersArePast(s')
  {
    assert PcIsPast(s.pcs[t], s.bumps);
  }

  lemma AdvancerIsPast(s: State, s': State, t: nat)
    requires CountersArePast(s) && t < |s.pcs| == |s.mutex.threads| && PcIsPast(s.pcs[t], s.bumps)
    requires AdvanceStep(s, s', t)
    ensures |s'.pcs| == |s.pcs| && PcIsPast(s'.pcs[t], s'.bumps)
  {
  }

  lemma StepperIsPast(s: State, s': State, t: nat, a: Action)
    requires MarksArePast(s) && Step(s, s', t, a)
    ensures |s'.pcs| == |s.pcs| && PcIsPast(s'.pcs[t], s'.bumps)
  {
    assert PcIsPast(s.pcs[t], s.bumps);
    if a.Advance? {
      AdvancerIsPast(s, s', t);
    }
  }

  lemma StepKeepsMarks(s: State, s': State, t: nat, a: Action)
    requires MarksArePast(s) && Step(s, s', t, a)
    ensures MarksArePast(s')
  {
    StepKeepsOthers(s, s', t, a);
    CountersStayPast(s, s', t, a);
    StepperIsPast(s, s', t, a);
    forall i | 0 <= i < |s'.pcs|
      ensures PcIsPast(s'.pcs[i], s'.bumps)
    {
      assert PcIsPast(s.pcs[i], s.bumps);
    }
  }

  lemma StepperIsOld(s: State, s': State, t: nat, a: Action)
    requires Inv(s) && Step(s, s', t, a) && |s'.pcs| == |s.pcs|
    ensures OldWaiter(s', s'.pcs[t])
  {
    assert OldWaiter(s, s.pcs[t]);
    assert PcIsPast(s.pcs[t], s.bumps);
  }

  lemma SettingShutsTheDoor(s: State, t: nat, i: nat)
    requires Inv(s) && Free(s, t) && Owns(s, t) && i < |s.pcs|
    ensures !s.pcs[i].ReadSeq? && (Waiting(s.pcs[i]) ==> s.pcs[i].snap <= s.bumps)
  {
    assert MutexAgrees(s.pcs[i], s.mutex.threads[i]);
    assert PcIsPast(s.pcs[i], s.bumps);
  }

  lemma StepKeepsOldWaiters(s: State, s': State, t: nat, a: Action)
    requires Inv(s) && Step(s, s', t, a)
    ensures OldWaitersOnly(s')
  {
    StepKeepsOthers(s, s', t, a);
    StepperIsOld(s, s', t, a);
    forall i | 0 <= i < |s'.pcs|
      ensures OldWaiter(s', s'.pcs[i])
    {
      assert OldWaiter(s, s.pcs[i]);
      if a.SetPredicate? {
        SettingShutsTheDoor(s, t, i);
      }
    }
  }

  lemma StepKeepsNobodyMissed(s: State, s': State, t: nat, a: Action)
    requires MarksArePast(s) && NobodyMissed(s) && Fresh(s) && Step(s, s', t, a)
    ensures NobodyMissed(s')
  {
  }

  /** At the kernel's comparison, exactly: nobody is missed afterwards if and only if no broadcast has
      returned since the waiter's load or the bumps since are no multiple of 2^32. */
  lemma ComparisonMissesExactly(s: State, s': State, t: nat)
    requires MarksArePast(s) && NobodyMissed(s) && t < |s.pcs| && s.pcs[t].FutexWait? && Step(s, s', t, Advance)
    ensures NobodyMissed(s') <==> Noticed(s, s.pcs[t].snap)
  {
    assert PcIsPast(s.pcs[t], s.bumps);
    assert s'.settled == s.settled && s'.pcs == s.pcs[t := s'.pcs[t]];
    assert s'.pcs[t].Asleep? ==> s'.pcs[t].snap == s.pcs[t].snap;
  }

  /** Fewer than 2^32 bumps during every wait are enough. */
  lemma FewBumpsAreNoticed(s: State)
    requires MarksArePast(s)
    requires forall i :: 0 <= i < |s.pcs| && s.pcs[i].FutexWait? ==> s.bumps < s.pcs[i].snap + TWO32
    ensures Fresh(s)
  {
    forall i | 0 <= i < |s.pcs| && s.pcs[i].FutexWait?
      ensures Noticed(s, s.pcs[i].snap)
    {
      assert PcIsPast(s.pcs[i], s.bumps);
    }
  }

  // The pair (k, i) of OwnedSignals, one at a time.
  predicate SignalAhead(s: State, k: nat, i: nat)
    requires k < |s.pcs| == |s.mutex.threads| && i < |s.pcs|
  {
    s.pcs[k].SigWake? && s.mutex.threads[k].holds && Waiting(s.pcs[i]) ==> s.pcs[i].snap < s.pcs[k].mark
  }

  lemma StepKeepsSignalAhead(s: State, s': State, t: nat, a: Action, k: nat, i: nat)
    requires Inv(s) && Step(s, s', t, a)
    requires OthersKept(s, s', t) && OthersKeptOnMutex(s, s', t)
    requires k < |s.pcs| && i < |s.pcs|
    ensures SignalAhead(s', k, i)
  {
    assert SignalAhead(s, k, i);
    assert PcIsPast(s.pcs[i], s.bumps);
    assert MutexAgrees(s.pcs[t], s.mutex.threads[t]);
  }

  lemma StepKeepsOwnedSignals(s: State, s': State, t: nat, a: Action)
    requires Inv(s) && Step(s, s', t, a)
    ensures |s'.pcs| == |s'.mutex.threads| && OwnedSignals(s')
  {
    StepKeepsOthers(s, s', t, a);
    StepKeepsOthersOnMutex(s, s', t, a);
    forall k, i | 0 <= k < |s'.pcs| && 0 <= i < |s'.pcs|
      ensures SignalAhead(s', k, i)
    {
      StepKeepsSignalAhead(s, s', t, a, k, i);
    }
  }

  lemma {:induction false} RunKeepsInv(run: seq<State>, i: nat)
    requires IsRun(run) && i < |run|
    ensures Inv(run[i])
  {
    if i > 0 {
      RunKeepsInv(run, i - 1);
      var s, s' := run[i - 1], run[i - 1 + 1];
      assert Next(s, s');
      var t, a :| Step(s, s', t, a);
      StepIsMutexStep(s, s', t, a);
      StepKeepsCalls(s, s', t, a);
      StepKeepsMarks(s, s', t, a);
      StepKeepsOldWaiters(s, s', t, a);
      StepKeepsOwnedSignals(s, s', t, a);
    }
  }

  lemma {:induction false} RunMissesNobody(run: seq<State>, i: nat)
    requires IsFreshRun(run) && i < |run|
    ensures NobodyMissed(run[i])
  {
    if i > 0 {
      RunMissesNobody(run, i - 1);
      RunKeepsInv(run, i - 1);
      assert Next(run[i - 1], run[i - 1 + 1]);
      var t, a :| Step(run[i - 1], run[i], t, a);
      assert Fresh(run[i - 1]);
      StepKeepsNobodyMissed(run[i - 1], run[i], t, a);
    }
  }

  lemma StepGrows(s: State, s': State, t: nat, a: Action)
    requires Step(s, s', t, a)
    ensures s.settled <= s'.settled
    ensures s.pred ==> s'.pred && s'.setAt == s.setAt
  {
  }

  lemma {:induction false} RunGrows(run: seq<State>, i: nat, j: nat)
    requires IsRun(run) && i <= j < |run|
    ensures run[i].settled <= run[j].settled
    ensures run[i].pred ==> run[j].pred && run[j].setAt == run[i].setAt
    decreases j
  {
    if i < j {
      RunGrows(run, i, j - 1);
      assert Next(run[j - 1], run[j - 1 + 1]);
      var t, a :| Step(run[j - 1], run[j], t, a);
      StepGrows(run[j - 1], run[j], t, a);
    }
  }

  // ---------------------------------------------------------------- theorems over every run

  // Between states i and i + 1 thread `t` returns from the broadcast whose bump made the count `mark`.
  predicate BroadcastReturns(run: seq<State>, i: nat, t: nat, mark: nat)
    requires i + 1 < |run|
  {
    t < |run[i].pcs| == |run[i + 1].pcs| && run[i].pcs[t] == BcWake(mark) && run[i + 1].pcs[t].Out?
  }

  /** From the moment a broadcast returns, no waiter whose load came before that broadcast's bump
      is asleep in its wait, then or ever after. */
  lemma BroadcastMissesNobody(run: seq<State>, i: nat, t: nat, mark: nat, j: nat, w: nat)
    requires IsFreshRun(run) && i < j < |run|
    requires BroadcastReturns(run, i, t, mark)
    requires w < |run[j].pcs| && run[j].pcs[w].Asleep?
    ensures run[j].pcs[w].snap >= mark
  {
    assert Next(run[i], run[i + 1]);
    var u, a :| Step(run[i], run[i + 1], u, a);
    assert run[i + 1].settled >= mark;
    RunGrows(run, i + 1, j);
    RunMissesNobody(run, j);
  }

  /** A predicate set for good under the mutex, followed by a broadcast, leaves nobody asleep: the
      predicate is set in state b, the broadcast's bump comes after it and its return is at state
      i, and no state after that has a sleeper. */
  lemma PredicateAndBroadcastWakeAll(run: seq<State>, b: nat, i: nat, t: nat, mark: nat, j: nat)
    requires IsFreshRun(run) && b < i < j < |run|
    requires run[b].pred && run[b].bumps < mark
    requires BroadcastReturns(run, i, t, mark)
    ensures !HasSleeper(run[j])
  {
    RunKeepsInv(run, b);
    RunKeepsInv(run, j);
    RunGrows(run, b, j);
    forall w | 0 <= w < |run[j].pcs|
      ensures !run[j].pcs[w].Asleep?
    {
      if run[j].pcs[w].Asleep? {
        BroadcastMissesNobody(run, i, t, mark, j, w);
      }
    }
  }

  lemma StepReturnsIdle(s: State, s': State, u: nat, a: Action, t: nat)
    requires Step(s, s', u, a)
    requires t < |s.pcs| == |s'.pcs| && s.pcs[t].Relocking? && s'.pcs[t].Out?
    ensures s'.mutex == s.mutex && s.mutex.threads[t].pc.Idle?
  {
  }

  /** Every wait returns with the mutex held, whether it was woken, interrupted or timed out. */
  lemma WaitReturnsHolding(run: seq<State>, i: nat, t: nat)
    requires IsRun(run) && i + 1 < |run|
    requires t < |run[i].pcs| == |run[i + 1].pcs|
    requires run[i].pcs[t].Relocking? && run[i + 1].pcs[t].Out?
    ensures run[i + 1].mutex.threads[t] == M.Thread(M.Idle, true)
    ensures M.AtMostOneHolder(run[i + 1].mutex)
  {
    RunKeepsInv(run, i);
    RunKeepsInv(run, i + 1);
    assert Next(run[i], run[i + 1]);
    var u, a :| Step(run[i], run[i + 1], u, a);
    assert MutexAgrees(run[i].pcs[t], run[i].mutex.threads[t]);
    StepReturnsIdle(run[i], run[i + 1], u, a, t);
  }

  /** A signal sent while owning the mutex is never spent on a latecomer: whoever its wake finds
      asleep had loaded the word before the signal's bump. */
  lemma OwnedSignalWakesAnEarlierWaiter(run: seq<State>, i: nat, t: nat, w: nat)
    requires IsRun(run) && i < |run|
    requires t < |run[i].pcs| && run[i].pcs[t].SigWake? && Owns(run[i], t)
    requires w < |run[i].pcs| && run[i].pcs[w].Asleep?
    ensures run[i].pcs[w].snap < run[i].pcs[t].mark
  {
    RunKeepsInv(run, i);
  }

  /** What the kernel's comparison decides, exactly: a waiter goes to sleep if and only if the
      number of bumps since its load is a multiple of 2^32. */
  lemma ComparisonIsModular(run: seq<State>, i: nat, t: nat, s': State)
    requires IsRun(run) && i < |run|
    requires t < |run[i].pcs| && run[i].pcs[t].FutexWait?
    requires Step(run[i], s', t, Advance)
    ensures s'.pcs[t].Asleep? <==> (run[i].bumps - run[i].pcs[t].snap) % TWO32 == 0
  {
    RunKeepsInv(run, i);
    assert PcIsPast(run[i].pcs[t], run[i].bumps);
  }

  // Thread 0 has loaded seq and released the mutex; thread 1 has broadcast n times since.
  function Parked(n: nat): State {
    State(M.State(0, [M.Thread(M.Idle, false), M.Thread(M.Idle, false)]), n % TWO32, [FutexWait(false, 0, 0), Out(0)],
          n, n, false, 0)
  }

  lemma RunExtends(run: seq<State>, s': State, t: nat, a: Action)
    requires IsRun(run) && Step(run[|run| - 1], s', t, a)
    ensures IsRun(run + [s'])
  {
    assert Next(run[|run| - 1], s');
  }

  // Thread 0 of two has taken the mutex and calls wait.
  const WAITING :=
    State(M.State(1, [M.Thread(M.Idle, true), M.Thread(M.Idle, false)]), 0, [ReadSeq(false), Out(0)], 0, 0, false, 0)

  lemma WaitingReachable() returns (run: seq<State>)
    ensures IsRun(run) && run[|run| - 1] == WAITING
  {
    var idle := M.Thread(M.Idle, false);
    var s0 := State(M.State(0, [idle, idle]), 0, [Out(0), Out(0)], 0, 0, false, 0);
    var s1 := s0.(mutex := M.State(0, [M.Thread(M.LockCas, false), idle]));
    var s2 := s0.(mutex := M.State(1, [M.Thread(M.Idle, true), idle]));
    assert IsRun([s0]);
    RunExtends([s0], s1, 0, MutexMove(M.CallLock));
    RunExtends([s0] + [s1], s2, 0, MutexMove(M.Advance));
    RunExtends([s0] + [s1] + [s2], WAITING, 0, CallWait(false));
    run := [s0] + [s1] + [s2] + [WAITING];
  }

  lemma ParkedReachable() returns (run: seq<State>)
    ensures IsRun(run) && run[|run| - 1] == Parked(0)
  {
    run := WaitingReachable();
    var idle := M.Thread(M.Idle, false);
    var s1 := WAITING.(pcs := [Unlocking(false, 0, 0), Out(0)],
                       mutex := M.State(1, [M.Thread(M.UnlockSub, true), idle]));
    var s2 := s1.(mutex := M.State(0, [idle, idle]));
    RunExtends(run, s1, 0, Advance);
    RunExtends(run + [s1], s2, 0, MutexMove(M.Advance));
    RunExtends(run + [s1] + [s2], Parked(0), 0, Advance);
    run := run + [s1] + [s2] + [Parked(0)];
  }

  lemma ParkedBroadcasts(run: seq<State>, n: nat) returns (run': seq<State>)
    requires IsRun(run) && run[|run| - 1] == Parked(n)
    ensures IsRun(run') && run'[|run'| - 1] == Parked(n + 1)
  {
    var s := Parked(n);
    var s1 := Put(s, 1, BcBump);
    var s2 := Put(Bump(s1), 1, BcWake(n + 1));
    assert WakeAll(s2.pcs)[1 := Out(0)] == Parked(n + 1).pcs;
    assert Step(s, s1, 1, CallBroadcast);
    RunExtends(run, s1, 1, CallBroadcast);
    assert Step(s1, s2, 1, Advance);
    RunExtends(run + [s1], s2, 1, Advance);
    assert Step(s2, Parked(n + 1), 1, Advance);
    RunExtends(run + [s1] + [s2], Parked(n + 1), 1, Advance);
    run' := run + [s1] + [s2] + [Parked(n + 1)];
  }

  lemma {:induction false} ParkedManyReachable(n: nat) returns (run: seq<State>)
    ensures IsRun(run) && run[|run| - 1] == Parked(n)
  {
    if n == 0 {
      run := ParkedReachable();
    } else {
      run := ParkedManyReachable(n - 1);
      run := ParkedBroadcasts(run, n - 1);
    }
  }

  /** The bound of 2^32 is needed: after exactly that many broadcasts between a waiter's load and
      its kernel entry the word is back where it was, and the waiter sleeps through all of them. */
  lemma WrappedSequenceMissesBroadcasts() returns (run: seq<State>, last: State)
    ensures IsRun(run) && last == run[|run| - 1]
    ensures |last.pcs| == 2 && last.pcs[0] == Asleep(false, 0, 0) && last.settled == TWO32
  {
    run := ParkedManyReachable(TWO32);
    last := Put(Parked(TWO32), 0, Asleep(false, 0, 0));
    assert Step(Parked(TWO32), last, 0, Advance);
    RunExtends(run, last, 0, Advance);
    run := run + [last];
  }
}
