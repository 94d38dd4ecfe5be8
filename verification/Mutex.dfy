/**
 The three-state futex mutex of src/pthread.c as an interleaving transition system.

 Any number of threads share one word. A step is one atomic access to that word, one kernel
 entry, or a client deciding to call into the library. The kernel's side is the contract in
 include/futex.h: the comparison and the decision to sleep are one step, a wake releases one
 sleeper if there is one, and a sleeper may also return on its own (a signal or a spurious wake).
 */
module Mutex {

  // Where a thread is. `Idle` is outside the library; every other value names the next atomic
  // access of the call the thread is in.
  datatype Pc =
    | Idle
    | TryCas       // pthread_mutex_trylock: compare-exchange 0 -> 1
    | LockCas      // pthread_mutex_lock: the uncontended compare-exchange
    | LockXchg     // about to exchange in 2
    | FutexWait    // about to enter futex_wait(&state, 2)
    | Asleep       // queued in the kernel on the word
    | UnlockSub    // pthread_mutex_unlock: fetch_sub
    | UnlockStore  // saw something other than 1; about to store 0
    | UnlockWake   // about to call futex_wake(&state, 1)

  datatype Thread = Thread(pc: Pc, holds: bool)

  datatype State = State(word: int, threads: seq<Thread>)

  datatype Action =
    | CallTryLock
    | CallLock
    | CallUnlock
    | Advance             // the atomic access or kernel entry the thread is at
    | Wake(sleeper: nat)  // futex_wake finding this sleeper
    | Disturb             // -EINTR or a spurious return from futex_wait

  predicate Init(s: State) {
    s.word == 0 && forall i :: 0 <= i < |s.threads| ==> s.threads[i] == Thread(Idle, false)
  }

  function Put(s: State, t: nat, th: Thread): State
    requires t < |s.threads|
  {
    s.(threads := s.threads[t := th])
  }

  predicate HasSleeper(s: State) {
    exists i :: 0 <= i < |s.threads| && s.threads[i].pc.Asleep?
  }

  // The pcs at which a thread's next move is its own.
  predicate Runnable(pc: Pc) {
    !pc.Idle? && !pc.Asleep?
  }

  // The effect of the access a thread is at. A wake that finds a sleeper is `Wake` instead.
  function Advanced(s: State, t: nat): State
    requires t < |s.threads| && Runnable(s.threads[t].pc)
  {
    var th := s.threads[t];
    match th.pc
    case TryCas =>
      if s.word == 0 then Put(s.(word := 1), t, Thread(Idle, true)) else Put(s, t, th.(pc := Idle))
    case LockCas =>
      if s.word == 0 then Put(s.(word := 1), t, Thread(Idle, true))
      else if s.word != 2 then Put(s, t, th.(pc := LockXchg))
      else Put(s, t, th.(pc := FutexWait))
    case LockXchg =>
      if s.word == 0 then Put(s.(word := 2), t, Thread(Idle, true))
      else Put(s.(word := 2), t, th.(pc := FutexWait))
    case FutexWait =>
      if s.word == 2 then Put(s, t, th.(pc := Asleep)) else Put(s, t, th.(pc := LockXchg))
    case UnlockSub =>
      if s.word == 1 then Put(s.(word := 0), t, Thread(Idle, false))
      else Put(s.(word := s.word - 1), t, th.(pc := UnlockStore))
    case UnlockStore =>
      Put(s.(word := 0), t, Thread(UnlockWake, false))
    case UnlockWake =>
      Put(s, t, th.(pc := Idle))
  }

  // Thread `t` takes action `a`. The one demand on clients is that only a holder unlocks.
  predicate Step(s: State, s': State, t: nat, a: Action) {
    && t < |s.threads|
    && var th := s.threads[t];
       match a
       case CallTryLock => th.pc.Idle? && s' == Put(s, t, th.(pc := TryCas))
       case CallLock => th.pc.Idle? && s' == Put(s, t, th.(pc := LockCas))
       case CallUnlock => th.pc.Idle? && th.holds && s' == Put(s, t, th.(pc := UnlockSub))
       case Advance =>
         && Runnable(th.pc)
         && (th.pc.UnlockWake? ==> !HasSleeper(s))
         && s' == Advanced(s, t)
       case Wake(w) =>
         && th.pc.UnlockWake?
         && w < |s.threads| && s.threads[w].pc.Asleep?
         && s' == Put(Put(s, t, th.(pc := Idle)), w, s.threads[w].(pc := LockXchg))
       case Disturb =>
         (th.pc.FutexWait? || th.pc.Asleep?) && s' == Put(s, t, th.(pc := LockXchg))
  }

  predicate IsCall(a: Action) {
    a.CallTryLock? || a.CallLock? || a.CallUnlock?
  }

  ghost predicate Next(s: State, s': State) {
    exists t, a :: Step(s, s', t, a)
  }

  // A step the library or the kernel takes with no client starting a new call.
  ghost predicate Internal(s: State, s': State) {
    exists t, a :: Step(s, s', t, a) && !IsCall(a)
  }

  ghost predicate IsRun(run: seq<State>) {
    && |run| > 0
    && Init(run[0])
    && forall i :: 0 <= i < |run| - 1 ==> Next(run[i], run[i + 1])
  }

  // ---------------------------------------------------------------- mutual exclusion

  predicate AtMostOneHolder(s: State) {
    forall i, j :: 0 <= i < |s.threads| && 0 <= j < |s.threads| && s.threads[i].holds && s.threads[j].holds ==> i == j
  }

  predicate SomeHolder(s: State) {
    exists i :: 0 <= i < |s.threads| && s.threads[i].holds
  }

  // An unlocker owns the mutex until the access that makes the word 0.
  predicate UnlockersHold(s: State) {
    forall i :: 0 <= i < |s.threads| && (s.threads[i].pc.UnlockSub? || s.threads[i].pc.UnlockStore?) ==>
      s.threads[i].holds
  }

  predicate Exclusive(s: State) {
    && 0 <= s.word <= 2
    && AtMostOneHolder(s)
    && (s.word != 0 <==> SomeHolder(s))
    && UnlockersHold(s)
  }

  // ---------------------------------------------------------------- no lost wakeup

  // Somebody awake is committed to a move that will look after the sleepers: an unlocker on its
  // way to futex_wake, or a thread that will publish 2 (and take the lock if it is free).
  predicate Caretaker(pc: Pc) {
    pc.UnlockStore? || pc.UnlockWake? || pc.LockXchg?
  }

  predicate HasCaretaker(s: State) {
    exists i :: 0 <= i < |s.threads| && Caretaker(s.threads[i].pc)
  }

  predicate NoLostWake(s: State) {
    HasSleeper(s) ==> s.word == 2 || HasCaretaker(s)
  }

  predicate Inv(s: State) {
    Exclusive(s) && NoLostWake(s)
  }

  // Other threads are left alone, except that one sleeper may be woken.
  lemma StepFrame(s: State, s': State, t: nat, a: Action)
    requires Step(s, s', t, a)
    ensures |s'.threads| == |s.threads|
    ensures forall i :: 0 <= i < |s.threads| && i != t ==>
              || s'.threads[i] == s.threads[i]
              || (s.threads[i].pc.Asleep? && s'.threads[i] == s.threads[i].(pc := LockXchg))
  {
  }

  // What one step can do to ownership: only the stepping thread's claim moves, and it gains the
  // mutex only from word 0.
  lemma StepMovesOneClaim(s: State, s': State, t: nat, a: Action)
    requires Exclusive(s) && Step(s, s', t, a)
    ensures |s'.threads| == |s.threads| && 0 <= s'.word <= 2
    ensures forall i :: 0 <= i < |s.threads| && i != t ==> s'.threads[i].holds == s.threads[i].holds
    ensures s'.threads[t].holds && !s.threads[t].holds ==> s.word == 0
    ensures s'.word != 0 <==> s'.threads[t].holds || (s.word != 0 && !s.threads[t].holds)
  {
    assert s.threads[t].holds ==> SomeHolder(s);
  }

  lemma StepKeepsPcs(s: State, s': State, t: nat, a: Action)
    requires Exclusive(s) && Step(s, s', t, a)
    ensures UnlockersHold(s')
  {
  }

  lemma StepKeepsExclusive(s: State, s': State, t: nat, a: Action)
    requires Exclusive(s) && Step(s, s', t, a)
    ensures Exclusive(s')
  {
    StepMovesOneClaim(s, s', t, a);
    StepKeepsPcs(s, s', t, a);
    assert s'.threads[t].holds ==> SomeHolder(s');
    if s.word != 0 {
      var h :| 0 <= h < |s.threads| && s.threads[h].holds;
      assert h != t ==> s'.threads[h].holds;
    }
  }

  lemma StepKeepsNoLostWake(s: State, s': State, t: nat, a: Action)
    requires Inv(s) && Step(s, s', t, a)
    ensures NoLostWake(s')
  {
    assert Caretaker(s'.threads[t].pc) ==> HasCaretaker(s');
    if a.Wake? {
      assert Caretaker(s'.threads[a.sleeper].pc);
    } else if HasSleeper(s') && s'.word != 2 && !Caretaker(s'.threads[t].pc) {
      var z :| 0 <= z < |s'.threads| && s'.threads[z].pc.Asleep?;
      assert z != t ==> s.threads[z].pc.Asleep?;
      if HasCaretaker(s) {
        var c :| 0 <= c < |s.threads| && Caretaker(s.threads[c].pc);
        assert c != t ==> Caretaker(s'.threads[c].pc);
      }
    }
  }

  lemma {:induction false} RunKeepsInv(run: seq<State>, i: nat)
    requires IsRun(run) && i < |run|
    ensures Inv(run[i])
  {
    if i > 0 {
      RunKeepsInv(run, i - 1);
      assert Next(run[i - 1], run[i - 1 + 1]);
      var t, a :| Step(run[i - 1], run[i], t, a);
      StepKeepsExclusive(run[i - 1], run[i], t, a);
      StepKeepsNoLostWake(run[i - 1], run[i], t, a);
    }
  }

  // ---------------------------------------------------------------- theorems over every run

  /** In every reachable state the word is 0, 1 or 2, it is 0 exactly when nobody owns the mutex,
      and at most one thread owns it. */
  lemma MutualExclusion(run: seq<State>, i: nat)
    requires IsRun(run) && i < |run|
    ensures run[i].word in {0, 1, 2}
    ensures run[i].word == 0 <==> !SomeHolder(run[i])
    ensures AtMostOneHolder(run[i])
  {
    RunKeepsInv(run, i);
  }

  // Nobody has a move of its own left inside the library.
  predicate Quiescent(s: State) {
    forall i :: 0 <= i < |s.threads| ==> s.threads[i].pc.Idle? || s.threads[i].pc.Asleep?
  }

  /** No wakeup is lost: whoever sleeps is covered by the word or by a caretaker, so when the
      library has nothing left to do a sleeper is waiting for a mutex somebody really owns. */
  lemma NoWakeupIsLost(run: seq<State>, i: nat)
    requires IsRun(run) && i < |run|
    ensures HasSleeper(run[i]) ==> run[i].word == 2 || HasCaretaker(run[i])
    ensures HasSleeper(run[i]) && Quiescent(run[i]) ==> run[i].word == 2 && SomeHolder(run[i])
  {
    RunKeepsInv(run, i);
  }

  /** A free mutex with a sleeper can change hands within two steps, with no new call by any client. */
  lemma FreeMutexIsTaken(run: seq<State>, i: nat) returns (s1: State, s2: State)
    requires IsRun(run) && i < |run|
    requires run[i].word == 0 && HasSleeper(run[i])
    ensures Internal(run[i], s1) && (s1 == s2 || Internal(s1, s2))
    ensures SomeHolder(s2)
  {
    RunKeepsInv(run, i);
    var s := run[i];
    var c :| 0 <= c < |s.threads| && Caretaker(s.threads[c].pc);
    assert s.threads[c].holds ==> SomeHolder(s);
    if s.threads[c].pc.LockXchg? {
      s1 := Advanced(s, c);
      assert Step(s, s1, c, Advance);
      s2 := s1;
      assert s2.threads[c].holds;
    } else {
      var z :| 0 <= z < |s.threads| && s.threads[z].pc.Asleep?;
      s1 := Put(Put(s, c, s.threads[c].(pc := Idle)), z, s.threads[z].(pc := LockXchg));
      assert Step(s, s1, c, Wake(z));
      s2 := Advanced(s1, z);
      assert Step(s1, s2, z, Advance);
      assert s2.threads[z].holds;
    }
  }

  // ---------------------------------------------------------------- refinement of a plain lock

  datatype Lock = Free | HeldBy(owner: nat)

  ghost function Abstraction(s: State): Lock {
    if i :| 0 <= i < |s.threads| && s.threads[i].holds then HeldBy(i) else Free
  }

  predicate LockStep(l: Lock, l': Lock, t: nat) {
    || l' == l
    || (l == Free && l' == HeldBy(t))
    || (l == HeldBy(t) && l' == Free)
  }

  /** Every step is a step of a one-word lock: no change, a take by the stepping thread when the
      lock is free, or a release by its owner. */
  lemma StepRefinesLock(s: State, s': State, t: nat, a: Action)
    requires Exclusive(s) && Step(s, s', t, a)
    ensures LockStep(Abstraction(s), Abstraction(s'), t)
  {
    StepMovesOneClaim(s, s', t, a);
    StepKeepsExclusive(s, s', t, a);
    assert s.threads[t].holds ==> SomeHolder(s);
  }

  // ---------------------------------------------------------------- termination

  // How many steps a thread at `pc` can still take on its own. A waiter that finds the word
  // moved goes round its loop once more, so an unlocker's weight pays for n such rounds per
  // change it makes to the word.
  function Weight(pc: Pc, word: int, n: nat): nat {
    match pc
    case Idle => 0
    case Asleep => 0
    case TryCas => 1
    case LockCas => 4
    case LockXchg => 2
    case FutexWait => if word == 2 then 1 else 3
    case UnlockWake => 3
    case UnlockStore => 4 + 2 * n
    case UnlockSub => 5 + 4 * n
  }

  function TotalWeight(threads: seq<Thread>, word: int, n: nat): nat {
    if threads == [] then 0 else Weight(threads[0].pc, word, n) + TotalWeight(threads[1..], word, n)
  }

  function Fuel(s: State): nat {
    TotalWeight(s.threads, s.word, |s.threads|)
  }

  lemma {:induction false} TotalWeightUpdate(threads: seq<Thread>, t: nat, th: Thread, word: int, n: nat)
    requires t < |threads|
    ensures TotalWeight(threads[t := th], word, n)
         == TotalWeight(threads, word, n) - Weight(threads[t].pc, word, n) + Weight(th.pc, word, n)
  {
    if t == 0 {
      assert threads[0 := th][1..] == threads[1..];
    } else {
      assert threads[t := th][1..] == threads[1..][t - 1 := th];
      TotalWeightUpdate(threads[1..], t - 1, th, word, n);
    }
  }

  lemma {:induction false} TotalWeightWord(threads: seq<Thread>, word: int, word': int, n: nat)
    ensures TotalWeight(threads, word', n) <= TotalWeight(threads, word, n) + 2 * |threads|
    ensures word' == 2 || word != 2 ==> TotalWeight(threads, word', n) <= TotalWeight(threads, word, n)
  {
    if threads != [] {
      TotalWeightWord(threads[1..], word, word', n);
    }
  }

  // The stepping thread's own weight pays for its step and for what the word change costs others.
  lemma StepperPays(s: State, s': State, t: nat, a: Action)
    requires Exclusive(s) && Step(s, s', t, a) && a.Advance?
    ensures s'.threads == s.threads[t := s'.threads[t]]
    ensures Weight(s'.threads[t].pc, s'.word, |s.threads|) + (if s.word == 2 != s'.word then 2 * |s.threads| else 0)
          < Weight(s.threads[t].pc, s'.word, |s.threads|)
  {
    assert s.threads[t].holds ==> SomeHolder(s);
  }

  lemma StepBurnsFuel(s: State, s': State, t: nat, a: Action)
    requires Exclusive(s) && Step(s, s', t, a) && !IsCall(a)
    ensures if a.Disturb? then Fuel(s') <= Fuel(s) + 2 else Fuel(s') < Fuel(s)
  {
    var n := |s.threads|;
    if a.Wake? {
      var mid := s.threads[t := s.threads[t].(pc := Idle)];
      TotalWeightUpdate(s.threads, t, s.threads[t].(pc := Idle), s.word, n);
      TotalWeightUpdate(mid, a.sleeper, s.threads[a.sleeper].(pc := LockXchg), s.word, n);
    } else if a.Disturb? {
      TotalWeightUpdate(s.threads, t, s.threads[t].(pc := LockXchg), s.word, n);
    } else {
      StepperPays(s, s', t, a);
      TotalWeightWord(s.threads, s.word, s'.word, n);
      TotalWeightUpdate(s.threads, t, s'.threads[t], s'.word, n);
    }
  }

  // A run none of whose steps starts a new call, with the moves that made it.
  datatype Move = Move(thread: nat, action: Action)

  ghost predicate CallFreeRun(run: seq<State>, moves: seq<Move>) {
    && |run| == |moves| + 1
    && Inv(run[0])
    && forall i :: 0 <= i < |moves| ==>
         !IsCall(moves[i].action) && Step(run[i], run[i + 1], moves[i].thread, moves[i].action)
  }

  function Disturbances(moves: seq<Move>): nat {
    if moves == [] then 0
    else Disturbances(moves[..|moves| - 1]) + if moves[|moves| - 1].action.Disturb? then 1 else 0
  }

  lemma {:induction false} CallFreeRunBurnsFuel(run: seq<State>, moves: seq<Move>, i: nat)
    requires CallFreeRun(run, moves) && i <= |moves|
    ensures Inv(run[i])
    ensures Fuel(run[i]) + i <= Fuel(run[0]) + 3 * Disturbances(moves[..i])
  {
    if i > 0 {
      var k := i - 1;
      CallFreeRunBurnsFuel(run, moves, k);
      var m := moves[k];
      assert Step(run[k], run[k + 1], m.thread, m.action);
      StepBurnsFuel(run[k], run[i], m.thread, m.action);
      StepKeepsExclusive(run[k], run[i], m.thread, m.action);
      StepKeepsNoLostWake(run[k], run[i], m.thread, m.action);
      assert moves[..i][..k] == moves[..k];
    }
  }

  /** Liveness. Once clients stop making calls, the library takes only boundedly many more steps
      (counting three for each time the kernel disturbs a waiter), it can always take the next one
      until nobody inside it has a move left, and whoever is then still asleep waits for a mutex
      that somebody owns. */
  lemma CallsSettle(run: seq<State>, moves: seq<Move>)
    requires CallFreeRun(run, moves)
    ensures |moves| <= Fuel(run[0]) + 3 * Disturbances(moves)
    ensures var last := run[|moves|];
            !Quiescent(last) ==> exists s', t, a :: Step(last, s', t, a) && (a.Advance? || a.Wake?)
    ensures var last := run[|moves|];
            Quiescent(last) && HasSleeper(last) ==> SomeHolder(last)
  {
    CallFreeRunBurnsFuel(run, moves, |moves|);
    assert moves[..|moves|] == moves;
    if !Quiescent(run[|moves|]) {
      var s', t, a := BusyThreadMoves(run[|moves|]);
    }
  }

  lemma BusyThreadMoves(s: State) returns (s': State, t: nat, a: Action)
    requires !Quiescent(s)
    ensures Step(s, s', t, a) && (a.Advance? || a.Wake?)
  {
    t :| t < |s.threads| && Runnable(s.threads[t].pc);
    if s.threads[t].pc.UnlockWake? && HasSleeper(s) {
      var z :| 0 <= z < |s.threads| && s.threads[z].pc.Asleep?;
      s', a := Put(Put(s, t, s.threads[t].(pc := Idle)), z, s.threads[z].(pc := LockXchg)), Wake(z);
    } else {
      s', a := Advanced(s, t), Advance;
    }
  }
}
