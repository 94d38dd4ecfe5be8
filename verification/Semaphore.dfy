/**
 The counting semaphore of src/semaphore.c as an interleaving transition system.

 The shared word is a signed 32-bit count. Each load, compare-exchange, fetch_add and kernel
 entry is one step; a weak compare-exchange may fail for no reason; a sleeper may be woken, may
 time out, or may return early. `initial`, `posts` and `taken` are history: they record what the
 clients have done and no step reads them.
 */
module Semaphore {

  const INT_MAX := 0x7FFF_FFFF
  const EAGAIN := 11
  const ETIMEDOUT := 110

  // Two's complement reduction to 32 bits.
  function Int32(x: int): (r: int)
    ensures -0x8000_0000 <= r <= INT_MAX
    ensures -0x8000_0000 <= x <= INT_MAX ==> r == x
  {
    (x + 0x8000_0000) % 0x1_0000_0000 - 0x8000_0000
  }

  // `timed` tells sem_timedwait_relative from sem_wait.
  datatype Pc =
    | Idle(rc: int)                 // outside the library, with what the last call returned
    | TryLoad                       // sem_trywait: the load
    | TryCas(v: int)                // sem_trywait: compare-exchange v -> v - 1
    | WaitLoad(timed: bool)         // sem_wait: top of the loop
    | WaitCas(timed: bool, v: int)  // sem_wait: compare-exchange v -> v - 1
    | WaitFutex(timed: bool)        // sem_wait: about to enter futex_wait(&value, 0)
    | Asleep(timed: bool)           // queued in the kernel on the word
    | PostAdd                       // sem_post: fetch_add
    | PostWake                      // sem_post: about to call futex_wake(&value, 1)

  datatype State = State(value: int, threads: seq<Pc>, initial: int, posts: nat, taken: nat)

  datatype Action =
    | CallTryWait
    | CallWait(timed: bool)
    | CallPost
    | Advance             // the access the thread is at; a compare-exchange of the right value succeeds
    | CasFails            // a weak compare-exchange failing although the value was right
    | Wake(sleeper: nat)  // futex_wake finding this sleeper
    | Disturb             // -EINTR or a spurious return from futex_wait
    | Timeout             // -ETIMEDOUT for a sleeper with a timeout

  // sem_init stores (int)value for an unsigned 32-bit value.
  predicate Init(s: State) {
    && 0 <= s.initial < 0x1_0000_0000
    && s.value == Int32(s.initial)
    && s.posts == 0 && s.taken == 0
    && forall i :: 0 <= i < |s.threads| ==> s.threads[i].Idle?
  }

  function Put(s: State, t: nat, pc: Pc): State
    requires t < |s.threads|
  {
    s.(threads := s.threads[t := pc])
  }

  predicate HasSleeper(s: State) {
    exists i :: 0 <= i < |s.threads| && s.threads[i].Asleep?
  }

  predicate Runnable(pc: Pc) {
    !pc.Idle? && !pc.Asleep?
  }

  // A failed compare-exchange leaves the value it saw in v, and trywait looks at that again.
  function TryAgain(v: int): Pc {
    if v > 0 then TryCas(v) else Idle(-EAGAIN)
  }

  function Advanced(s: State, t: nat): State
    requires t < |s.threads| && Runnable(s.threads[t])
  {
    match s.threads[t]
    case TryLoad => Put(s, t, TryAgain(s.value))
    case TryCas(v) =>
      if s.value == v then Put(s.(value := v - 1, taken := s.taken + 1), t, Idle(0))
      else Put(s, t, TryAgain(s.value))
    case WaitLoad(timed) => Put(s, t, if s.value > 0 then WaitCas(timed, s.value) else WaitFutex(timed))
    case WaitCas(timed, v) =>
      if s.value == v then Put(s.(value := v - 1, taken := s.taken + 1), t, Idle(0))
      else Put(s, t, WaitLoad(timed))
    case WaitFutex(timed) => Put(s, t, if s.value == 0 then Asleep(timed) else WaitLoad(timed))
    case PostAdd => Put(s.(value := Int32(s.value + 1), posts := s.posts + 1), t, PostWake)
    case PostWake => Put(s, t, Idle(0))
  }

  predicate Step(s: State, s': State, t: nat, a: Action) {
    && t < |s.threads|
    && var pc := s.threads[t];
       match a
       case CallTryWait => pc.Idle? && s' == Put(s, t, TryLoad)
       case CallWait(timed) => pc.Idle? && s' == Put(s, t, WaitLoad(timed))
       case CallPost => pc.Idle? && s' == Put(s, t, PostAdd)
       case Advance => Runnable(pc) && (pc.PostWake? ==> !HasSleeper(s)) && s' == Advanced(s, t)
       case CasFails =>
         || (pc.TryCas? && s' == Put(s, t, TryAgain(s.value)))
         || (pc.WaitCas? && s' == Put(s, t, WaitLoad(pc.timed)))
       case Wake(w) =>
         && pc.PostWake?
         && w < |s.threads| && s.threads[w].Asleep?
         && s' == Put(Put(s, t, Idle(0)), w, WaitLoad(s.threads[w].timed))
       case Disturb => (pc.WaitFutex? || pc.Asleep?) && s' == Put(s, t, WaitLoad(pc.timed))
       case Timeout => pc.Asleep? && pc.timed && s' == Put(s, t, Idle(-ETIMEDOUT))
  }

  ghost predicate Next(s: State, s': State) {
    exists t, a :: Step(s, s', t, a)
  }

  ghost predicate IsRun(run: seq<State>) {
    && |run| > 0
    && Init(run[0])
    && forall i :: 0 <= i < |run| - 1 ==> Next(run[i], run[i + 1])
  }

  // ---------------------------------------------------------------- conservation

  // The count the semaphore is meant to hold.
  function Count(s: State): int {
    s.initial + s.posts - s.taken
  }

  predicate CasExpectsPositive(pc: Pc) {
    match pc
    case TryCas(v) => v > 0
    case WaitCas(_, v) => v > 0
    case _ => true
  }

  predicate CasExpectations(s: State) {
    forall i :: 0 <= i < |s.threads| ==> CasExpectsPositive(s.threads[i])
  }

  predicate Conserved(s: State) {
    && s.value == Int32(Count(s))
    && Count(s) >= 0
    && CasExpectations(s)
  }

  lemma Int32Shift(x: int, d: int)
    ensures Int32(Int32(x) + d) == Int32(x + d)
  {
  }

  lemma StepKeepsExpectations(s: State, s': State, t: nat, a: Action)
    requires CasExpectations(s) && Step(s, s', t, a)
    ensures CasExpectations(s')
  {
  }

  lemma StepKeepsConserved(s: State, s': State, t: nat, a: Action)
    requires Conserved(s) && Step(s, s', t, a)
    ensures Conserved(s')
  {
    StepKeepsExpectations(s, s', t, a);
    assert CasExpectsPositive(s.threads[t]);
    Int32Shift(Count(s), 1);
  }

  // ---------------------------------------------------------------- no lost post

  // Threads that will still look at the count, or make a sleeper look at it, before they stop.
  predicate Attends(pc: Pc) {
    pc.WaitLoad? || pc.WaitCas? || pc.WaitFutex? || pc.PostWake?
  }

  function Attending(threads: seq<Pc>): nat {
    if threads == [] then 0 else (if Attends(threads[0]) then 1 else 0) + Attending(threads[1..])
  }

  lemma {:induction false} AttendingUpdate(threads: seq<Pc>, t: nat, pc: Pc)
    requires t < |threads|
    ensures Attending(threads[t := pc])
         == Attending(threads) - (if Attends(threads[t]) then 1 else 0) + (if Attends(pc) then 1 else 0)
  {
    if t == 0 {
      assert threads[0 := pc][1..] == threads[1..];
    } else {
      assert threads[t := pc][1..] == threads[1..][t - 1 := pc];
      AttendingUpdate(threads[1..], t - 1, pc);
    }
  }

  predicate NoLostPost(s: State) {
    HasSleeper(s) ==> s.value <= Attending(s.threads)
  }

  lemma StepKeepsNoLostPost(s: State, s': State, t: nat, a: Action)
    requires Conserved(s) && NoLostPost(s) && Step(s, s', t, a)
    ensures NoLostPost(s')
  {
    if a.Wake? {
      AttendingUpdate(s.threads, t, Idle(0));
      AttendingUpdate(s.threads[t := Idle(0)], a.sleeper, WaitLoad(s.threads[a.sleeper].timed));
    } else {
      AttendingUpdate(s.threads, t, s'.threads[t]);
      assert s'.threads == s.threads[t := s'.threads[t]];
    }
    if HasSleeper(s') && !HasSleeper(s) {
      assert s'.value == 0;
    }
  }

  lemma {:induction false} RunKeepsInv(run: seq<State>, i: nat)
    requires IsRun(run) && i < |run|
    ensures Conserved(run[i]) && NoLostPost(run[i])
  {
    if i > 0 {
      RunKeepsInv(run, i - 1);
      assert Next(run[i - 1], run[i - 1 + 1]);
      var t, a :| Step(run[i - 1], run[i], t, a);
      StepKeepsConserved(run[i - 1], run[i], t, a);
      StepKeepsNoLostPost(run[i - 1], run[i], t, a);
    }
  }

  // ---------------------------------------------------------------- theorems over every run

  /** Conservation, with its exact limit. The true count never goes negative, and the word holds
      it in every reachable state but those where it is above INT_MAX. */
  lemma CountIsConserved(run: seq<State>, i: nat)
    requires IsRun(run) && i < |run|
    ensures Count(run[i]) >= 0
    ensures run[i].value == Count(run[i]) <==> Count(run[i]) <= INT_MAX
  {
    RunKeepsInv(run, i);
  }

  predicate Quiescent(s: State) {
    forall i :: 0 <= i < |s.threads| ==> s.threads[i].Idle? || s.threads[i].Asleep?
  }

  lemma {:induction false} QuiescentAttendsNone(threads: seq<Pc>)
    requires forall i :: 0 <= i < |threads| ==> threads[i].Idle? || threads[i].Asleep?
    ensures Attending(threads) == 0
  {
    if threads != [] {
      assert threads[0].Idle? || threads[0].Asleep?;
      QuiescentAttendsNone(threads[1..]);
    }
  }

  /** No post is lost: units in the word never outnumber the threads that are on their way to them
      while anyone sleeps, so once nobody inside the library has a move left, a sleeper means the
      semaphore is really empty. */
  lemma NoPostIsLost(run: seq<State>, i: nat)
    requires IsRun(run) && i < |run|
    ensures HasSleeper(run[i]) ==> run[i].value <= Attending(run[i].threads)
    ensures HasSleeper(run[i]) && Quiescent(run[i]) && Count(run[i]) <= INT_MAX ==> Count(run[i]) == 0
  {
    RunKeepsInv(run, i);
    if Quiescent(run[i]) {
      QuiescentAttendsNone(run[i].threads);
    }
  }

  /** sem_post has no overflow check: a semaphore initialised to INT_MAX and posted once reads as
      negative, although two to the thirty-first units are there to be taken. */
  lemma PostOverflows() returns (run: seq<State>)
    ensures IsRun(run) && |run| == 3
    ensures Count(run[2]) == 0x8000_0000 && run[2].value == -0x8000_0000
  {
    var s0 := State(INT_MAX, [Idle(0)], INT_MAX, 0, 0);
    var s1 := Put(s0, 0, PostAdd);
    var s2 := Advanced(s1, 0);
    run := [s0, s1, s2];
    assert Step(s0, s1, 0, CallPost);
    assert Step(s1, s2, 0, Advance);
    assert Next(s0, s1) && Next(s1, s2);
  }

  // ---------------------------------------------------------------- refinement of a plain counter

  predicate CounterStep(n: int, n': int) {
    n' == n || n' == n + 1 || (n > 0 && n' == n - 1)
  }

  /** Below the overflow limit every step is a step of a plain counter, a unit leaves only a
      positive count, and a call gives up only on a count it saw at zero. */
  lemma StepRefinesCounter(s: State, s': State, t: nat, a: Action)
    requires Conserved(s) && Step(s, s', t, a)
    requires Count(s) <= INT_MAX && Count(s') <= INT_MAX
    ensures CounterStep(Count(s), Count(s')) && s'.value == Count(s')
    ensures s'.taken > s.taken ==> s.value > 0 && s'.threads[t].Idle?
    ensures (s.threads[t].TryLoad? || s.threads[t].TryCas?) && s'.threads[t].Idle? && s'.taken == s.taken ==>
              s.value == 0
    ensures s'.threads[t].Asleep? && !s.threads[t].Asleep? ==> s.value == 0
  {
    StepKeepsConserved(s, s', t, a);
  }
}
