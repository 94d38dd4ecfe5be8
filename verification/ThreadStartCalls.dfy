/**
 thread_create of src/thread.c from its call to its return, and the new thread after it, over every
 run: what the call answers, that a created thread runs what that very call was given, and that no
 creation or start gets stuck.
 */
module ThreadStartCalls {
  import opened ThreadStart

  datatype Move = Move(thread: nat, action: Action)

  // Move i leads from state i to the next.
  predicate StepAt(run: seq<State>, moves: seq<Move>, i: nat)
    requires i < |moves| < |run|
  {
    Step(run[i], run[i + 1], moves[i].thread, moves[i].action)
  }

  // A run with the moves that made it.
  ghost predicate IsRunBy(run: seq<State>, moves: seq<Move>) {
    && |run| == |moves| + 1
    && Init(run[0])
    && forall i :: 0 <= i < |moves| ==> StepAt(run, moves, i)
  }

  lemma RunByIsRun(run: seq<State>, moves: seq<Move>)
    requires IsRunBy(run, moves)
    ensures IsRun(run)
  {
    forall i | 0 <= i < |run| - 1
      ensures Next(run[i], run[i + 1])
    {
      assert StepAt(run, moves, i);
    }
  }

  // Move h is thread c's call with these arguments, which has not returned in any state up to j.
  ghost predicate Inside(run: seq<State>, moves: seq<Move>, h: nat, j: nat, c: nat, args: Work) {
    && IsRunBy(run, moves) && h < j < |run| && moves[h] == Move(c, CallCreate(args))
    && forall k :: h < k <= j ==> c < |run[k].threads| && !run[k].threads[c].call.NoCall?
  }

  // ... and returns with move j.
  ghost predicate Returns(run: seq<State>, moves: seq<Move>, h: nat, j: nat, c: nat, args: Work) {
    && Inside(run, moves, h, j, c, args) && j + 1 < |run|
    && c < |run[j + 1].threads| && run[j + 1].threads[c].call.NoCall?
  }

  // ---------------------------------------------------------------- the call

  // Slot x was in use in some state of the call so far.
  predicate SeenInUse(run: seq<State>, h: nat, j: nat, x: nat) {
    exists k :: h < k <= j && k < |run| && x < |run[k].slots| && run[k].slots[x].inUse
  }

  // Thread u came into being with one of the call's moves so far, made by c.
  predicate Made(run: seq<State>, moves: seq<Move>, h: nat, j: nat, c: nat, u: int) {
    exists k :: h < k < j && MadeAt(run, moves, k, c, u)
  }

  predicate MadeAt(run: seq<State>, moves: seq<Move>, k: nat, c: nat, u: int) {
    k + 1 < |run| && k < |moves| && moves[k].thread == c && u == |run[k].threads| < |run[k + 1].threads|
  }

  predicate Refused(moves: seq<Move>, h: nat, j: nat, c: nat, code: int) {
    exists k :: h < k < j && k < |moves| && moves[k] == Move(c, SpawnFails(code))
  }

  // Where the call stands.
  predicate Stands(run: seq<State>, moves: seq<Move>, h: nat, j: nat, c: nat, args: Work, call: Call) {
    match call
    case NoCall(_, _) => false
    case Scan(i, a) => a == args && forall x :: 0 <= x < i ==> SeenInUse(run, h, j, x)
    case StoreFn(_, a) => a == args
    case StoreArg(_, a) => a == args
    case Spawn(_, a) => a == args
    case Undo(_, code) => code < 0 && Refused(moves, h, j, c, code)
    case Report(tid) => Made(run, moves, h, j, c, tid)
  }

  // No thread came into being by c between states h and j.
  predicate MadeNone(run: seq<State>, moves: seq<Move>, h: nat, j: nat, c: nat) {
    forall k | h < k < j && k + 1 < |run| && k < |moves| && moves[k].thread == c ::
      |run[k + 1].threads| == |run[k].threads|
  }

  lemma StandsStays(run: seq<State>, moves: seq<Move>, h: nat, j: nat, c: nat, args: Work, call: Call)
    requires j + 1 < |run| && Stands(run, moves, h, j, c, args, call)
    ensures Stands(run, moves, h, j + 1, c, args, call)
  {
    var j' := j + 1;
    match call
    case Scan(i, _) =>
      forall x | 0 <= x < i
        ensures SeenInUse(run, h, j', x)
      {
        assert SeenInUse(run, h, j, x);
      }
    case Undo(_, code) => assert Refused(moves, h, j, c, code);
    case Report(tid) => assert Made(run, moves, h, j, c, tid);
    case _ =>
  }

  lemma OtherStep(s: State, s': State, u: nat, a: Action, c: nat)
    requires Step(s, s', u, a) && u != c && c < |s.threads|
    ensures c < |s'.threads| && s'.threads[c] == s.threads[c]
  {
  }

  // One own step of a call, as far as it shows in the two states.
  lemma OwnStep(s: State, s': State, c: nat, a: Action)
    requires Step(s, s', c, a) && s.threads[c].boot.Running? && !s.threads[c].call.NoCall?
    ensures c < |s'.threads|
    ensures |s'.threads| > |s.threads| <==> s.threads[c].call.Spawn? && a.Advance?
    ensures var call, call' := s.threads[c].call, s'.threads[c].call;
            match call
            case Scan(i, args) =>
              if i >= |s.slots| then call' == NoCall(-EAGAIN, -1)
              else if s.slots[i].inUse then call' == Scan(i + 1, args)
              else call' == StoreFn(i, args)
            case StoreFn(i, args) => call' == StoreArg(i, args)
            case StoreArg(i, args) => call' == Spawn(i, args)
            case Spawn(i, args) =>
              if a.Advance? then call' == Report(|s.threads|)
              else a.SpawnFails? && a.code < 0 && call' == Undo(i, a.code)
            case Undo(_, code) => call' == NoCall(code, -1)
            case Report(tid) => call' == NoCall(0, tid)
            case NoCall(_, _) => true
  {
  }

  lemma StandsOn(run: seq<State>, moves: seq<Move>, h: nat, j: nat, c: nat, args: Work)
    requires h < j && j + 1 < |run| == |moves| + 1 && StepAt(run, moves, j) && moves[j].thread == c
    requires run[j].threads[c].boot.Running? && Stands(run, moves, h, j, c, args, run[j].threads[c].call)
    requires c < |run[j + 1].threads| && !run[j + 1].threads[c].call.NoCall?
    ensures Stands(run, moves, h, j + 1, c, args, run[j + 1].threads[c].call)
  {
    var s, s', a := run[j], run[j + 1], moves[j].action;
    OwnStep(s, s', c, a);
    StandsStays(run, moves, h, j, c, args, s.threads[c].call);
    match s.threads[c].call
    case Scan(i, _) =>
      if i < |s.slots| && s.slots[i].inUse {
        assert SeenInUse(run, h, j + 1, i);
      }
    case Spawn(_, _) =>
      if a.Advance? {
        assert MadeAt(run, moves, j, c, |s.threads|);
      } else {
        assert moves[j] == Move(c, SpawnFails(a.code));
      }
    case _ =>
  }

  lemma {:induction false} CallStands(run: seq<State>, moves: seq<Move>, h: nat, j: nat, c: nat, args: Work)
    requires Inside(run, moves, h, j, c, args)
    ensures c < |run[j].threads| && run[j].threads[c].boot.Running?
    ensures Stands(run, moves, h, j, c, args, run[j].threads[c].call)
    decreases j
  {
    var k := j - 1;
    assert StepAt(run, moves, k);
    if k > h {
      CallStands(run, moves, h, k, c, args);
      if moves[k].thread == c {
        StandsOn(run, moves, h, k, c, args);
        StaysRunning(run[k], run[j], c, moves[k].action);
      } else {
        OtherStep(run[k], run[j], moves[k].thread, moves[k].action, c);
        StandsStays(run, moves, h, k, c, args, run[k].threads[c].call);
      }
    }
  }

  lemma StaysRunning(s: State, s': State, c: nat, a: Action)
    requires Step(s, s', c, a) && s.threads[c].boot.Running? && !s.threads[c].call.NoCall?
    ensures c < |s'.threads| && s'.threads[c].boot.Running?
  {
  }

  lemma {:induction false} NothingMadeYet(run: seq<State>, moves: seq<Move>, h: nat, j: nat, c: nat, args: Work)
    requires Inside(run, moves, h, j, c, args) && !run[j].threads[c].call.Report?
    ensures MadeNone(run, moves, h, j, c)
    decreases j
  {
    var k := j - 1;
    if k > h {
      CallStands(run, moves, h, k, c, args);
      assert StepAt(run, moves, k);
      if moves[k].thread == c {
        OwnStep(run[k], run[j], c, moves[k].action);
      } else {
        OtherStep(run[k], run[j], moves[k].thread, moves[k].action, c);
      }
      NothingMadeYet(run, moves, h, k, c, args);
    }
  }

  /** What thread_create answers. 0 with the id of a thread that this very call made; -EAGAIN if it saw
      every slot in use; or the system call's own code, if that failed. Without 0, it made no thread. */
  lemma CreateAnswers(run: seq<State>, moves: seq<Move>, h: nat, j: nat, c: nat, args: Work)
    requires Returns(run, moves, h, j, c, args)
    ensures var r := run[j + 1].threads[c].call;
            || (r.rc == 0 && Made(run, moves, h, j, c, r.out))
            || (r.rc == -EAGAIN && forall x :: 0 <= x < |run[j].slots| ==> SeenInUse(run, h, j, x))
            || (r.rc < 0 && Refused(moves, h, j, c, r.rc))
    ensures run[j + 1].threads[c].call.rc != 0 ==> MadeNone(run, moves, h, j + 1, c)
  {
    CallStands(run, moves, h, j, c, args);
    assert StepAt(run, moves, j);
    if moves[j].thread != c {
      OtherStep(run[j], run[j + 1], moves[j].thread, moves[j].action, c);
    }
    OwnStep(run[j], run[j + 1], c, moves[j].action);
    if run[j + 1].threads[c].call.rc != 0 {
      NothingMadeYet(run, moves, h, j, c, args);
    }
  }

  // ---------------------------------------------------------------- the thread

  /** A thread made by a call of thread_create runs exactly the function and argument that call was
      given, in every later state in which it runs at all. */
  lemma ThreadRunsWhatItWasGiven(run: seq<State>, moves: seq<Move>, h: nat, k: nat, c: nat, args: Work,
      u: nat, j: nat)
    requires Inside(run, moves, h, k, c, args) && MadeAt(run, moves, k, c, u) && k < j < |run|
    ensures u < |run[j].threads|
    ensures run[j].threads[u].boot.Running? ==> run[j].threads[u].boot.work == args
  {
    CallStands(run, moves, h, k, c, args);
    assert StepAt(run, moves, k);
    OwnStep(run[k], run[k + 1], c, moves[k].action);
    RunByIsRun(run, moves);
    assert Creates(run, k, c, args, u);
    ThreadRunsItsOwnWork(run, k, c, args, u, j);
  }

  // ---------------------------------------------------------------- going on

  // The own steps a thread has left before it runs, and in its call; slots never change in number.
  function BootLeft(boot: Boot): nat {
    match boot
    case ReadFn(_) => 4
    case ReadArg(_, _) => 3
    case FreeSlot(_, _) => 2
    case SetupTls(_) => 1
    case Running(_) => 0
    case Exited(_) => 0
  }

  function CallLeft(call: Call, slots: nat): nat {
    match call
    case NoCall(_, _) => 0
    case Scan(i, _) => if i < slots then slots - i + 5 else 5
    case StoreFn(_, _) => 4
    case StoreArg(_, _) => 3
    case Spawn(_, _) => 2
    case Undo(_, _) => 1
    case Report(_) => 1
  }

  function Left(s: State, t: nat): nat
    requires t < |s.threads|
  {
    BootLeft(s.threads[t].boot) + CallLeft(s.threads[t].call, |s.slots|)
  }

  /** A thread that is starting or inside thread_create can take its next step in every state, and each
      own step brings it nearer to the end, in at most as many steps as there are slots and nine more;
      other threads' steps do not set it back. */
  lemma StartsGoOn(s: State, t: nat)
    requires t < |s.threads| && !s.threads[t].boot.Exited? && OneRole(s.threads[t])
    requires s.threads[t].boot.Running? ==> !s.threads[t].call.NoCall?
    ensures Left(s, t) <= |s.slots| + 9
    ensures exists s' :: Step(s, s', t, Advance)
    ensures forall s', a :: Step(s, s', t, a) && !a.CallCreate? && !a.Finish? ==>
              t < |s'.threads| && Left(s', t) < Left(s, t)
  {
    if s.threads[t].boot.Running? {
      assert Step(s, Created(s, t), t, Advance);
    } else {
      assert Step(s, Booted(s, t), t, Advance);
    }
  }

  // ---------------------------------------------------------------- exit codes

  predicate Ran(run: seq<State>, j: nat, u: nat) {
    exists k :: 0 <= k <= j && k < |run| && u < |run[k].threads| && run[k].threads[u].boot.Running?
  }

  predicate CodeTells(run: seq<State>, j: nat, u: nat)
    requires j < |run| && u < |run[j].threads|
  {
    match run[j].threads[u].boot
    case Running(_) => Ran(run, j, u)
    case Exited(code) => if Ran(run, j, u) then code == 0 else code == 127
    case _ => !Ran(run, j, u)
  }

  lemma ThreadSteps(s: State, s': State, t: nat, a: Action, u: nat)
    requires Step(s, s', t, a) && u < |s'.threads|
    ensures u < |s.threads| ==>
              match s.threads[u].boot
              case Running(_) => s'.threads[u].boot.Running? || s'.threads[u].boot == Exited(0)
              case Exited(code) => s'.threads[u].boot == Exited(code)
              case _ => !s'.threads[u].boot.Exited? || s'.threads[u].boot == Exited(127)
    ensures u >= |s.threads| ==> s'.threads[u].boot.ReadFn?
    ensures |s.threads| <= |s'.threads|
  {
  }

  lemma {:induction false} RunGrows(run: seq<State>, moves: seq<Move>, i: nat, j: nat)
    requires IsRunBy(run, moves) && i <= j < |run|
    ensures |run[i].threads| <= |run[j].threads|
    decreases j
  {
    if i < j {
      RunGrows(run, moves, i, j - 1);
      assert StepAt(run, moves, j - 1);
    }
  }

  /** A thread's exit code says whether its function ever ran: 0 if it did, 127 if its TLS setup failed. */
  lemma {:induction false} ExitCodeTells(run: seq<State>, moves: seq<Move>, j: nat, u: nat)
    requires IsRunBy(run, moves) && j < |run| && u < |run[j].threads|
    ensures CodeTells(run, j, u)
  {
    if j > 0 {
      assert StepAt(run, moves, j - 1);
      ThreadSteps(run[j - 1], run[j], moves[j - 1].thread, moves[j - 1].action, u);
      if u < |run[j - 1].threads| {
        ExitCodeTells(run, moves, j - 1, u);
        assert Ran(run, j, u) <==> Ran(run, j - 1, u) || run[j].threads[u].boot.Running?;
      } else if Ran(run, j, u) {
        var k :| 0 <= k <= j && k < |run| && u < |run[k].threads| && run[k].threads[u].boot.Running?;
        if k < j {
          RunGrows(run, moves, k, j - 1);
        }
      }
    }
  }
}
