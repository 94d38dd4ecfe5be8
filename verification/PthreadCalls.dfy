/**
 pthread_create and pthread_join of src/pthread.c from their calls to their returns, over every run:
 what they answer, that a created thread runs what that very call was given, that a join delivers what
 the thread itself returned or passed to pthread_exit, and that nobody gets stuck on the table's lock.
 */
module PthreadCalls {
  import opened PthreadJoin
  import M = Mutex

  datatype Move = Move(thread: nat, action: Action)

  // Move i leads from state i to the next.
  predicate StepAt(run: seq<State>, moves: seq<Move>, i: nat)
    requires i < |moves| < |run|
  {
    Step(run[i], run[i + 1], moves[i].thread, moves[i].action)
  }

  // A run with the moves that made it.
  ghost predicate IsRunBy(run: seq<State>, moves: seq<Move>) {
    && |run| == |moves| + 1
    && Init(run[0])
    && forall i :: 0 <= i < |moves| ==> StepAt(run, moves, i)
  }

  lemma RunByIsRun(run: seq<State>, moves: seq<Move>)
    requires IsRunBy(run, moves)
    ensures IsRun(run)
  {
    forall i | 0 <= i < |run| - 1
      ensures Next(run[i], run[i + 1])
    {
      assert StepAt(run, moves, i);
    }
  }

  // The facts about one step of a run that the proofs below use.
  lemma StepFacts(run: seq<State>, moves: seq<Move>, k: nat)
    requires IsRunBy(run, moves) && k < |moves|
    ensures StepAt(run, moves, k) && Inv(run[k])
    ensures moves[k].thread < |run[k].threads| && ThreadOk(run[k], moves[k].thread)
    ensures ThreadsFramed(run[k], run[k + 1], moves[k].thread)
    ensures LockFramed(run[k], run[k + 1], moves[k].thread)
    ensures SlotsFramed(run[k], run[k + 1], moves[k].thread)
  {
    RunByIsRun(run, moves);
    RunKeepsInv(run, k);
    assert StepAt(run, moves, k);
    assert ThreadOk(run[k], moves[k].thread);
    StepFramesThreads(run[k], run[k + 1], moves[k].thread, moves[k].action);
    StepFramesSlots(run[k], run[k + 1], moves[k].thread, moves[k].action);
  }

  // Another thread's call and life are left alone.
  lemma OtherStep(s: State, s': State, u: nat, c: nat)
    requires ThreadsFramed(s, s', u) && u != c && c < |s.threads|
    ensures c < |s'.threads| && s'.threads[c].call == s.threads[c].call && s'.threads[c].life == s.threads[c].life
    ensures s'.threads[c].kind == s.threads[c].kind && s'.threads[c].value == s.threads[c].value
  {
    assert OtherFramed(s, s', u, c);
  }

  // ---------------------------------------------------------------- pthread_create

  predicate IsCall(a: Action) {
    a.CallCreate? || a.CallJoin?
  }

  // Move h is this call by thread c, which has not returned in any state up to j.
  ghost predicate Inside(run: seq<State>, moves: seq<Move>, h: nat, j: nat, c: nat, call: Action) {
    && IsRunBy(run, moves) && h < j < |run| && IsCall(call) && moves[h] == Move(c, call)
    && forall k :: h < k <= j ==> c < |run[k].threads| && !run[k].threads[c].call.NoCall?
  }

  // ... and returns with move j.
  ghost predicate Returns(run: seq<State>, moves: seq<Move>, h: nat, j: nat, c: nat, call: Action) {
    && Inside(run, moves, h, j, c, call) && j + 1 < |run|
    && c < |run[j + 1].threads| && run[j + 1].threads[c].call.NoCall?
  }

  predicate Refused(moves: seq<Move>, h: nat, j: nat, c: nat, code: int) {
    exists k :: h < k < j && k < |moves| && moves[k] == Move(c, SpawnFails(code))
  }

  predicate TakenBelow(s: State, i: nat) {
    forall x :: 0 <= x < i && x < |s.slots| ==> s.slots[x].inUse
  }

  // Where a call of pthread_create stands. The slots it has passed stay in use while it has the lock.
  predicate CreateStands(moves: seq<Move>, h: nat, j: nat, c: nat, w: Work, s: State, call: Call) {
    match call
    case CreateLock(v) => v == w
    case CreateScan(v, i) => v == w && TakenBelow(s, i)
    case CreateFill(v, _) => v == w
    case CreateUnlock(v, _) => v == w
    case CreateSpawn(v, _) => v == w
    case CreateFull => TakenBelow(s, |s.slots|)
    case UndoLock(_, code) => code < 0 && Refused(moves, h, j, c, code)
    case UndoClear(_, code) => code < 0 && Refused(moves, h, j, c, code)
    case UndoUnlock(code) => code < 0 && Refused(moves, h, j, c, code)
    case _ => false
  }

  // Only the lock's holder takes a slot or gives one back.
  lemma InUseNeedsTheLock(s: State, s': State, u: nat, a: Action)
    requires u < |s.threads| && ThreadOk(s, u) && Step(s, s', u, a) && s.lock != M.HeldBy(u)
    ensures |s'.slots| == |s.slots| && forall x :: 0 <= x < |s.slots| ==> s'.slots[x].inUse == s.slots[x].inUse
  {
  }

  lemma CreateStandsStays(moves: seq<Move>, h: nat, j: nat, c: nat, w: Work, s: State, s': State, call: Call)
    requires CreateStands(moves, h, j, c, w, s, call) && j < |moves|
    requires |s'.slots| == |s.slots|
    requires call.CreateScan? || call.CreateFull? ==>
               forall x :: 0 <= x < |s.slots| ==> s'.slots[x].inUse == s.slots[x].inUse
    ensures CreateStands(moves, h, j + 1, c, w, s', call)
  {
    if call.UndoLock? || call.UndoClear? || call.UndoUnlock? {
      assert Refused(moves, h, j, c, call.code);
    }
  }

  lemma CreateOwnStep(moves: seq<Move>, h: nat, j: nat, c: nat, w: Work, s: State, s': State)
    requires h < j < |moves| && moves[j].thread == c && Step(s, s', c, moves[j].action)
    requires s.threads[c].life.Running? && CreateStands(moves, h, j, c, w, s, s.threads[c].call)
    ensures c < |s'.threads| && s'.threads[c].life.Running?
    ensures var call' := s'.threads[c].call;
            if !call'.NoCall? then CreateStands(moves, h, j + 1, c, w, s', call')
            else if call'.rc == 0 then
              && call'.out == |s.threads| == |s'.threads| - 1
              && s'.threads[call'.out].kind.Pthread? && s'.threads[call'.out].kind.want == w
            else
              && |s'.threads| == |s.threads|
              && (|| (call'.rc == -EAGAIN && TakenBelow(s, |s.slots|))
                  || (call'.rc < 0 && Refused(moves, h, j, c, call'.rc)))
  {
    var call, a := s.threads[c].call, moves[j].action;
    if call.UndoLock? || call.UndoClear? || call.UndoUnlock? {
      assert Refused(moves, h, j, c, call.code);
    }
    if a.SpawnFails? {
      assert moves[j] == Move(c, SpawnFails(a.code));
    }
  }

  lemma {:induction false} CreateKeepsStanding(run: seq<State>, moves: seq<Move>, h: nat, j: nat, c: nat, w: Work)
    requires Inside(run, moves, h, j, c, CallCreate(w))
    ensures c < |run[j].threads| && run[j].threads[c].life.Running?
    ensures CreateStands(moves, h, j, c, w, run[j], run[j].threads[c].call)
    decreases j
  {
    var k := j - 1;
    StepFacts(run, moves, k);
    if k > h {
      CreateKeepsStanding(run, moves, h, k, c, w);
      var s, s', u := run[k], run[k + 1], moves[k].thread;
      if u == c {
        CreateOwnStep(moves, h, k, c, w, s, s');
      } else {
        OtherStep(s, s', u, c);
        var call := s.threads[c].call;
        assert ThreadOk(s, c) && ThreadOk(s, u);
        if call.CreateScan? || call.CreateFull? {
          InUseNeedsTheLock(s, s', u, moves[k].action);
        }
        CreateStandsStays(moves, h, k, c, w, s, s', call);
      }
    }
  }

  lemma {:induction false} RunKeepsKinds(run: seq<State>, moves: seq<Move>, i: nat, j: nat, u: nat)
    requires IsRunBy(run, moves) && i <= j < |run| && u < |run[i].threads|
    ensures u < |run[j].threads| && run[j].threads[u].kind == run[i].threads[u].kind
    decreases j
  {
    if i < j {
      RunKeepsKinds(run, moves, i, j - 1, u);
      StepFacts(run, moves, j - 1);
      if moves[j - 1].thread != u {
        OtherStep(run[j - 1], run[j], moves[j - 1].thread, u);
      } else {
        OwnKind(run[j - 1], run[j], u, moves[j - 1].action);
      }
    }
  }

  lemma OwnKind(s: State, s': State, t: nat, a: Action)
    requires t < |s.threads| && ThreadOk(s, t) && Step(s, s', t, a)
    ensures t < |s'.threads| && s'.threads[t].kind == s.threads[t].kind
  {
  }

  /** What pthread_create answers: 0 and the thread it made; -EAGAIN if all slots were in use; or the code
      of a thread_create that failed. Only with 0 is a thread made. */
  lemma CreateAnswers(run: seq<State>, moves: seq<Move>, h: nat, j: nat, c: nat, w: Work)
    requires Returns(run, moves, h, j, c, CallCreate(w))
    ensures var r := run[j + 1].threads[c].call;
            if r.rc == 0 then r.out == |run[j].threads| == |run[j + 1].threads| - 1
            else
              && |run[j + 1].threads| == |run[j].threads|
              && (|| (r.rc == -EAGAIN && TakenBelow(run[j], |run[j].slots|))
                  || (r.rc < 0 && Refused(moves, h, j, c, r.rc)))
  {
    CreateKeepsStanding(run, moves, h, j, c, w);
    StepFacts(run, moves, j);
    if moves[j].thread != c {
      OtherStep(run[j], run[j + 1], moves[j].thread, c);
    }
    CreateOwnStep(moves, h, j, c, w, run[j], run[j + 1]);
  }

  /** The thread a successful pthread_create returns runs the routine and argument that very call was
      given, in every later state in which it runs at all. */
  lemma CreatedThreadRunsItsRoutine(run: seq<State>, moves: seq<Move>, h: nat, j: nat, c: nat, w: Work, k: nat)
    requires Returns(run, moves, h, j, c, CallCreate(w)) && run[j + 1].threads[c].call.rc == 0 && j < k < |run|
    ensures var u := run[j + 1].threads[c].call.out;
            0 <= u < |run[k].threads| && (run[k].threads[u].life.Running? ==> run[k].threads[u].life.work == w)
  {
    CreateKeepsStanding(run, moves, h, j, c, w);
    StepFacts(run, moves, j);
    if moves[j].thread != c {
      OtherStep(run[j], run[j + 1], moves[j].thread, c);
    }
    CreateOwnStep(moves, h, j, c, w, run[j], run[j + 1]);
    var u := run[j + 1].threads[c].call.out;
    RunKeepsKinds(run, moves, j + 1, k, u);
    RunByIsRun(run, moves);
    if run[k].threads[u].life.Running? {
      ThreadRunsItsStartRoutine(run, k, u);
    }
  }

  // ---------------------------------------------------------------- returning and pthread_exit

  predicate Leaving(life: Life) {
    || life.StoreRet? || life.StoreFin? || life.Exited?
    || life.ExitLock? || life.ExitScan? || life.ExitRet? || life.ExitFin? || life.ExitUnlock?
  }

  // The thread's routine returns this value, or passes it to pthread_exit.
  predicate Gives(a: Action, v: int) {
    a == Return(v) || a == CallExit(v)
  }

  lemma GivingStep(s: State, s': State, t: nat, a: Action)
    requires t < |s.threads| && ThreadOk(s, t) && Step(s, s', t, a)
    ensures t < |s'.threads|
    ensures forall v :: Gives(a, v) ==> Leaving(s'.threads[t].life) && s'.threads[t].value == v
    ensures Leaving(s.threads[t].life) ==>
              Leaving(s'.threads[t].life) && s'.threads[t].value == s.threads[t].value && forall v :: !Gives(a, v)
    ensures Leaving(s'.threads[t].life) && !Leaving(s.threads[t].life) ==> Gives(a, s'.threads[t].value)
  {
  }

  // Thread u gave this value with one of the moves before state j.
  predicate Gave(moves: seq<Move>, j: nat, u: nat, v: int) {
    exists k :: 0 <= k < j && k < |moves| && moves[k].thread == u && Gives(moves[k].action, v)
  }

  ghost predicate GaveOnly(moves: seq<Move>, j: nat, u: nat, v: int) {
    Gave(moves, j, u, v) && forall w :: Gave(moves, j, u, w) ==> w == v
  }

  /** A thread that has begun to end has given exactly one value, and that is the one kept for it. */
  lemma {:induction false} OneValueIsGiven(run: seq<State>, moves: seq<Move>, j: nat, u: nat)
    requires IsRunBy(run, moves) && j < |run| && u < |run[j].threads|
    ensures forall v :: Gave(moves, j, u, v) <==> Leaving(run[j].threads[u].life) && v == run[j].threads[u].value
  {
    if j == 0 {
      assert !Leaving(run[j].threads[u].life);
    } else {
      var k := j - 1;
      StepFacts(run, moves, k);
      var m := moves[k];
      if u < |run[k].threads| {
        OneValueIsGiven(run, moves, k, u);
        if m.thread == u {
          GivingStep(run[k], run[j], u, m.action);
        } else {
          OtherStep(run[k], run[j], m.thread, u);
        }
        forall v
          ensures Gave(moves, j, u, v) <==> Gave(moves, k, u, v) || (m.thread == u && Gives(m.action, v))
        {
        }
      } else {
        NewcomerIsFresh(run[k], run[j], m.thread, m.action, u);
        forall v
          ensures !Gave(moves, j, u, v)
        {
          NobodyYet(run, moves, k, u, v);
        }
      }
    }
  }

  lemma NewcomerIsFresh(s: State, s': State, t: nat, a: Action, u: nat)
    requires Step(s, s', t, a) && |s.threads| <= u < |s'.threads|
    ensures s'.threads[u].life.SetupTls? && t < u
  {
  }

  // A thread that is not there has made no move.
  lemma {:induction false} NobodyYet(run: seq<State>, moves: seq<Move>, j: nat, u: nat, v: int)
    requires IsRunBy(run, moves) && j < |run| && u >= |run[j].threads|
    ensures !Gave(moves, j, u, v)
  {
    if j > 0 {
      StepFacts(run, moves, j - 1);
      NobodyYet(run, moves, j - 1, u, v);
    }
  }

  // ---------------------------------------------------------------- pthread_join

  predicate JoinStands(call: Call, target: nat) {
    && (call.JoinWait? || call.JoinLock? || call.JoinScan? || call.JoinRead? || call.JoinFree? || call.JoinUnlock?)
    && call.target == target
  }

  lemma JoinOwnStep(s: State, s': State, c: nat, a: Action, target: nat)
    requires Step(s, s', c, a) && s.threads[c].life.Running? && JoinStands(s.threads[c].call, target)
    ensures c < |s'.threads| && s'.threads[c].life.Running?
    ensures var call' := s'.threads[c].call;
            if !call'.NoCall? then JoinStands(call', target)
            else if call'.rc == 0 then s'.joins == s.joins + [Join(target, call'.out)]
            else a == JoinFails(call'.rc) && call'.rc < 0 && Unjoinable(s, c, target) && s'.joins == s.joins
  {
  }

  lemma {:induction false} JoinKeepsStanding(run: seq<State>, moves: seq<Move>, h: nat, j: nat, c: nat, target: nat)
    requires Inside(run, moves, h, j, c, CallJoin(target))
    ensures c < |run[j].threads| && run[j].threads[c].life.Running? && JoinStands(run[j].threads[c].call, target)
    decreases j
  {
    var k := j - 1;
    StepFacts(run, moves, k);
    if k > h {
      JoinKeepsStanding(run, moves, h, k, c, target);
      if moves[k].thread == c {
        JoinOwnStep(run[k], run[j], c, moves[k].action, target);
      } else {
        OtherStep(run[k], run[j], moves[k].thread, c);
      }
    }
  }

  /** What pthread_join of a thread answers. An error is thread_join's own, for a thread that cannot be
      joined. 0 comes only when the thread has ended, with the value that thread itself returned or
      passed to pthread_exit if it was made by pthread_create and got past its TLS setup, else NULL. */
  lemma JoinAnswers(run: seq<State>, moves: seq<Move>, h: nat, j: nat, c: nat, target: nat)
    requires Returns(run, moves, h, j, c, CallJoin(target))
    ensures var r := run[j + 1].threads[c].call;
            if r.rc != 0 then r.rc < 0 && Unjoinable(run[j], c, target)
            else
              && target < |run[j + 1].threads|
              && var th := run[j + 1].threads[target];
                 && Ended(th)
                 && if th.kind.Pthread? && th.life.Exited? then GaveOnly(moves, j + 1, target, r.out) else r.out == NULL
  {
    JoinKeepsStanding(run, moves, h, j, c, target);
    StepFacts(run, moves, j);
    if moves[j].thread != c {
      OtherStep(run[j], run[j + 1], moves[j].thread, c);
    }
    JoinOwnStep(run[j], run[j + 1], c, moves[j].action, target);
    if run[j + 1].threads[c].call.rc == 0 {
      RunByIsRun(run, moves);
      JoinDeliversTheValue(run, j + 1, |run[j].joins|);
      OneValueIsGiven(run, moves, j + 1, target);
    }
  }

  // ---------------------------------------------------------------- going on

  predicate NeedsLock(th: Thread) {
    th.life.ExitLock? || th.call.CreateLock? || th.call.UndoLock? || th.call.JoinLock?
  }

  // Between two calls, or ended.
  predicate AtRest(th: Thread) {
    Ended(th) || (th.life.Running? && th.call.NoCall?)
  }

  /** In every reachable state a thread inside a call, starting or ending can take its next step, unless
      it waits for the lock, and then the lock's holder can, or joins a thread that has not ended or that
      cannot be joined, and then the join can fail. */
  lemma SomebodyMoves(run: seq<State>, i: nat, t: nat)
    requires IsRun(run) && i < |run| && t < |run[i].threads| && !AtRest(run[i].threads[t])
    ensures var s := run[i];
            var th := s.threads[t];
            || (exists s' :: Step(s, s', t, Advance))
            || (NeedsLock(th) && s.lock.HeldBy? && exists s' :: Step(s, s', s.lock.owner, Advance))
            || (th.call.JoinWait? && Unjoinable(s, t, th.call.target) && exists s', a :: Step(s, s', t, a))
            || (th.call.JoinWait? && th.call.target < |s.threads| && !Ended(s.threads[th.call.target]))
  {
    RunKeepsInv(run, i);
    var s := run[i];
    assert ThreadOk(s, t);
    if NeedsLock(s.threads[t]) && s.lock.HeldBy? {
      assert ThreadOk(s, s.lock.owner);
      var s' := HolderMoves(s, s.lock.owner);
    } else if InCritical(s.threads[t]) {
      var s' := HolderMoves(s, t);
    } else {
      OutsideMoves(s, t);
      var th := s.threads[t];
      if th.call.JoinWait? && Unjoinable(s, t, th.call.target) {
        assert Step(s, Put(s, t, th.(call := NoCall(-EAGAIN, -1))), t, JoinFails(-EAGAIN));
      }
    }
  }

  lemma HolderMoves(s: State, t: nat) returns (s': State)
    requires t < |s.threads| && ThreadOk(s, t) && InCritical(s.threads[t])
    ensures Step(s, s', t, Advance)
  {
    var th := s.threads[t];
    if th.life.Running? {
      s' := CriticalCallMoves(s, t);
    } else {
      match th.life {
        case ExitScan(i) =>
          s' := Put(s, t, th.(life := if Found(s, i, Tid(t)) then ExitRet(i)
                                      else if i < |s.slots| then ExitScan(i + 1) else ExitUnlock));
        case ExitRet(i) => s' := Put(PutSlot(s, i, SlotAt(s, i).(retval := th.value)), t, th.(life := ExitFin(i)));
        case ExitFin(i) => s' := Put(PutSlot(s, i, SlotAt(s, i).(finished := true)), t, th.(life := ExitUnlock));
        case ExitUnlock => s' := Put(s.(lock := M.Free), t, th.(life := Exited));
        case _ => s' := s;
      }
    }
  }

  lemma CriticalCallMoves(s: State, t: nat) returns (s': State)
    requires t < |s.threads| && ThreadOk(s, t) && InCritical(s.threads[t]) && s.threads[t].life.Running?
    ensures Step(s, s', t, Advance)
  {
    var th := s.threads[t];
    match th.call
    case CreateScan(w, i) =>
      s' := Put(s, t, th.(call := if i >= |s.slots| then CreateFull
                                  else if s.slots[i].inUse then CreateScan(w, i + 1) else CreateFill(w, i)));
    case CreateFill(w, i) =>
      s' := Put(PutSlot(s, i, Slot(true, 0, false, w, NULL, Creator(t))), t, th.(call := CreateUnlock(w, i)));
    case CreateUnlock(w, i) => s' := Put(s.(lock := M.Free), t, th.(call := CreateSpawn(w, i)));
    case CreateFull => s' := Put(s.(lock := M.Free), t, th.(call := NoCall(-EAGAIN, -1)));
    case UndoClear(i, code) =>
      s' := Put(PutSlot(s, i, SlotAt(s, i).(inUse := false, owner := Nobody)), t, th.(call := UndoUnlock(code)));
    case UndoUnlock(code) => s' := Put(s.(lock := M.Free), t, th.(call := NoCall(code, -1)));
    case JoinScan(u, i) =>
      s' := Put(s, t, th.(call := if Found(s, i, Tid(u)) then JoinRead(u, i)
                                  else if i < |s.slots| then JoinScan(u, i + 1) else JoinUnlock(u, NULL)));
    case JoinRead(u, i) => s' := Put(s, t, th.(call := JoinFree(u, i, SlotAt(s, i).retval)));
    case JoinFree(u, i, got) =>
      s' := Put(Put(PutSlot(s, i, SlotAt(s, i).(inUse := false, owner := Nobody)), u, s.threads[u].(freed := true)),
                t, th.(call := JoinUnlock(u, got)));
    case JoinUnlock(u, got) =>
      s' := Put(s.(lock := M.Free, joins := s.joins + [Join(u, got)]), t, th.(call := NoCall(0, got)));
    case _ => s' := s;
  }

  lemma OutsideMoves(s: State, t: nat)
    requires t < |s.threads| && ThreadOk(s, t) && !InCritical(s.threads[t]) && !AtRest(s.threads[t])
    requires NeedsLock(s.threads[t]) ==> s.lock == M.Free
    ensures var th := s.threads[t];
            || (exists s' :: Step(s, s', t, Advance))
            || (th.call.JoinWait? && (Unjoinable(s, t, th.call.target) || !Ended(s.threads[th.call.target])))
  {
    var th := s.threads[t];
    var mine := if th.kind.Pthread? then th.kind.slot else |s.slots|;
    if !th.life.Running? {
      var s' := match th.life
                case SetupTls => Put(s, t, th.(life := if th.kind.Pthread? then StoreTid else Running(Work(0, 0))))
                case StoreTid => Put(PutSlot(s, mine, SlotAt(s, mine).(tid := Tid(t))), t, th.(life := CallStart))
                case CallStart => Put(s, t, th.(life := Running(SlotAt(s, mine).work)))
                case StoreRet => Put(PutSlot(s, mine, SlotAt(s, mine).(retval := th.value)), t, th.(life := StoreFin))
                case StoreFin => Put(PutSlot(s, mine, SlotAt(s, mine).(finished := true)), t, th.(life := Exited))
                case ExitLock => Put(s.(lock := M.HeldBy(t)), t, th.(life := ExitScan(0)))
                case _ => s;
      assert Step(s, s', t, Advance);
    } else {
      match th.call
      case CreateLock(w) =>
        assert Step(s, Put(s.(lock := M.HeldBy(t)), t, th.(call := CreateScan(w, 0))), t, Advance);
      case CreateSpawn(w, i) =>
        var u := |s.threads|;
        var s1 := Put(PutSlot(s, i, SlotAt(s, i).(owner := Owned(u))), t, th.(call := NoCall(0, u)));
        var born := Thread(Pthread(i, w), SetupTls, NoCall(0, -1), NULL, NotReaped, false);
        assert Step(s, s1.(threads := s1.threads + [born]), t, Advance);
      case UndoLock(i, code) =>
        assert Step(s, Put(s.(lock := M.HeldBy(t)), t, th.(call := UndoClear(i, code))), t, Advance);
      case JoinWait(u) =>
        if !Unjoinable(s, t, u) && Ended(s.threads[u]) {
          var s' := Put(Put(s, u, s.threads[u].(reaper := ReapedBy(t))), t, th.(call := JoinLock(u)));
          assert Step(s, s', t, Advance);
        }
      case JoinLock(u) =>
        assert Step(s, Put(s.(lock := M.HeldBy(t)), t, th.(call := JoinScan(u, 0))), t, Advance);
      case _ =>
    }
  }

  // The own steps a thread has left in its call, and until it runs or has ended.
  function CallLeft(call: Call, n: nat): nat {
    match call
    case NoCall(_, _) => 0
    case CreateLock(_) => n + 9
    case CreateScan(_, i) => if i < n then n - i + 8 else 8
    case CreateFill(_, _) => 7
    case CreateUnlock(_, _) => 6
    case CreateSpawn(_, _) => 5
    case UndoLock(_, _) => 4
    case UndoClear(_, _) => 3
    case UndoUnlock(_) => 2
    case CreateFull => 1
    case JoinWait(_) => n + 7
    case JoinLock(_) => n + 6
    case JoinScan(_, i) => if i < n then n - i + 5 else 5
    case JoinRead(_, _) => 3
    case JoinFree(_, _, _) => 2
    case JoinUnlock(_, _) => 1
  }

  function LifeLeft(life: Life, n: nat): nat {
    match life
    case SetupTls => 3
    case TlsDead => 0
    case StoreTid => 2
    case CallStart => 1
    case Running(_) => 0
    case StoreRet => 2
    case StoreFin => 1
    case ExitLock => n + 6
    case ExitScan(i) => if i < n then n - i + 5 else 5
    case ExitRet(_) => 3
    case ExitFin(_) => 2
    case ExitUnlock => 1
    case Exited => 0
  }

  function Left(th: Thread, n: nat): nat {
    CallLeft(th.call, n) + LifeLeft(th.life, n)
  }

  predicate GoesOn(a: Action) {
    a.Advance? || a.SpawnFails? || a.JoinFails? || a.TlsFails?
  }

  lemma CreateLeadsOn(s: State, s': State, t: nat)
    requires t < |s.threads| && s.threads[t].life.Running? && CreateStep(s, s', t)
    ensures |s'.slots| == |s.slots| && t < |s'.threads|
    ensures Left(s'.threads[t], |s.slots|) < Left(s.threads[t], |s.slots|)
  {
  }

  lemma JoinLeadsOn(s: State, s': State, t: nat)
    requires t < |s.threads| && s.threads[t].life.Running? && JoinStep(s, s', t)
    ensures |s'.slots| == |s.slots| && t < |s'.threads|
    ensures Left(s'.threads[t], |s.slots|) < Left(s.threads[t], |s.slots|)
  {
  }

  lemma LifeLeadsOn(s: State, s': State, t: nat)
    requires t < |s.threads| && s.threads[t].call.NoCall? && LifeStep(s, s', t)
    ensures |s'.slots| == |s.slots| && t < |s'.threads|
    ensures Left(s'.threads[t], |s.slots|) < Left(s.threads[t], |s.slots|)
  {
  }

  /** Every own step of a call, of a start or of an end leads on, and no step of another thread leads
      back; so each takes a bounded number of own steps, whatever the others do. */
  lemma StepsLeadOn(s: State, s': State, t: nat, a: Action, u: nat)
    requires t < |s.threads| && ThreadOk(s, t) && Step(s, s', t, a) && u < |s.threads|
    ensures u < |s'.threads|
    ensures u == t && GoesOn(a) ==> Left(s'.threads[u], |s.slots|) < Left(s.threads[u], |s.slots|)
    ensures u != t ==> Left(s'.threads[u], |s.slots|) == Left(s.threads[u], |s.slots|)
  {
    if u != t {
      StepFramesThreads(s, s', t, a);
      OtherStep(s, s', t, u);
    } else if a.Advance? {
      if !s.threads[t].life.Running? {
        LifeLeadsOn(s, s', t);
      } else if CreateStep(s, s', t) {
        CreateLeadsOn(s, s', t);
      } else {
        JoinLeadsOn(s, s', t);
      }
    }
  }
}
