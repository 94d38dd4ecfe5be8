/**
 The return-value table of src/pthread.c: pthread_create, the trampoline, pthread_exit and
 pthread_join, interleaved in every way.

 pt_lock is the plain lock that the futex mutex was shown to refine (Mutex.StepRefinesLock), and
 thread_create either fails or yields one thread that runs what it was given
 (ThreadStart.ThreadRunsItsOwnWork). A thread's id is its index plus one, so ids are positive and
 never reused. The trampoline writes its slot without the lock, as the source does.

 History: a slot's `owner`, a thread's `kind`, `value` (what it returned or gave to pthread_exit)
 and `freed` (its slot was given back), and the list of completed joins. `reaper` is the kernel's:
 thread_join succeeds once per thread.
 */
module PthreadJoin {
  import M = Mutex

  datatype Work = Work(start: int, arg: int)

  datatype Owner = Nobody | Creator(creator: nat) | Owned(thread: nat)

  datatype Slot = Slot(inUse: bool, tid: nat, finished: bool, work: Work, retval: int, owner: Owner)

  const NULL := 0
  const EAGAIN := 11

  datatype Kind = Native | Pthread(slot: nat, want: Work)

  datatype Life =
    | SetupTls
    | TlsDead             // thread_exit(127) before the trampoline ran
    | StoreTid
    | CallStart           // about to read start and arg
    | Running(work: Work)
    | StoreRet            // start returned; about to store retval
    | StoreFin
    | ExitLock            // pthread_exit, waiting for pt_lock
    | ExitScan(i: nat)
    | ExitRet(i: nat)
    | ExitFin(i: nat)
    | ExitUnlock
    | Exited

  // `NoCall` keeps what the last call returned: its code, and the new thread or the joined value.
  datatype Call =
    | NoCall(rc: int, out: int)
    | CreateLock(work: Work)
    | CreateScan(work: Work, i: nat)
    | CreateFill(work: Work, i: nat)
    | CreateUnlock(work: Work, i: nat)
    | CreateFull                      // no slot; about to unlock and return -EAGAIN
    | CreateSpawn(work: Work, i: nat) // about to call thread_create
    | UndoLock(i: nat, code: int)     // thread_create failed
    | UndoClear(i: nat, code: int)
    | UndoUnlock(code: int)
    | JoinWait(target: nat)           // inside thread_join
    | JoinLock(target: nat)
    | JoinScan(target: nat, i: nat)
    | JoinRead(target: nat, i: nat)
    | JoinFree(target: nat, i: nat, got: int)
    | JoinUnlock(target: nat, got: int)

  datatype Reaper = NotReaped | ReapedBy(joiner: nat)

  datatype Thread = Thread(kind: Kind, life: Life, call: Call, value: int, reaper: Reaper, freed: bool)

  datatype Join = Join(target: nat, got: int)

  datatype State = State(slots: seq<Slot>, lock: M.Lock, threads: seq<Thread>, joins: seq<Join>)

  datatype Action =
    | CallCreate(work: Work)
    | CallJoin(target: nat)
    | CallExit(value: int)
    | Return(value: int)  // the start routine returns
    | SpawnNative         // thread_create used directly
    | Advance
    | SpawnFails(code: int)
    | JoinFails(code: int)
    | TlsFails

  predicate Init(s: State) {
    && s.lock == M.Free && s.joins == []
    && |s.threads| == 1
    && s.threads[0].kind == Native && s.threads[0].life.Running? && s.threads[0].call.NoCall?
    && s.threads[0].reaper == NotReaped && !s.threads[0].freed
    && forall i :: 0 <= i < |s.slots| ==> !s.slots[i].inUse && s.slots[i].owner == Nobody
  }

  function Tid(t: nat): nat {
    t + 1
  }

  function Put(s: State, t: nat, th: Thread): State
    requires t < |s.threads|
  {
    s.(threads := s.threads[t := th])
  }

  function PutSlot(s: State, i: nat, slot: Slot): State {
    if i < |s.slots| then s.(slots := s.slots[i := slot]) else s
  }

  function SlotAt(s: State, i: nat): Slot {
    if i < |s.slots| then s.slots[i] else Slot(false, 0, false, Work(0, 0), NULL, Nobody)
  }

  // What slot_for_tid looks for in slot i.
  predicate Found(s: State, i: nat, tid: nat) {
    i < |s.slots| && s.slots[i].inUse && s.slots[i].tid == tid
  }

  predicate Ended(th: Thread) {
    th.life.Exited? || th.life.TlsDead?
  }

  // The next access of the trampoline or of pthread_exit.
  predicate LifeStep(s: State, s': State, t: nat)
    requires t < |s.threads|
  {
    var th := s.threads[t];
    var mine := if th.kind.Pthread? then th.kind.slot else |s.slots|;
    match th.life
    case SetupTls => s' == Put(s, t, th.(life := if th.kind.Pthread? then StoreTid else Running(Work(0, 0))))
    case StoreTid => s' == Put(PutSlot(s, mine, SlotAt(s, mine).(tid := Tid(t))), t, th.(life := CallStart))
    case CallStart => s' == Put(s, t, th.(life := Running(SlotAt(s, mine).work)))
    case StoreRet => s' == Put(PutSlot(s, mine, SlotAt(s, mine).(retval := th.value)), t, th.(life := StoreFin))
    case StoreFin => s' == Put(PutSlot(s, mine, SlotAt(s, mine).(finished := true)), t, th.(life := Exited))
    case ExitLock => s.lock == M.Free && s' == Put(s.(lock := M.HeldBy(t)), t, th.(life := ExitScan(0)))
    case ExitScan(i) =>
      if Found(s, i, Tid(t)) then s' == Put(s, t, th.(life := ExitRet(i)))
      else s' == Put(s, t, th.(life := if i < |s.slots| then ExitScan(i + 1) else ExitUnlock))
    case ExitRet(i) => s' == Put(PutSlot(s, i, SlotAt(s, i).(retval := th.value)), t, th.(life := ExitFin(i)))
    case ExitFin(i) => s' == Put(PutSlot(s, i, SlotAt(s, i).(finished := true)), t, th.(life := ExitUnlock))
    case ExitUnlock => s' == Put(s.(lock := M.Free), t, th.(life := Exited))
    case _ => false
  }

  // The next access of pthread_create.
  predicate CreateStep(s: State, s': State, t: nat)
    requires t < |s.threads|
  {
    var th := s.threads[t];
    match th.call
    case CreateLock(w) => s.lock == M.Free && s' == Put(s.(lock := M.HeldBy(t)), t, th.(call := CreateScan(w, 0)))
    case CreateScan(w, i) =>
      if i >= |s.slots| then s' == Put(s, t, th.(call := CreateFull))
      else s' == Put(s, t, th.(call := if s.slots[i].inUse then CreateScan(w, i + 1) else CreateFill(w, i)))
    case CreateFill(w, i) =>
      s' == Put(PutSlot(s, i, Slot(true, 0, false, w, NULL, Creator(t))), t, th.(call := CreateUnlock(w, i)))
    case CreateUnlock(w, i) => s' == Put(s.(lock := M.Free), t, th.(call := CreateSpawn(w, i)))
    case CreateFull => s' == Put(s.(lock := M.Free), t, th.(call := NoCall(-EAGAIN, -1)))
    case CreateSpawn(w, i) =>
      var u := |s.threads|;
      var s1 := Put(PutSlot(s, i, SlotAt(s, i).(owner := Owned(u))), t, th.(call := NoCall(0, u)));
      s' == s1.(threads := s1.threads + [Thread(Pthread(i, w), SetupTls, NoCall(0, -1), NULL, NotReaped, false)])
    case UndoLock(i, code) =>
      s.lock == M.Free && s' == Put(s.(lock := M.HeldBy(t)), t, th.(call := UndoClear(i, code)))
    case UndoClear(i, code) =>
      s' == Put(PutSlot(s, i, SlotAt(s, i).(inUse := false, owner := Nobody)), t, th.(call := UndoUnlock(code)))
    case UndoUnlock(code) => s' == Put(s.(lock := M.Free), t, th.(call := NoCall(code, -1)))
    case _ => false
  }

  // What thread_join refuses: a thread that is not there, is the caller, or has been joined already.
  predicate Unjoinable(s: State, t: nat, u: nat) {
    u >= |s.threads| || u == t || s.threads[u].reaper != NotReaped
  }

  // The next access of pthread_join.
  predicate JoinStep(s: State, s': State, t: nat)
    requires t < |s.threads|
  {
    var th := s.threads[t];
    match th.call
    case JoinWait(u) =>
      && !Unjoinable(s, t, u) && Ended(s.threads[u])
      && s' == Put(Put(s, u, s.threads[u].(reaper := ReapedBy(t))), t, th.(call := JoinLock(u)))
    case JoinLock(u) => s.lock == M.Free && s' == Put(s.(lock := M.HeldBy(t)), t, th.(call := JoinScan(u, 0)))
    case JoinScan(u, i) =>
      if Found(s, i, Tid(u)) then s' == Put(s, t, th.(call := JoinRead(u, i)))
      else s' == Put(s, t, th.(call := if i < |s.slots| then JoinScan(u, i + 1) else JoinUnlock(u, NULL)))
    case JoinRead(u, i) => s' == Put(s, t, th.(call := JoinFree(u, i, SlotAt(s, i).retval)))
    case JoinFree(u, i, got) =>
      && u < |s.threads| && u != t
      && s' == Put(Put(PutSlot(s, i, SlotAt(s, i).(inUse := false, owner := Nobody)), u, s.threads[u].(freed := true)),
                   t, th.(call := JoinUnlock(u, got)))
    case JoinUnlock(u, got) =>
      s' == Put(s.(lock := M.Free, joins := s.joins + [Join(u, got)]), t, th.(call := NoCall(0, got)))
    case _ => false
  }

  predicate Step(s: State, s': State, t: nat, a: Action) {
    && t < |s.threads|
    && var th := s.threads[t];
       match a
       case CallCreate(w) => th.life.Running? && th.call.NoCall? && s' == Put(s, t, th.(call := CreateLock(w)))
       case CallJoin(u) => th.life.Running? && th.call.NoCall? && s' == Put(s, t, th.(call := JoinWait(u)))
       case CallExit(v) => th.life.Running? && th.call.NoCall? && s' == Put(s, t, th.(life := ExitLock, value := v))
       case Return(v) =>
         && th.life.Running? && th.call.NoCall?
         && s' == Put(s, t, th.(life := if th.kind.Pthread? then StoreRet else Exited, value := v))
       case SpawnNative =>
         && th.life.Running? && th.call.NoCall?
         && s' == s.(threads := s.threads + [Thread(Native, SetupTls, NoCall(0, -1), NULL, NotReaped, false)])
       case Advance =>
         if th.life.Running? then CreateStep(s, s', t) || JoinStep(s, s', t) else LifeStep(s, s', t)
       case SpawnFails(code) =>
         && code < 0 && th.life.Running? && th.call.CreateSpawn?
         && s' == Put(s, t, th.(call := UndoLock(th.call.i, code)))
       case JoinFails(code) =>
         && code < 0 && th.life.Running? && th.call.JoinWait? && Unjoinable(s, t, th.call.target)
         && s' == Put(s, t, th.(call := NoCall(code, -1)))
       case TlsFails => th.life.SetupTls? && s' == Put(s, t, th.(life := TlsDead))
  }

  ghost predicate Next(s: State, s': State) {
    exists t, a :: Step(s, s', t, a)
  }

  ghost predicate IsRun(run: seq<State>) {
    && |run| > 0
    && Init(run[0])
    && forall i :: 0 <= i < |run| - 1 ==> Next(run[i], run[i + 1])
  }

  // ---------------------------------------------------------------- invariant

  predicate InCritical(th: Thread) {
    || th.life.ExitScan? || th.life.ExitRet? || th.life.ExitFin? || th.life.ExitUnlock?
    || th.call.CreateScan? || th.call.CreateFill? || th.call.CreateUnlock? || th.call.CreateFull?
    || th.call.UndoClear? || th.call.UndoUnlock?
    || th.call.JoinScan? || th.call.JoinRead? || th.call.JoinFree? || th.call.JoinUnlock?
  }

  // The call in progress is responsible for slot i.
  predicate CreatorOf(call: Call, i: nat) {
    && (call.CreateUnlock? || call.CreateSpawn? || call.UndoLock? || call.UndoClear?)
    && call.i == i
  }

  predicate TidStored(life: Life) {
    !life.SetupTls? && !life.TlsDead? && !life.StoreTid?
  }

  predicate ValueStored(life: Life) {
    life.StoreFin? || life.ExitFin? || life.ExitUnlock? || life.Exited?
  }

  // What a thread made by pthread_create has in its slot, until a joiner gives it back.
  predicate SlotAgrees(slot: Slot, t: nat, th: Thread)
    requires th.kind.Pthread?
  {
    && slot.owner == Owned(t)
    && slot.tid == (if TidStored(th.life) then Tid(t) else 0)
    && (th.life.SetupTls? || th.life.StoreTid? || th.life.CallStart? ==> slot.work == th.kind.want)
    && (ValueStored(th.life) ==> slot.retval == th.value)
  }

  predicate LifeOk(s: State, t: nat, th: Thread) {
    if th.kind.Pthread? then
      && th.kind.slot < |s.slots|
      && (!th.freed ==> SlotAgrees(s.slots[th.kind.slot], t, th))
      && (th.freed ==> th.life.Exited?)
      && (th.life.Running? ==> th.life.work == th.kind.want)
      && (th.life.ExitScan? ==> th.life.i <= th.kind.slot)
      && (th.life.ExitRet? || th.life.ExitFin? ==> th.life.i == th.kind.slot)
    else
      && !th.freed
      && (th.life.SetupTls? || th.life.TlsDead? || th.life.Running? || th.life.ExitLock? || th.life.ExitScan?
          || th.life.ExitUnlock? || th.life.Exited?)
  }

  // What pthread_join has to deliver for this thread.
  predicate Delivers(th: Thread, got: int) {
    got == if th.kind.Pthread? && !th.life.TlsDead? then th.value else NULL
  }

  predicate HasFindableSlot(th: Thread) {
    th.kind.Pthread? && th.life.Exited?
  }

  // A join that has scanned the table has delivered and given the slot back, if there was one to find.
  predicate Settled(th: Thread, got: int) {
    Delivers(th, got) && (HasFindableSlot(th) ==> th.freed)
  }

  // The thread the joiner is working on: ended, reaped by this joiner, slot not given back yet.
  predicate TargetOk(s: State, t: nat, u: nat) {
    u < |s.threads| && u != t && Ended(s.threads[u]) && s.threads[u].reaper == ReapedBy(t)
  }

  predicate CallOk(s: State, t: nat, call: Call) {
    match call
    case CreateFill(_, i) => i < |s.slots| && !s.slots[i].inUse
    case CreateUnlock(w, i) => i < |s.slots| && s.slots[i].owner == Creator(t) && s.slots[i].work == w
    case CreateSpawn(w, i) => i < |s.slots| && s.slots[i].owner == Creator(t) && s.slots[i].work == w
    case UndoLock(i, _) => i < |s.slots| && s.slots[i].owner == Creator(t)
    case UndoClear(i, _) => i < |s.slots| && s.slots[i].owner == Creator(t)
    case JoinLock(u) => TargetOk(s, t, u) && !s.threads[u].freed
    case JoinScan(u, i) =>
      && TargetOk(s, t, u) && !s.threads[u].freed
      && (HasFindableSlot(s.threads[u]) ==> i <= s.threads[u].kind.slot)
    case JoinRead(u, i) =>
      && TargetOk(s, t, u) && !s.threads[u].freed
      && HasFindableSlot(s.threads[u]) && i == s.threads[u].kind.slot
    case JoinFree(u, i, got) =>
      && TargetOk(s, t, u) && !s.threads[u].freed
      && HasFindableSlot(s.threads[u]) && i == s.threads[u].kind.slot && got == s.threads[u].value
    case JoinUnlock(u, got) => TargetOk(s, t, u) && Settled(s.threads[u], got)
    case _ => true
  }

  predicate ThreadOk(s: State, t: nat)
    requires t < |s.threads|
  {
    var th := s.threads[t];
    && (s.lock == M.HeldBy(t) <==> InCritical(th))
    && (!th.life.Running? ==> th.call.NoCall?)
    && (th.freed ==> th.reaper != NotReaped)
    && LifeOk(s, t, th)
    && CallOk(s, t, th.call)
  }

  predicate SlotOk(s: State, i: nat)
    requires i < |s.slots|
  {
    var slot := s.slots[i];
    && (slot.inUse <==> slot.owner != Nobody)
    && match slot.owner
       case Nobody => true
       case Creator(c) => slot.tid == 0 && c < |s.threads| && CreatorOf(s.threads[c].call, i)
       case Owned(u) =>
         && (slot.tid == 0 || slot.tid == Tid(u))
         && u < |s.threads| && !s.threads[u].freed
         && s.threads[u].kind.Pthread? && s.threads[u].kind.slot == i
  }

  predicate LockOk(s: State) {
    s.lock.HeldBy? ==> s.lock.owner < |s.threads|
  }

  predicate JoinOk(s: State, j: Join) {
    j.target < |s.threads| && Ended(s.threads[j.target]) && Settled(s.threads[j.target], j.got)
  }

  predicate Inv(s: State) {
    && LockOk(s)
    && (forall t :: 0 <= t < |s.threads| ==> ThreadOk(s, t))
    && (forall i :: 0 <= i < |s.slots| ==> SlotOk(s, i))
    && (forall j :: 0 <= j < |s.joins| ==> JoinOk(s, s.joins[j]))
  }

  // ---------------------------------------------------------------- what one step changes

  // The slots a step of `t` may write: its own, the one it is filling or giving up, or the one it
  // frees for the thread it is joining.
  predicate MayWrite(s: State, t: nat, i: nat)
    requires t < |s.threads| && i < |s.slots|
  {
    var call := s.threads[t].call;
    || s.slots[i].owner == Owned(t)
    || s.slots[i].owner == Creator(t)
    || (call.CreateFill? && call.i == i)
    || (call.JoinFree? && call.i == i)
  }

  predicate SlotsFramed(s: State, s': State, t: nat)
    requires t < |s.threads|
  {
    && |s'.slots| == |s.slots|
    && forall i :: 0 <= i < |s.slots| && !MayWrite(s, t, i) ==> s'.slots[i] == s.slots[i]
  }

  predicate LockFramed(s: State, s': State, t: nat) {
    s'.lock == s.lock || (s.lock == M.Free && s'.lock == M.HeldBy(t)) || (s.lock == M.HeldBy(t) && s'.lock == M.Free)
  }

  // Another thread is only ever reaped, or has its slot given back by the joiner that reaped it.
  predicate OtherFramed(s: State, s': State, t: nat, u: nat)
    requires t < |s.threads| <= |s'.threads| && u < |s.threads|
  {
    var th, th', call := s.threads[u], s'.threads[u], s.threads[t].call;
    if call.JoinFree? && call.target == u then th' == th.(freed := true)
    else th' == th || (th.reaper == NotReaped && Ended(th) && th' == th.(reaper := ReapedBy(t)))
  }

  predicate ThreadsFramed(s: State, s': State, t: nat) {
    && t < |s.threads| <= |s'.threads| <= |s.threads| + 1
    && !Ended(s.threads[t])
    && forall u :: 0 <= u < |s.threads| && u != t ==> OtherFramed(s, s', t, u)
  }

  lemma StepFramesThreads(s: State, s': State, t: nat, a: Action)
    requires t < |s.threads| && ThreadOk(s, t) && Step(s, s', t, a)
    ensures ThreadsFramed(s, s', t) && LockFramed(s, s', t)
  {
  }

  lemma StepFramesSlots(s: State, s': State, t: nat, a: Action)
    requires t < |s.threads| && ThreadOk(s, t) && Step(s, s', t, a)
    ensures SlotsFramed(s, s', t)
  {
  }

  // A slot a step may write belongs to nobody else, except the one freed for the joined thread.
  lemma WritesStayHome(s: State, t: nat, i: nat)
    requires Inv(s) && t < |s.threads| && i < |s.slots| && MayWrite(s, t, i)
    ensures || s.slots[i].owner in {Owned(t), Creator(t), Nobody}
            || (s.threads[t].call.JoinFree? && s.slots[i].owner == Owned(s.threads[t].call.target))
  {
    assert ThreadOk(s, t) && SlotOk(s, i);
    if s.threads[t].call.JoinFree? {
      assert ThreadOk(s, s.threads[t].call.target);
    }
  }

  lemma LivesStayOk(s: State, s': State, t: nat, u: nat)
    requires Inv(s) && ThreadsFramed(s, s', t) && LockFramed(s, s', t) && SlotsFramed(s, s', t)
    requires u < |s.threads| && u != t
    ensures LifeOk(s', u, s'.threads[u])
  {
    assert ThreadOk(s, u) && ThreadOk(s, t) && OtherFramed(s, s', t, u);
    if s.threads[u].kind.Pthread? && !s.threads[u].freed {
      var i := s.threads[u].kind.slot;
      if MayWrite(s, t, i) {
        WritesStayHome(s, t, i);
      }
    }
  }

  lemma TargetsStayOk(s: State, s': State, t: nat, u: nat, v: nat)
    requires Inv(s) && ThreadsFramed(s, s', t) && u != t && TargetOk(s, u, v)
    ensures TargetOk(s', u, v) && s'.threads[v] == s.threads[v]
  {
    assert v != t;
    assert ThreadOk(s, t) && OtherFramed(s, s', t, v);
  }

  lemma CallsStayOk(s: State, s': State, t: nat, u: nat)
    requires Inv(s) && ThreadsFramed(s, s', t) && LockFramed(s, s', t) && SlotsFramed(s, s', t)
    requires u < |s.threads| && u != t
    ensures CallOk(s', u, s'.threads[u].call)
  {
    assert ThreadOk(s, u) && ThreadOk(s, t) && OtherFramed(s, s', t, u);
    var call := s.threads[u].call;
    if call.JoinLock? || call.JoinScan? || call.JoinRead? || call.JoinFree? || call.JoinUnlock? {
      TargetsStayOk(s, s', t, u, call.target);
    } else if call.CreateFill? || call.CreateUnlock? || call.CreateSpawn? || call.UndoLock? || call.UndoClear? {
      assert SlotOk(s, call.i);
      if MayWrite(s, t, call.i) {
        WritesStayHome(s, t, call.i);
      }
    }
  }

  lemma OthersStayOk(s: State, s': State, t: nat, u: nat)
    requires Inv(s) && ThreadsFramed(s, s', t) && LockFramed(s, s', t) && SlotsFramed(s, s', t)
    requires u < |s.threads| && u != t
    ensures ThreadOk(s', u)
  {
    assert ThreadOk(s, u) && ThreadOk(s, t) && OtherFramed(s, s', t, u);
    LivesStayOk(s, s', t, u);
    CallsStayOk(s, s', t, u);
  }

  predicate InExit(life: Life) {
    life.ExitLock? || life.ExitScan? || life.ExitRet? || life.ExitFin? || life.ExitUnlock?
  }

  lemma TrampolineStaysOk(s: State, s': State, t: nat)
    requires t < |s.threads| && ThreadOk(s, t) && !s.threads[t].life.Running? && LifeStep(s, s', t)
    requires !InExit(s.threads[t].life)
    ensures |s'.threads| == |s.threads| && ThreadOk(s', t)
  {
  }

  lemma ExitStepStaysOk(s: State, s': State, t: nat)
    requires t < |s.threads| && ThreadOk(s, t) && !s.threads[t].life.Running? && LifeStep(s, s', t)
    requires s.threads[t].life.ExitScan? && s.threads[t].life.i < |s.slots| ==> SlotOk(s, s.threads[t].life.i)
    requires s.threads[t].kind.Pthread? ==> SlotOk(s, s.threads[t].kind.slot)
    requires InExit(s.threads[t].life)
    ensures |s'.threads| == |s.threads| && ThreadOk(s', t)
  {
  }

  lemma LifeStepStaysOk(s: State, s': State, t: nat)
    requires t < |s.threads| && ThreadOk(s, t) && !s.threads[t].life.Running? && LifeStep(s, s', t)
    requires s.threads[t].life.ExitScan? && s.threads[t].life.i < |s.slots| ==> SlotOk(s, s.threads[t].life.i)
    requires s.threads[t].kind.Pthread? ==> SlotOk(s, s.threads[t].kind.slot)
    ensures |s'.threads| == |s.threads| && ThreadOk(s', t)
  {
    if InExit(s.threads[t].life) {
      ExitStepStaysOk(s, s', t);
    } else {
      TrampolineStaysOk(s, s', t);
    }
  }

  lemma CreateStepStaysOk(s: State, s': State, t: nat)
    requires Inv(s) && t < |s.threads| && s.threads[t].life.Running? && CreateStep(s, s', t)
    ensures |s'.threads| >= |s.threads| && ThreadOk(s', t)
  {
    assert ThreadOk(s, t);
    var call := s.threads[t].call;
    if (call.CreateFill? || call.CreateSpawn? || call.UndoClear?) && s.threads[t].kind.Pthread? && !s.threads[t].freed {
      assert SlotOk(s, call.i);
    }
  }

  // slot_for_tid, on behalf of a joiner, stops exactly at the slot of the thread it looks for.
  lemma ScanFindsTheSlot(s: State, t: nat, u: nat, i: nat)
    requires u < |s.threads| && ThreadOk(s, u) && CallOk(s, t, JoinScan(u, i))
    requires i < |s.slots| ==> SlotOk(s, i)
    ensures Found(s, i, Tid(u)) ==> CallOk(s, t, JoinRead(u, i))
    ensures !Found(s, i, Tid(u)) && i < |s.slots| ==> CallOk(s, t, JoinScan(u, i + 1))
    ensures i >= |s.slots| ==> Settled(s.threads[u], NULL)
  {
  }

  lemma JoinStepKeepsCall(s: State, s': State, t: nat)
    requires t < |s.threads| && ThreadOk(s, t) && s.threads[t].life.Running? && JoinStep(s, s', t)
    requires s.threads[t].call.target < |s.threads| ==> ThreadOk(s, s.threads[t].call.target)
    requires s.threads[t].call.JoinScan? && s.threads[t].call.i < |s.slots| ==> SlotOk(s, s.threads[t].call.i)
    ensures |s'.threads| == |s.threads| && CallOk(s', t, s'.threads[t].call)
  {
    var call := s.threads[t].call;
    if call.JoinScan? {
      ScanFindsTheSlot(s, t, call.target, call.i);
    }
  }

  lemma JoinStepKeepsLife(s: State, s': State, t: nat)
    requires t < |s.threads| && ThreadOk(s, t) && s.threads[t].life.Running? && JoinStep(s, s', t)
    requires s.threads[t].call.target < |s.threads| ==> ThreadOk(s, s.threads[t].call.target)
    ensures |s'.threads| == |s.threads| && LifeOk(s', t, s'.threads[t])
    ensures s'.lock == M.HeldBy(t) <==> InCritical(s'.threads[t])
    ensures s'.threads[t].life == s.threads[t].life && s'.threads[t].freed == s.threads[t].freed
  {
  }

  lemma OtherActionStaysOk(s: State, s': State, t: nat, a: Action)
    requires t < |s.threads| && ThreadOk(s, t) && Step(s, s', t, a) && !a.Advance?
    ensures |s'.threads| >= |s.threads| && ThreadOk(s', t)
  {
  }

  lemma StepperStaysOk(s: State, s': State, t: nat, a: Action)
    requires Inv(s) && Step(s, s', t, a)
    ensures |s'.threads| >= |s.threads| && ThreadOk(s', t)
  {
    assert ThreadOk(s, t);
    var th := s.threads[t];
    if a.Advance? {
      if !th.life.Running? {
        assert th.life.ExitScan? && th.life.i < |s.slots| ==> SlotOk(s, th.life.i);
        assert th.kind.Pthread? ==> SlotOk(s, th.kind.slot);
        LifeStepStaysOk(s, s', t);
      } else if CreateStep(s, s', t) {
        CreateStepStaysOk(s, s', t);
      } else {
        assert th.call.target < |s.threads| ==> ThreadOk(s, th.call.target);
        assert th.call.JoinScan? && th.call.i < |s.slots| ==> SlotOk(s, th.call.i);
        JoinStepKeepsCall(s, s', t);
        JoinStepKeepsLife(s, s', t);
      }
    } else {
      OtherActionStaysOk(s, s', t, a);
    }
  }

  lemma NewcomerIsOk(s: State, s': State, t: nat, a: Action)
    requires t < |s.threads| && ThreadOk(s, t) && LockOk(s) && Step(s, s', t, a) && |s'.threads| == |s.threads| + 1
    requires s.threads[t].call.CreateSpawn? ==> SlotOk(s, s.threads[t].call.i)
    ensures ThreadOk(s', |s.threads|)
  {
  }

  lemma LifeStepKeepsSlot(s: State, s': State, t: nat, i: nat)
    requires t < |s.threads| && ThreadOk(s, t) && !s.threads[t].life.Running? && LifeStep(s, s', t)
    requires i < |s.slots| == |s'.slots| && SlotOk(s, i) && MayWrite(s, t, i)
    ensures SlotOk(s', i)
  {
  }

  lemma CreateStepKeepsSlot(s: State, s': State, t: nat, i: nat)
    requires t < |s.threads| && ThreadOk(s, t) && s.threads[t].life.Running? && CreateStep(s, s', t)
    requires i < |s.slots| == |s'.slots| && SlotOk(s, i) && MayWrite(s, t, i)
    ensures SlotOk(s', i)
  {
  }

  lemma JoinStepKeepsSlot(s: State, s': State, t: nat, i: nat)
    requires t < |s.threads| && ThreadOk(s, t) && s.threads[t].life.Running? && JoinStep(s, s', t)
    requires i < |s.slots| == |s'.slots| && SlotOk(s, i) && MayWrite(s, t, i)
    requires s.threads[t].call.JoinFree? ==> ThreadOk(s, s.threads[t].call.target)
    ensures SlotOk(s', i)
  {
  }

  lemma WrittenSlotStaysOk(s: State, s': State, t: nat, a: Action, i: nat)
    requires Inv(s) && Step(s, s', t, a)
    requires i < |s.slots| == |s'.slots| && MayWrite(s, t, i)
    ensures SlotOk(s', i)
  {
    assert ThreadOk(s, t) && SlotOk(s, i);
    if a.Advance? {
      if !s.threads[t].life.Running? {
        LifeStepKeepsSlot(s, s', t, i);
      } else if CreateStep(s, s', t) {
        CreateStepKeepsSlot(s, s', t, i);
      } else {
        assert s.threads[t].call.JoinFree? ==> ThreadOk(s, s.threads[t].call.target);
        JoinStepKeepsSlot(s, s', t, i);
      }
    }
  }

  lemma UnwrittenSlotStaysOk(s: State, s': State, t: nat, i: nat)
    requires Inv(s) && ThreadsFramed(s, s', t) && SlotsFramed(s, s', t)
    requires i < |s.slots| && !MayWrite(s, t, i)
    ensures SlotOk(s', i)
  {
    assert SlotOk(s, i) && ThreadOk(s, t);
    if s.slots[i].owner.Owned? {
      assert OtherFramed(s, s', t, s.slots[i].owner.thread);
      assert ThreadOk(s, s.slots[i].owner.thread);
    } else if s.slots[i].owner.Creator? {
      assert OtherFramed(s, s', t, s.slots[i].owner.creator);
    }
  }

  lemma OldJoinStaysOk(s: State, s': State, t: nat, j: Join)
    requires ThreadsFramed(s, s', t) && JoinOk(s, j)
    ensures JoinOk(s', j)
  {
    assert OtherFramed(s, s', t, j.target);
  }

  lemma JoinsAppend(s: State, s': State, t: nat, a: Action)
    requires t < |s.threads| && ThreadOk(s, t) && Step(s, s', t, a)
    ensures s'.joins == s.joins || (exists j :: s'.joins == s.joins + [j] && JoinOk(s, j))
  {
    if s'.joins != s.joins {
      assert JoinOk(s, Join(s.threads[t].call.target, s.threads[t].call.got));
    }
  }

  lemma JoinsStayOk(s: State, s': State, t: nat, a: Action)
    requires Inv(s) && Step(s, s', t, a) && ThreadsFramed(s, s', t)
    ensures forall j :: 0 <= j < |s'.joins| ==> JoinOk(s', s'.joins[j])
  {
    assert ThreadOk(s, t);
    JoinsAppend(s, s', t, a);
    forall j | 0 <= j < |s'.joins|
      ensures JoinOk(s', s'.joins[j])
    {
      OldJoinStaysOk(s, s', t, s'.joins[j]);
    }
  }

  lemma SlotsStayOk(s: State, s': State, t: nat, a: Action)
    requires Inv(s) && Step(s, s', t, a) && ThreadsFramed(s, s', t) && SlotsFramed(s, s', t)
    ensures forall i :: 0 <= i < |s'.slots| ==> SlotOk(s', i)
  {
    assert ThreadOk(s, t);
    forall i | 0 <= i < |s'.slots|
      ensures SlotOk(s', i)
    {
      if MayWrite(s, t, i) {
        WrittenSlotStaysOk(s, s', t, a, i);
      } else {
        UnwrittenSlotStaysOk(s, s', t, i);
      }
    }
  }

  lemma ThreadsStayOk(s: State, s': State, t: nat, a: Action)
    requires Inv(s) && Step(s, s', t, a)
    requires ThreadsFramed(s, s', t) && LockFramed(s, s', t) && SlotsFramed(s, s', t)
    ensures forall u :: 0 <= u < |s'.threads| ==> ThreadOk(s', u)
  {
    forall u | 0 <= u < |s'.threads|
      ensures ThreadOk(s', u)
    {
      if u == t {
        StepperStaysOk(s, s', t, a);
      } else if u < |s.threads| {
        OthersStayOk(s, s', t, u);
      } else {
        assert ThreadOk(s, t);
        assert s.threads[t].call.CreateSpawn? ==> SlotOk(s, s.threads[t].call.i);
        NewcomerIsOk(s, s', t, a);
      }
    }
  }

  lemma StepKeepsInv(s: State, s': State, t: nat, a: Action)
    requires Inv(s) && Step(s, s', t, a)
    ensures Inv(s')
  {
    assert ThreadOk(s, t);
    StepFramesThreads(s, s', t, a);
    StepFramesSlots(s, s', t, a);
    ThreadsStayOk(s, s', t, a);
    SlotsStayOk(s, s', t, a);
    JoinsStayOk(s, s', t, a);
  }

  lemma {:induction false} RunKeepsInv(run: seq<State>, i: nat)
    requires IsRun(run) && i < |run|
    ensures Inv(run[i])
  {
    if i > 0 {
      RunKeepsInv(run, i - 1);
      assert Next(run[i - 1], run[i - 1 + 1]);
      var t, a :| Step(run[i - 1], run[i], t, a);
      StepKeepsInv(run[i - 1], run[i], t, a);
    }
  }

  // ---------------------------------------------------------------- theorems over every run

  /** Every completed join delivered the right value: what the thread returned or gave to
      pthread_exit if pthread_create made it and its TLS setup succeeded, and null exactly for the
      others (threads made by thread_create, and threads that died before their trampoline ran).
      The slot came back in the first case and only then. */
  lemma JoinDeliversTheValue(run: seq<State>, i: nat, j: nat)
    requires IsRun(run) && i < |run| && j < |run[i].joins|
    ensures var join := run[i].joins[j];
            && join.target < |run[i].threads|
            && var th := run[i].threads[join.target];
               && Ended(th)
               && join.got == (if th.kind.Pthread? && th.life.Exited? then th.value else NULL)
               && (th.freed <==> th.kind.Pthread? && th.life.Exited?)
  {
    RunKeepsInv(run, i);
    assert JoinOk(run[i], run[i].joins[j]);
    assert ThreadOk(run[i], run[i].joins[j].target);
  }

  /** No slot is ever held for two threads that have not been joined. */
  lemma UnjoinedThreadsHaveTheirOwnSlots(run: seq<State>, i: nat, t: nat, u: nat)
    requires IsRun(run) && i < |run| && t < |run[i].threads| && u < |run[i].threads| && t != u
    requires run[i].threads[t].kind.Pthread? && !run[i].threads[t].freed
    requires run[i].threads[u].kind.Pthread? && !run[i].threads[u].freed
    ensures run[i].threads[t].kind.slot != run[i].threads[u].kind.slot
    ensures run[i].threads[t].kind.slot < |run[i].slots| && run[i].slots[run[i].threads[t].kind.slot].inUse
  {
    RunKeepsInv(run, i);
    assert ThreadOk(run[i], t) && ThreadOk(run[i], u);
    assert SlotOk(run[i], run[i].threads[t].kind.slot);
  }

  /** A thread runs the start routine and argument given to the pthread_create that made it. */
  lemma ThreadRunsItsStartRoutine(run: seq<State>, i: nat, t: nat)
    requires IsRun(run) && i < |run| && t < |run[i].threads|
    requires run[i].threads[t].kind.Pthread? && run[i].threads[t].life.Running?
    ensures run[i].threads[t].life.work == run[i].threads[t].kind.want
  {
    RunKeepsInv(run, i);
    assert ThreadOk(run[i], t);
  }

  /** The slot of a thread whose TLS setup failed is never given back: joining such a thread finds
      no slot with its id, so the slot stays in use for the rest of the process. */
  lemma FailedTlsKeepsItsSlot(run: seq<State>, i: nat, t: nat)
    requires IsRun(run) && i < |run| && t < |run[i].threads|
    requires run[i].threads[t].kind.Pthread? && run[i].threads[t].life.TlsDead?
    ensures run[i].threads[t].kind.slot < |run[i].slots|
    ensures run[i].slots[run[i].threads[t].kind.slot].inUse && run[i].slots[run[i].threads[t].kind.slot].tid == 0
  {
    RunKeepsInv(run, i);
    assert ThreadOk(run[i], t);
    assert SlotOk(run[i], run[i].threads[t].kind.slot);
  }
}
