/**
 The start hand-off of src/thread.c: a creator claims a slot of a shared table by compare-exchange,
 writes the function and argument into it and asks the kernel for a thread; the new thread copies
 both out, frees the slot and runs. Any thread may create threads, any number at a time, and each
 memory access is one step. `want` is history: what the creator passed to thread_create.
 */
module ThreadStart {

  const EAGAIN := 11

  // Functions and arguments are addresses; nothing here looks inside them.
  datatype Work = Work(fn: int, arg: int)

  datatype Slot = Slot(inUse: bool, fn: int, arg: int)

  datatype Boot =
    | ReadFn(slot: nat)
    | ReadArg(slot: nat, fn: int)
    | FreeSlot(slot: nat, work: Work)
    | SetupTls(work: Work)
    | Running(work: Work)
    | Exited(code: int)

  // `NoCall` keeps what the last call returned and the id it stored.
  datatype Call =
    | NoCall(rc: int, out: int)
    | Scan(i: nat, args: Work)      // about to compare-exchange slots[i].in_use
    | StoreFn(slot: nat, args: Work)
    | StoreArg(slot: nat, args: Work)
    | Spawn(slot: nat, args: Work)  // about to make the system call
    | Undo(slot: nat, code: int)    // the system call failed; about to free the slot
    | Report(tid: nat)              // the system call succeeded; about to return

  datatype Thread = Thread(boot: Boot, call: Call, want: Work)

  datatype State = State(slots: seq<Slot>, threads: seq<Thread>)

  datatype Action =
    | CallCreate(args: Work)
    | Advance
    | SpawnFails(code: int)
    | TlsFails
    | Finish

  // One running thread, every slot free. The source has 1024 slots; nothing depends on that.
  predicate Init(s: State) {
    && |s.threads| == 1
    && s.threads[0].boot == Running(s.threads[0].want) && s.threads[0].call.NoCall?
    && forall i :: 0 <= i < |s.slots| ==> !s.slots[i].inUse
  }

  function Put(s: State, t: nat, th: Thread): State
    requires t < |s.threads|
  {
    s.(threads := s.threads[t := th])
  }

  function PutSlot(s: State, i: nat, slot: Slot): State {
    if i < |s.slots| then s.(slots := s.slots[i := slot]) else s
  }

  function SlotAt(s: State, i: nat): Slot {
    if i < |s.slots| then s.slots[i] else Slot(false, 0, 0)
  }

  // The next access of a thread that is still starting.
  function Booted(s: State, t: nat): State
    requires t < |s.threads| && !s.threads[t].boot.Running? && !s.threads[t].boot.Exited?
  {
    var th := s.threads[t];
    match th.boot
    case ReadFn(i) => Put(s, t, th.(boot := ReadArg(i, SlotAt(s, i).fn)))
    case ReadArg(i, fn) => Put(s, t, th.(boot := FreeSlot(i, Work(fn, SlotAt(s, i).arg))))
    case FreeSlot(i, work) =>
      Put(PutSlot(s, i, SlotAt(s, i).(inUse := false)), t, th.(boot := SetupTls(work)))
    case SetupTls(work) => Put(s, t, th.(boot := Running(work)))
  }

  // The next access of a running thread that is inside thread_create.
  function Created(s: State, t: nat): State
    requires t < |s.threads| && !s.threads[t].call.NoCall?
  {
    var th := s.threads[t];
    match th.call
    case Scan(i, args) =>
      if i >= |s.slots| then Put(s, t, th.(call := NoCall(-EAGAIN, -1)))
      else if s.slots[i].inUse then Put(s, t, th.(call := Scan(i + 1, args)))
      else Put(PutSlot(s, i, s.slots[i].(inUse := true)), t, th.(call := StoreFn(i, args)))
    case StoreFn(i, args) =>
      Put(PutSlot(s, i, SlotAt(s, i).(fn := args.fn)), t, th.(call := StoreArg(i, args)))
    case StoreArg(i, args) =>
      Put(PutSlot(s, i, SlotAt(s, i).(arg := args.arg)), t, th.(call := Spawn(i, args)))
    case Spawn(i, args) =>
      var s1 := Put(s, t, th.(call := Report(|s.threads|)));
      s1.(threads := s1.threads + [Thread(ReadFn(i), NoCall(0, -1), args)])
    case Undo(i, code) =>
      Put(PutSlot(s, i, SlotAt(s, i).(inUse := false)), t, th.(call := NoCall(code, -1)))
    case Report(tid) => Put(s, t, th.(call := NoCall(0, tid)))
  }

  predicate Step(s: State, s': State, t: nat, a: Action) {
    && t < |s.threads|
    && var th := s.threads[t];
       match a
       case CallCreate(args) => th.boot.Running? && th.call.NoCall? && s' == Put(s, t, th.(call := Scan(0, args)))
       case Advance =>
         if th.boot.Running? then !th.call.NoCall? && s' == Created(s, t)
         else !th.boot.Exited? && s' == Booted(s, t)
       case SpawnFails(code) =>
         code < 0 && th.boot.Running? && th.call.Spawn? && s' == Put(s, t, th.(call := Undo(th.call.slot, code)))
       case TlsFails => th.boot.SetupTls? && s' == Put(s, t, th.(boot := Exited(127)))
       case Finish => th.boot.Running? && th.call.NoCall? && s' == Put(s, t, th.(boot := Exited(0)))
  }

  ghost predicate Next(s: State, s': State) {
    exists t, a :: Step(s, s', t, a)
  }

  ghost predicate IsRun(run: seq<State>) {
    && |run| > 0
    && Init(run[0])
    && forall i :: 0 <= i < |run| - 1 ==> Next(run[i], run[i + 1])
  }

  // ---------------------------------------------------------------- ownership

  // The slot a thread is responsible for: as a creator from its compare-exchange until the new
  // thread exists or the slot is given back, as a new thread until its release store.
  // NONE if there is no such slot; a thread that is still starting makes no calls.
  const NONE := -1

  function Held(th: Thread): int {
    if th.boot.ReadFn? || th.boot.ReadArg? || th.boot.FreeSlot? then th.boot.slot
    else if th.call.StoreFn? || th.call.StoreArg? || th.call.Spawn? || th.call.Undo? then th.call.slot
    else NONE
  }

  predicate OneRole(th: Thread) {
    !th.boot.Running? ==> th.call.NoCall?
  }

  // What a thread relies on in the slot it holds, and in the copies it has made.
  predicate Faithful(s: State, th: Thread) {
    && (match th.boot
        case ReadFn(i) => SlotAt(s, i).fn == th.want.fn && SlotAt(s, i).arg == th.want.arg
        case ReadArg(i, fn) => fn == th.want.fn && SlotAt(s, i).arg == th.want.arg
        case FreeSlot(_, work) => work == th.want
        case SetupTls(work) => work == th.want
        case Running(work) => work == th.want
        case Exited(_) => true)
    && (match th.call
        case StoreArg(i, args) => SlotAt(s, i).fn == args.fn
        case Spawn(i, args) => SlotAt(s, i).fn == args.fn && SlotAt(s, i).arg == args.arg
        case _ => true)
  }

  predicate HeldIsInUse(s: State, th: Thread) {
    Held(th) != NONE ==> Held(th) < |s.slots| && s.slots[Held(th)].inUse
  }

  predicate HeldAlone(s: State) {
    forall t, u :: 0 <= t < |s.threads| && 0 <= u < |s.threads| && Held(s.threads[t]) == Held(s.threads[u]) != NONE ==>
      t == u
  }

  predicate HasHolder(s: State, i: int) {
    exists t :: 0 <= t < |s.threads| && Held(s.threads[t]) == i
  }

  predicate NoSlotLeaks(s: State) {
    forall i :: 0 <= i < |s.slots| && s.slots[i].inUse ==> HasHolder(s, i)
  }

  predicate ThreadOk(s: State, th: Thread) {
    Faithful(s, th) && OneRole(th) && HeldIsInUse(s, th)
  }

  predicate ThreadsOk(s: State) {
    forall t :: 0 <= t < |s.threads| ==> ThreadOk(s, s.threads[t])
  }

  predicate Inv(s: State) {
    ThreadsOk(s) && HeldAlone(s) && NoSlotLeaks(s)
  }

  // ---------------------------------------------------------------- preservation

  // Only the stepping thread changes among the old ones, at most one is added, and only a slot
  // the stepping thread holds before or after the step is touched.
  predicate Framed(s: State, s': State, t: nat) {
    && t < |s.threads| <= |s'.threads| <= |s.threads| + 1
    && |s'.slots| == |s.slots|
    && (forall u :: 0 <= u < |s.threads| && u != t ==> s'.threads[u] == s.threads[u])
    && (forall i | 0 <= i < |s.slots| && i != Held(s.threads[t]) && i != Held(s'.threads[t]) ::
          s'.slots[i] == s.slots[i])
  }

  // A slot is claimed from free, and passes to the added thread or back to free when let go.
  predicate Transfers(s: State, s': State, t: nat)
    requires Framed(s, s', t)
  {
    var h, h' := Held(s.threads[t]), Held(s'.threads[t]);
    && (h' != NONE && h' != h ==> h == NONE && h' < |s.slots| && !s.slots[h'].inUse && s'.slots[h'].inUse)
    && (h != NONE && h' == NONE && |s'.threads| == |s.threads| ==> h < |s.slots| && !s'.slots[h].inUse)
    && (h != NONE && h' == h ==> h < |s.slots| && s'.slots[h].inUse)
    && (|s'.threads| > |s.threads| ==> h' == NONE && Held(s'.threads[|s.threads|]) == h != NONE)
  }

  lemma StepIsFramed(s: State, s': State, t: nat, a: Action)
    requires t < |s.threads| && ThreadOk(s, s.threads[t]) && Step(s, s', t, a)
    ensures Framed(s, s', t)
  {
  }

  lemma StepTransfers(s: State, s': State, t: nat, a: Action)
    requires t < |s.threads| && ThreadOk(s, s.threads[t]) && Step(s, s', t, a) && Framed(s, s', t)
    ensures Transfers(s, s', t)
    ensures ThreadOk(s', s'.threads[t])
    ensures |s'.threads| > |s.threads| ==> ThreadOk(s', s'.threads[|s.threads|])
  {
  }

  lemma OthersStayOk(s: State, s': State, t: nat, u: nat)
    requires Inv(s) && Framed(s, s', t) && Transfers(s, s', t) && u < |s.threads| && u != t
    ensures ThreadOk(s', s'.threads[u])
  {
    assert ThreadOk(s, s.threads[u]) && ThreadOk(s, s.threads[t]);
  }

  lemma HoldersStayAlone(s: State, s': State, t: nat)
    requires Inv(s) && Framed(s, s', t) && Transfers(s, s', t)
    ensures HeldAlone(s')
  {
    forall u, v | 0 <= u < |s'.threads| && 0 <= v < |s'.threads| && Held(s'.threads[u]) == Held(s'.threads[v]) != NONE
      ensures u == v
    {
      assert u < |s.threads| ==> ThreadOk(s, s.threads[u]);
      assert v < |s.threads| ==> ThreadOk(s, s.threads[v]);
    }
  }

  lemma SlotsStayHeld(s: State, s': State, t: nat)
    requires Inv(s) && Framed(s, s', t) && Transfers(s, s', t)
    ensures NoSlotLeaks(s')
  {
    forall i | 0 <= i < |s'.slots| && s'.slots[i].inUse
      ensures HasHolder(s', i)
    {
      if i == Held(s'.threads[t]) {
      } else if s.slots[i].inUse {
        var u :| 0 <= u < |s.threads| && Held(s.threads[u]) == i;
        if u == t {
          assert Held(s'.threads[|s.threads|]) == i;
        } else {
          assert Held(s'.threads[u]) == i;
        }
      }
    }
  }

  lemma StepKeepsInv(s: State, s': State, t: nat, a: Action)
    requires Inv(s) && Step(s, s', t, a)
    ensures Inv(s')
  {
    assert ThreadOk(s, s.threads[t]);
    StepIsFramed(s, s', t, a);
    StepTransfers(s, s', t, a);
    forall u | 0 <= u < |s'.threads|
      ensures ThreadOk(s', s'.threads[u])
    {
      if u < |s.threads| && u != t {
        OthersStayOk(s, s', t, u);
      }
    }
    HoldersStayAlone(s, s', t);
    SlotsStayHeld(s, s', t);
  }

  lemma {:induction false} RunKeepsInv(run: seq<State>, i: nat)
    requires IsRun(run) && i < |run|
    ensures Inv(run[i])
  {
    if i > 0 {
      RunKeepsInv(run, i - 1);
      assert Next(run[i - 1], run[i - 1 + 1]);
      var t, a :| Step(run[i - 1], run[i], t, a);
      StepKeepsInv(run[i - 1], run[i], t, a);
    }
  }

  // ---------------------------------------------------------------- theorems over every run

  /** A slot is in use exactly while one thread is responsible for it, and never two: concurrent
      creators cannot share a slot and no slot is lost, even when creation fails. */
  lemma SlotsAreOwnedAlone(run: seq<State>, i: nat, slot: nat)
    requires IsRun(run) && i < |run| && slot < |run[i].slots|
    ensures run[i].slots[slot].inUse <==> HasHolder(run[i], slot)
    ensures forall t, u | 0 <= t < |run[i].threads| && 0 <= u < |run[i].threads| ::
              Held(run[i].threads[t]) == slot == Held(run[i].threads[u]) ==> t == u
  {
    RunKeepsInv(run, i);
    if HasHolder(run[i], slot) {
      var t :| 0 <= t < |run[i].threads| && Held(run[i].threads[t]) == slot;
      assert ThreadOk(run[i], run[i].threads[t]);
    }
  }

  lemma StepKeepsWants(s: State, s': State, t: nat, a: Action)
    requires Step(s, s', t, a)
    ensures |s.threads| <= |s'.threads|
    ensures forall u :: 0 <= u < |s.threads| ==> s'.threads[u].want == s.threads[u].want
  {
  }

  lemma {:induction false} RunKeepsWants(run: seq<State>, i: nat, j: nat, u: nat)
    requires IsRun(run) && i <= j < |run| && u < |run[i].threads|
    ensures u < |run[j].threads| && run[j].threads[u].want == run[i].threads[u].want
    decreases j
  {
    if i < j {
      RunKeepsWants(run, i, j - 1, u);
      assert Next(run[j - 1], run[j - 1 + 1]);
      var t, a :| Step(run[j - 1], run[j], t, a);
      StepKeepsWants(run[j - 1], run[j], t, a);
    }
  }

  // At state i thread `c`, inside thread_create with these arguments, gets thread `u` from the kernel.
  predicate Creates(run: seq<State>, i: nat, c: nat, args: Work, u: nat)
    requires i + 1 < |run|
  {
    && c < |run[i].threads| && run[i].threads[c].call.Spawn? && run[i].threads[c].call.args == args
    && u == |run[i].threads| < |run[i + 1].threads|
    && c < |run[i + 1].threads| && run[i + 1].threads[c].call == Report(u)
  }

  /** A thread that gets past its TLS setup runs exactly the function and argument its own creator
      passed, at every later state and whatever other creations are under way. */
  lemma ThreadRunsItsOwnWork(run: seq<State>, i: nat, c: nat, args: Work, u: nat, j: nat)
    requires IsRun(run) && i + 1 < |run| && Creates(run, i, c, args, u) && i < j < |run|
    ensures u < |run[j].threads|
    ensures run[j].threads[u].boot.Running? ==> run[j].threads[u].boot.work == args
  {
    assert Next(run[i], run[i + 1]);
    var t, a :| Step(run[i], run[i + 1], t, a);
    assert t == c;
    RunKeepsWants(run, i + 1, j, u);
    RunKeepsInv(run, j);
    assert ThreadOk(run[j], run[j].threads[u]);
  }
}
