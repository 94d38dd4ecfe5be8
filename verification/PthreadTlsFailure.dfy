/**
 What becomes of a pthread whose TLS setup fails: it never stores its tid, so no joiner finds its
 slot. The slot stays in use for ever, and a join of the thread delivers NULL.
 */
module PthreadTlsFailure {
  import opened PthreadJoin
  import M = Mutex

  // ---------------------------------------------------------------- for ever

  lemma StepKeepsDead(s: State, s': State, t: nat, a: Action, u: nat)
    requires t < |s.threads| && ThreadOk(s, t) && Step(s, s', t, a)
    requires u < |s.threads| && s.threads[u].life.TlsDead?
    ensures u < |s'.threads| && s'.threads[u].life.TlsDead? && s'.threads[u].kind == s.threads[u].kind
  {
    if u != t {
      StepFramesThreads(s, s', t, a);
    }
  }

  lemma {:induction false} RunKeepsDead(run: seq<State>, i: nat, j: nat, u: nat)
    requires IsRun(run) && i <= j < |run| && u < |run[i].threads| && run[i].threads[u].life.TlsDead?
    ensures u < |run[j].threads| && run[j].threads[u].life.TlsDead? && run[j].threads[u].kind == run[i].threads[u].kind
    decreases j
  {
    if i < j {
      RunKeepsDead(run, i, j - 1, u);
      RunKeepsInv(run, j - 1);
      assert Next(run[j - 1], run[j - 1 + 1]);
      var t, a :| Step(run[j - 1], run[j], t, a);
      StepKeepsDead(run[j - 1], run[j], t, a, u);
    }
  }

  /** From the moment its TLS setup fails, a pthread's slot is in use in every later state. */
  lemma SlotIsLostForEver(run: seq<State>, i: nat, j: nat, u: nat)
    requires IsRun(run) && i <= j < |run| && u < |run[i].threads|
    requires run[i].threads[u].kind.Pthread? && run[i].threads[u].life.TlsDead?
    ensures var slot := run[i].threads[u].kind.slot;
            slot < |run[j].slots| && run[j].slots[slot].inUse && run[j].slots[slot].tid == 0
  {
    RunKeepsDead(run, i, j, u);
    FailedTlsKeepsItsSlot(run, j, u);
  }

  // ---------------------------------------------------------------- a run that gets there

  ghost predicate LeadsTo(run: seq<State>, s: State) {
    IsRun(run) && run[|run| - 1] == s
  }

  ghost predicate Reachable(s: State) {
    exists run :: LeadsTo(run, s)
  }

  lemma StepReaches(s: State, s': State, t: nat, a: Action)
    requires Reachable(s) && Step(s, s', t, a)
    ensures Reachable(s')
  {
    var run :| LeadsTo(run, s);
    assert Next(s, s');
    assert LeadsTo(run + [s'], s');
  }

  const WORK := Work(1, 2)

  function Main(call: Call): Thread {
    Thread(Native, Running(Work(0, 0)), call, NULL, NotReaped, false)
  }

  function Child(life: Life, reaper: Reaper): Thread {
    Thread(Pthread(0, WORK), life, NoCall(0, -1), NULL, reaper, false)
  }

  // A table of n slots, all free but the first, which is like this.
  function Table(n: nat, first: Slot): (slots: seq<Slot>)
    requires n > 0
    ensures |slots| == n && slots[0] == first && forall i :: 0 < i < n ==> !slots[i].inUse
  {
    [first] + seq(n - 1, _ => FREE)
  }

  const FREE := Slot(false, 0, false, Work(0, 0), NULL, Nobody)

  function Taken(owner: Owner): Slot {
    Slot(true, 0, false, WORK, NULL, owner)
  }

  lemma TableUpdates(n: nat, first: Slot, slot: Slot)
    requires n > 0
    ensures Table(n, first)[0 := slot] == Table(n, slot)
  {
  }

  function Alone(n: nat, first: Slot, lock: M.Lock, call: Call): State
    requires n > 0
  {
    State(Table(n, first), lock, [Main(call)], [])
  }

  function Both(n: nat, lock: M.Lock, call: Call, child: Thread): State
    requires n > 0
  {
    State(Table(n, Taken(Owned(1))), lock, [Main(call), child], [])
  }

  // pthread_create up to the filled slot ...
  lemma MainFills(n: nat)
    requires n > 0
    ensures Reachable(Alone(n, Taken(Creator(0)), M.HeldBy(0), CreateUnlock(WORK, 0)))
  {
    var s0, s1 := Alone(n, FREE, M.Free, NoCall(0, -1)), Alone(n, FREE, M.Free, CreateLock(WORK));
    assert forall i :: 0 <= i < n ==> Table(n, FREE)[i] == FREE;
    assert LeadsTo([s0], s0);
    StepReaches(s0, s1, 0, CallCreate(WORK));
    var s2 := Alone(n, FREE, M.HeldBy(0), CreateScan(WORK, 0));
    StepReaches(s1, s2, 0, Advance);
    var s3 := Alone(n, FREE, M.HeldBy(0), CreateFill(WORK, 0));
    StepReaches(s2, s3, 0, Advance);
    TableUpdates(n, FREE, Taken(Creator(0)));
    StepReaches(s3, Alone(n, Taken(Creator(0)), M.HeldBy(0), CreateUnlock(WORK, 0)), 0, Advance);
  }

  // ... and its thread, whose TLS setup fails.
  lemma ChildDies(n: nat)
    requires n > 0
    ensures Reachable(Both(n, M.Free, NoCall(0, 1), Child(TlsDead, NotReaped)))
  {
    MainFills(n);
    var s1 := Alone(n, Taken(Creator(0)), M.Free, CreateSpawn(WORK, 0));
    StepReaches(Alone(n, Taken(Creator(0)), M.HeldBy(0), CreateUnlock(WORK, 0)), s1, 0, Advance);
    TableUpdates(n, Taken(Creator(0)), Taken(Owned(1)));
    var s2 := Both(n, M.Free, NoCall(0, 1), Child(SetupTls, NotReaped));
    StepReaches(s1, s2, 0, Advance);
    StepReaches(s2, Both(n, M.Free, NoCall(0, 1), Child(TlsDead, NotReaped)), 1, TlsFails);
  }

  lemma MainJoins(n: nat)
    requires n > 0
    ensures Reachable(Both(n, M.HeldBy(0), JoinScan(1, 0), Child(TlsDead, ReapedBy(0))))
  {
    ChildDies(n);
    var s1 := Both(n, M.Free, JoinWait(1), Child(TlsDead, NotReaped));
    StepReaches(Both(n, M.Free, NoCall(0, 1), Child(TlsDead, NotReaped)), s1, 0, CallJoin(1));
    var s2 := Both(n, M.Free, JoinLock(1), Child(TlsDead, ReapedBy(0)));
    StepReaches(s1, s2, 0, Advance);
    StepReaches(s2, Both(n, M.HeldBy(0), JoinScan(1, 0), Child(TlsDead, ReapedBy(0))), 0, Advance);
  }

  lemma {:induction false} MainScans(n: nat, i: nat)
    requires 0 < n && i <= n
    ensures Reachable(Both(n, M.HeldBy(0), JoinScan(1, i), Child(TlsDead, ReapedBy(0))))
  {
    if i == 0 {
      MainJoins(n);
    } else {
      MainScans(n, i - 1);
      var s := Both(n, M.HeldBy(0), JoinScan(1, i - 1), Child(TlsDead, ReapedBy(0)));
      assert !Found(s, i - 1, Tid(1));
      StepReaches(s, Both(n, M.HeldBy(0), JoinScan(1, i), Child(TlsDead, ReapedBy(0))), 0, Advance);
    }
  }

  /** With any table, such as the source's 16 slots: a run that creates a pthread whose TLS setup
      fails and joins it, after which the join has delivered NULL and the slot is not given back. */
  lemma FailedTlsIsJoinedInVain(n: nat) returns (run: seq<State>)
    requires n > 0
    ensures IsRun(run)
    ensures var last := run[|run| - 1];
            && |last.slots| == n && last.slots[0].inUse && |last.threads| == 2
            && last.threads[1].life.TlsDead? && !last.threads[1].freed
            && last.threads[1].kind == Pthread(0, WORK) && last.joins == [Join(1, NULL)]
  {
    MainScans(n, n);
    var child := Child(TlsDead, ReapedBy(0));
    var s, s1 := Both(n, M.HeldBy(0), JoinScan(1, n), child), Both(n, M.HeldBy(0), JoinUnlock(1, NULL), child);
    StepReaches(s, s1, 0, Advance);
    var s2 := Both(n, M.Free, NoCall(0, NULL), child).(joins := [Join(1, NULL)]);
    StepReaches(s1, s2, 0, Advance);
    run :| LeadsTo(run, s2);
  }
}
