/**
 When the startup rendezvous of src/mpi.c can still succeed. Rank 0 sends each GO once, so a lost HELLO
 does no harm and a lost GO strands its rank for ever: from a state in which nobody has failed, all
 ranks can still leave successfully if and only if no GO has been lost.
 */
module RendezvousProgress {
  import opened MpiTags
  import opened Rendezvous

  // ---------------------------------------------------------------- what every run keeps

  predicate ShapeOk(s: State, r: nat)
    requires r < |s.ranks|
  {
    match s.ranks[r]
    case Polling => r > 0
    case Counting(seen, remaining) => r == 0 && |seen| == |s.ranks| && seen[0] && remaining == Unseen(seen)
    case Releasing(next) => r == 0 && 1 <= next <= |s.ranks|
    case _ => true
  }

  // Rank 0 has not begun to release the others.
  predicate Waiting(ph: Phase) {
    ph.Unbound? || ph.Counting?
  }

  predicate IsGo(p: Packet, q: nat) {
    p.tag == TAG_GO && p.dst == q
  }

  predicate NoGo(s: State, q: nat) {
    forall p :: p in s.net ==> !IsGo(p, q)
  }

  // While rank 0 waits, nobody has been released.
  predicate NobodyReleased(s: State)
    requires |s.ranks| > 0
  {
    Waiting(s.ranks[0]) ==>
      (forall p :: p in s.net ==> p.tag != TAG_GO) && forall q :: 0 <= q < |s.ranks| ==> !s.ranks[q].LeftOk?
  }

  predicate Shaped(s: State) {
    && 0 < |s.ranks| == |s.bound|
    && (forall r :: 0 <= r < |s.ranks| ==> ShapeOk(s, r))
    && NobodyReleased(s)
  }

  lemma StepperShape(s: State, s': State, r: nat, a: Action)
    requires Shaped(s) && Step(s, s', r, a)
    ensures |s'.ranks| == |s.ranks| == |s'.bound| && ShapeOk(s', r)
  {
    assert ShapeOk(s, r);
    if a.Bind? {
      UnseenFresh(|s.ranks|);
    } else if a.Receive? && s.ranks[r].Counting? && NewHello(s.ranks[r].seen, a.p.src, a.p.tag) {
      UnseenUpdate(s.ranks[r].seen, a.p.src);
    }
  }

  lemma StepKeepsShaped(s: State, s': State, r: nat, a: Action)
    requires Shaped(s) && Step(s, s', r, a)
    ensures Shaped(s')
  {
    StepperShape(s, s', r, a);
    assert ShapeOk(s, r) && ShapeOk(s, 0);
    forall q | 0 <= q < |s'.ranks|
      ensures ShapeOk(s', q)
    {
      assert ShapeOk(s, q);
    }
  }

  lemma {:induction false} RunKeepsShaped(run: seq<State>, i: nat)
    requires IsRun(run) && i < |run|
    ensures Shaped(run[i])
  {
    if i > 0 {
      RunKeepsShaped(run, i - 1);
      assert Next(run[i - 1], run[i - 1 + 1]);
      var r, a :| Step(run[i - 1], run[i], r, a);
      StepKeepsShaped(run[i - 1], run[i], r, a);
    }
  }

  // ---------------------------------------------------------------- a lost GO strands its rank

  // Rank 0 will send no more GO to rank q, and none is under way.
  predicate Stranded(s: State, q: nat)
    requires |s.ranks| > 0
  {
    && 0 < q < |s.ranks| && !s.ranks[q].LeftOk? && NoGo(s, q)
    && !Waiting(s.ranks[0]) && (s.ranks[0].Releasing? ==> s.ranks[0].next > q)
  }

  predicate NobodyStranded(s: State)
    requires |s.ranks| > 0
  {
    forall q :: 0 <= q < |s.ranks| ==> !Stranded(s, q)
  }

  lemma StepKeepsStranded(s: State, s': State, r: nat, a: Action, q: nat)
    requires Shaped(s) && Step(s, s', r, a) && Stranded(s, q) && |s.ranks| > 1
    ensures |s'.ranks| > 0 && Stranded(s', q)
  {
    assert ShapeOk(s, r);
  }

  // Consecutive states of a path are one step apart.
  ghost predicate IsPath(p: seq<State>) {
    |p| > 0 && forall i :: 0 <= i < |p| - 1 ==> Next(p[i], p[i + 1])
  }

  /** Once a rank's GO is lost, it never leaves successfully, whatever happens. */
  lemma {:induction false} StrandedStays(p: seq<State>, i: nat, q: nat)
    requires IsPath(p) && Shaped(p[0]) && Stranded(p[0], q) && i < |p|
    ensures Shaped(p[i]) && Stranded(p[i], q)
  {
    if i > 0 {
      StrandedStays(p, i - 1, q);
      assert Next(p[i - 1], p[i - 1 + 1]);
      var r, a :| Step(p[i - 1], p[i], r, a);
      StepKeepsShaped(p[i - 1], p[i], r, a);
      StepKeepsStranded(p[i - 1], p[i], r, a, q);
    }
  }

  // ---------------------------------------------------------------- nothing else strands a rank

  datatype Move = Move(rank: nat, action: Action)

  predicate StepAt(run: seq<State>, moves: seq<Move>, i: nat)
    requires i < |moves| < |run|
  {
    Step(run[i], run[i + 1], moves[i].rank, moves[i].action)
  }

  ghost predicate IsRunBy(run: seq<State>, moves: seq<Move>) {
    && |run| == |moves| + 1
    && Init(run[0])
    && forall i :: 0 <= i < |moves| ==> StepAt(run, moves, i)
  }

  predicate LosesGo(a: Action) {
    (a.SendGo? && a.lost) || (a.Lose? && a.p.tag == TAG_GO)
  }

  predicate FirstFailed(s: State)
    requires |s.ranks| > 0
  {
    s.ranks[0].BindFailed? || s.ranks[0].LeftError?
  }

  lemma StepStrandsNobody(s: State, s': State, m: Move)
    requires Shaped(s) && NobodyStranded(s) && Step(s, s', m.rank, m.action) && !LosesGo(m.action)
    requires |s'.ranks| > 0 && !FirstFailed(s')
    ensures NobodyStranded(s')
  {
    assert ShapeOk(s, m.rank) && ShapeOk(s, 0);
    forall q | 0 <= q < |s'.ranks|
      ensures !Stranded(s', q)
    {
      assert !Stranded(s, q);
      if m.action.SendGo? && q == s.ranks[m.rank].next {
        assert IsGo(Packet(m.rank, q, TAG_GO), q);
      }
    }
  }

  /** While no GO is lost and rank 0 has not failed, no rank is stranded: rank 0 leaves only after it has
      sent every one of them. */
  lemma {:induction false} OnlyALostGoStrands(run: seq<State>, moves: seq<Move>, i: nat)
    requires IsRunBy(run, moves) && i < |run|
    requires forall k :: 0 <= k < i ==> !LosesGo(moves[k].action)
    requires |run[i].ranks| > 0 && !FirstFailed(run[i])
    ensures Shaped(run[i]) && NobodyStranded(run[i])
  {
    if i > 0 {
      assert StepAt(run, moves, i - 1);
      OnlyALostGoStrands(run, moves, i - 1);
      StepKeepsShaped(run[i - 1], run[i], moves[i - 1].rank, moves[i - 1].action);
      StepStrandsNobody(run[i - 1], run[i], moves[i - 1]);
    }
  }

  // ---------------------------------------------------------------- otherwise everybody can leave

  predicate NobodyFailed(s: State) {
    forall r :: 0 <= r < |s.ranks| ==> !s.ranks[r].BindFailed? && !s.ranks[r].LeftError?
  }

  predicate AllLeft(s: State) {
    forall r :: 0 <= r < |s.ranks| ==> s.ranks[r].LeftOk?
  }

  predicate Healthy(s: State) {
    Shaped(s) && NobodyFailed(s) && NobodyStranded(s)
  }

  // What is left to do for one rank.
  function Work(ph: Phase, r: nat, n: nat): nat {
    match ph
    case Unbound => if r == 0 then 3 * n + 5 else 2
    case Polling => 1
    case Counting(_, remaining) => if remaining < 0 then n + 3 else n + 3 + remaining
    case Releasing(next) => if next < n then n - next + 2 else 1
    case _ => 0
  }

  function TotalWork(ranks: seq<Phase>, n: nat): nat {
    if ranks == [] then 0 else TotalWork(ranks[..|ranks| - 1], n) + Work(ranks[|ranks| - 1], |ranks| - 1, n)
  }

  lemma {:induction false} TotalWorkUpdate(ranks: seq<Phase>, r: nat, ph: Phase, n: nat)
    requires r < |ranks|
    ensures TotalWork(ranks[r := ph], n) == TotalWork(ranks, n) - Work(ranks[r], r, n) + Work(ph, r, n)
  {
    var k := |ranks| - 1;
    if r == k {
      assert ranks[r := ph][..k] == ranks[..k];
    } else {
      assert ranks[r := ph][..k] == ranks[..k][r := ph];
      TotalWorkUpdate(ranks[..k], r, ph, n);
    }
  }

  // One rank's phase changes for the better, and nothing under way is lost.
  predicate Improves(s: State, s': State, r: nat) {
    && r < |s.ranks| == |s'.ranks| && s'.ranks == s.ranks[r := s'.ranks[r]]
    && Work(s'.ranks[r], r, |s.ranks|) < Work(s.ranks[r], r, |s.ranks|)
  }

  lemma ImprovesTotal(s: State, s': State, r: nat)
    requires Improves(s, s', r)
    ensures TotalWork(s'.ranks, |s'.ranks|) < TotalWork(s.ranks, |s.ranks|)
  {
    TotalWorkUpdate(s.ranks, r, s'.ranks[r], |s.ranks|);
  }

  lemma Binding(s: State, r: nat) returns (s': State)
    requires Healthy(s) && r < |s.ranks| && s.ranks[r].Unbound?
    ensures Step(s, s', r, Bind) && Healthy(s') && Improves(s, s', r)
  {
    var n := |s.ranks|;
    var ph := if n == 1 then LeftOk else if r == 0 then Counting(Fresh(n), n - 1) else Polling;
    s' := Put(s, r, ph).(bound := s.bound[r := true]);
    StepKeepsShaped(s, s', r, Bind);
    forall q | 0 <= q < n
      ensures !Stranded(s', q)
    {
      assert !Stranded(s, q);
    }
  }

  lemma SomebodyUnseen(seen: seq<bool>) returns (q: nat)
    requires Unseen(seen) > 0
    ensures q < |seen| && !seen[q]
  {
    UnseenZero(seen);
    q :| q < |seen| && !seen[q];
  }

  // An unseen rank says hello, and rank 0 hears it.
  lemma Greeting(s: State) returns (mid: State, s': State)
    requires Healthy(s) && s.ranks[0].Counting? && s.ranks[0].remaining > 0
    requires forall r :: 0 <= r < |s.ranks| ==> !s.ranks[r].Unbound?
    ensures Next(s, mid) && Next(mid, s') && Healthy(s') && Improves(s, s', 0)
  {
    var ph := s.ranks[0];
    assert ShapeOk(s, 0);
    var q := SomebodyUnseen(ph.seen);
    assert ShapeOk(s, q);
    var p := Packet(q, 0, TAG_HELLO);
    mid := Send(s, p, false);
    assert Step(s, mid, q, SendHello(false));
    StepKeepsShaped(s, mid, q, SendHello(false));
    s' := Put(mid, 0, Counted(ph, p.src, p.tag));
    assert Step(mid, s', 0, Receive(p));
    StepKeepsShaped(mid, s', 0, Receive(p));
  }

  lemma Releases(s: State) returns (s': State)
    requires Healthy(s) && (s.ranks[0].Releasing? || (s.ranks[0].Counting? && s.ranks[0].remaining <= 0))
    ensures Next(s, s') && Healthy(s') && Improves(s, s', 0)
  {
    var ph, n := s.ranks[0], |s.ranks|;
    assert ShapeOk(s, 0);
    var a;
    if ph.Counting? {
      a, s' := FinishCounting, Put(s, 0, Releasing(1));
    } else if ph.next < n {
      a, s' := SendGo(false), Send(Put(s, 0, Releasing(ph.next + 1)), Packet(0, ph.next, TAG_GO), false);
    } else {
      a, s' := FinishReleasing, Put(s, 0, LeftOk);
    }
    assert Step(s, s', 0, a);
    StepKeepsShaped(s, s', 0, a);
    forall q | 0 <= q < n
      ensures !Stranded(s', q)
    {
      assert !Stranded(s, q);
      if ph.Releasing? && q == ph.next {
        assert IsGo(Packet(0, ph.next, TAG_GO), q);
      }
    }
  }

  lemma Leaving(s: State, q: nat) returns (s': State)
    requires Healthy(s) && s.ranks[0].LeftOk? && 0 < q < |s.ranks| && s.ranks[q].Polling?
    ensures Next(s, s') && Healthy(s') && Improves(s, s', q)
  {
    assert !Stranded(s, q);
    var p :| p in s.net && IsGo(p, q);
    s' := Put(s, q, LeftOk);
    assert Step(s, s', q, Receive(p));
    StepKeepsShaped(s, s', q, Receive(p));
    forall k | 0 <= k < |s.ranks|
      ensures !Stranded(s', k)
    {
      assert !Stranded(s, k);
    }
  }

  lemma CountersAreFirst(s: State, r: nat)
    requires Shaped(s) && NobodyFailed(s) && r < |s.ranks| && !s.ranks[r].LeftOk? && !s.ranks[r].Unbound? && r > 0
    ensures s.ranks[r].Polling?
  {
    assert ShapeOk(s, r);
  }

  // A path of one or two steps that leaves less to do.
  lemma OneMore(s: State) returns (p: seq<State>)
    requires Healthy(s) && !AllLeft(s)
    ensures IsPath(p) && |p| > 1 && p[0] == s
    ensures var s' := p[|p| - 1]; Healthy(s') && TotalWork(s'.ranks, |s'.ranks|) < TotalWork(s.ranks, |s.ranks|)
  {
    if r: nat :| r < |s.ranks| && s.ranks[r].Unbound? {
      var s' := Binding(s, r);
      assert Next(s, s');
      ImprovesTotal(s, s', r);
      p := [s, s'];
    } else if s.ranks[0].Counting? && s.ranks[0].remaining > 0 {
      var mid, s' := Greeting(s);
      ImprovesTotal(s, s', 0);
      p := [s, mid, s'];
    } else if s.ranks[0].Counting? || s.ranks[0].Releasing? {
      var s' := Releases(s);
      ImprovesTotal(s, s', 0);
      p := [s, s'];
    } else {
      assert ShapeOk(s, 0);
      var q :| 0 <= q < |s.ranks| && !s.ranks[q].LeftOk?;
      CountersAreFirst(s, q);
      var s' := Leaving(s, q);
      ImprovesTotal(s, s', q);
      p := [s, s'];
    }
  }

  lemma {:induction false} CanComplete(s: State) returns (p: seq<State>)
    requires Healthy(s)
    ensures IsPath(p) && p[0] == s && AllLeft(p[|p| - 1])
    decreases TotalWork(s.ranks, |s.ranks|)
  {
    if AllLeft(s) {
      p := [s];
    } else {
      var first := OneMore(s);
      var rest := CanComplete(first[|first| - 1]);
      p := first + rest[1..];
      forall i | 0 <= i < |p| - 1
        ensures Next(p[i], p[i + 1])
      {
        if i >= |first| - 1 {
          var k := i - (|first| - 1);
          assert p[i] == rest[k] && p[i + 1] == rest[k + 1];
          assert Next(rest[k], rest[k + 1]);
        } else {
          assert Next(first[i], first[i + 1]);
        }
      }
    }
  }

  /** From every reachable state in which nobody has failed, all ranks can still leave successfully if and
      only if no rank's GO has been lost; in particular they can from the start. */
  lemma CompletionIffNoGoIsLost(run: seq<State>, i: nat)
    requires IsRun(run) && i < |run| && NobodyFailed(run[i])
    ensures |run[i].ranks| > 0
    ensures NobodyStranded(run[i]) <==> exists p :: IsPath(p) && p[0] == run[i] && AllLeft(p[|p| - 1])
  {
    RunKeepsShaped(run, i);
    if NobodyStranded(run[i]) {
      var p := CanComplete(run[i]);
    } else {
      var q :| 0 <= q < |run[i].ranks| && Stranded(run[i], q);
      forall p | IsPath(p) && p[0] == run[i]
        ensures !AllLeft(p[|p| - 1])
      {
        StrandedStays(p, |p| - 1, q);
      }
    }
  }
}
