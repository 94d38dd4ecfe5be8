/**
 The startup rendezvous of src/mpi.c: no rank leaves MPI_Init before every rank has bound its port.

 Frames may be lost, delayed, reordered and duplicated: the network is a set from which receiving
 does not remove. A frame sent to a rank that has not bound is one of the lost ones. Ranks that have
 left go on to send frames of their own. The network starts empty, so there are no frames of an
 earlier session.
 */
module Rendezvous {
  import opened MpiTags

  datatype Packet = Packet(src: int, dst: nat, tag: int)

  datatype Phase =
    | Unbound
    | BindFailed
    | Polling                                       // other ranks: say hello, wait for go
    | Counting(seen: seq<bool>, remaining: int)     // rank 0: wait for every hello
    | Releasing(next: nat)                          // rank 0: send every go
    | LeftOk
    | LeftError

  datatype State = State(net: set<Packet>, ranks: seq<Phase>, bound: seq<bool>)

  datatype Action =
    | Bind
    | BindFails
    | SendHello(lost: bool)
    | Receive(p: Packet)
    | FinishCounting
    | SendGo(lost: bool)
    | FinishReleasing
    | Fail
    | SendOther(p: Packet)
    | Lose(p: Packet)

  // ---------------------------------------------------------------- rank 0's count

  function Fresh(n: nat): (seen: seq<bool>)
    requires n > 0
    ensures |seen| == n && seen[0] && forall i :: 0 < i < n ==> !seen[i]
  {
    seq(n, i => i == 0)
  }

  function Unseen(seen: seq<bool>): nat {
    if seen == [] then 0 else Unseen(seen[..|seen| - 1]) + if seen[|seen| - 1] then 0 else 1
  }

  // A hello from a rank that has not been seen yet.
  predicate NewHello(seen: seq<bool>, src: int, tag: int) {
    tag == TAG_HELLO && 0 <= src < |seen| && !seen[src]
  }

  function Counted(ph: Phase, src: int, tag: int): Phase
    requires ph.Counting?
  {
    if NewHello(ph.seen, src, tag) then Counting(ph.seen[src := true], ph.remaining - 1) else ph
  }

  lemma {:induction false} UnseenUpdate(seen: seq<bool>, i: nat)
    requires i < |seen| && !seen[i]
    ensures Unseen(seen[i := true]) == Unseen(seen) - 1
  {
    var k := |seen| - 1;
    if i == k {
      assert seen[i := true][..k] == seen[..k];
    } else {
      assert seen[i := true][..k] == seen[..k][i := true];
      UnseenUpdate(seen[..k], i);
    }
  }

  lemma {:induction false} UnseenZero(seen: seq<bool>)
    ensures Unseen(seen) == 0 <==> forall i :: 0 <= i < |seen| ==> seen[i]
  {
    if seen != [] {
      var k := |seen| - 1;
      UnseenZero(seen[..k]);
      if Unseen(seen) == 0 {
        forall i | 0 <= i < |seen| ensures seen[i] {
          assert i < k ==> seen[..k][i];
        }
      }
    }
  }

  lemma {:induction false} UnseenFresh(n: nat)
    requires n > 0
    ensures Unseen(Fresh(n)) == n - 1
  {
    var k := n - 1;
    if k > 0 {
      assert Fresh(n)[..k] == Fresh(k);
      UnseenFresh(k);
    } else {
      assert Fresh(n)[..k] == [];
    }
  }

  // ---------------------------------------------------------------- steps

  predicate Init(s: State) {
    && s.net == {}
    && |s.ranks| == |s.bound| > 0
    && forall r :: 0 <= r < |s.ranks| ==> s.ranks[r].Unbound? && !s.bound[r]
  }

  function Put(s: State, r: nat, ph: Phase): State
    requires r < |s.ranks|
  {
    s.(ranks := s.ranks[r := ph])
  }

  function Send(s: State, p: Packet, lost: bool): State {
    if lost then s else s.(net := s.net + {p})
  }

  predicate Step(s: State, s': State, r: nat, a: Action) {
    && r < |s.ranks| == |s.bound|
    && var ph, n := s.ranks[r], |s.ranks|;
       match a
       case Bind =>
         && ph.Unbound?
         && var ph := if n == 1 then LeftOk else if r == 0 then Counting(Fresh(n), n - 1) else Polling;
            s' == Put(s, r, ph).(bound := s.bound[r := true])
       case BindFails => ph.Unbound? && s' == Put(s, r, BindFailed)
       case SendHello(lost) => ph.Polling? && s' == Send(s, Packet(r, 0, TAG_HELLO), lost)
       case Receive(p) =>
         && p in s.net && p.dst == r
         && (if ph.Counting? then ph.remaining > 0 && s' == Put(s, r, Counted(ph, p.src, p.tag))
             else ph.Polling? && s' == if p.tag == TAG_GO then Put(s, r, LeftOk) else s)
       case FinishCounting => ph.Counting? && ph.remaining <= 0 && s' == Put(s, r, Releasing(1))
       case SendGo(lost) =>
         ph.Releasing? && ph.next < n && s' == Send(Put(s, r, Releasing(ph.next + 1)), Packet(r, ph.next, TAG_GO), lost)
       case FinishReleasing => ph.Releasing? && ph.next >= n && s' == Put(s, r, LeftOk)
       case Fail => (ph.Polling? || ph.Counting? || ph.Releasing?) && s' == Put(s, r, LeftError)
       case SendOther(p) => ph.LeftOk? && p.tag != TAG_HELLO && p.tag != TAG_GO && s' == Send(s, p, false)
       case Lose(p) => s' == s.(net := s.net - {p})
  }

  ghost predicate Next(s: State, s': State) {
    exists r, a :: Step(s, s', r, a)
  }

  ghost predicate IsRun(run: seq<State>) {
    && |run| > 0
    && Init(run[0])
    && forall i :: 0 <= i < |run| - 1 ==> Next(run[i], run[i + 1])
  }

  // ---------------------------------------------------------------- invariant

  predicate AllBound(s: State) {
    forall r :: 0 <= r < |s.bound| ==> s.bound[r]
  }

  predicate PacketOk(s: State, p: Packet) {
    && (p.tag == TAG_HELLO ==> 0 <= p.src < |s.bound| && s.bound[p.src])
    && (p.tag == TAG_GO ==> AllBound(s))
  }

  predicate PhaseOk(s: State, r: nat)
    requires r < |s.ranks| == |s.bound|
  {
    match s.ranks[r]
    case Unbound => true
    case BindFailed => true
    case Polling => s.bound[r]
    case Counting(seen, remaining) =>
      && |seen| == |s.bound| && remaining == Unseen(seen)
      && s.bound[r] && forall i :: 0 <= i < |seen| && seen[i] ==> s.bound[i]
    case Releasing(_) => AllBound(s)
    case LeftOk => AllBound(s)
    case LeftError => s.bound[r]
  }

  predicate Inv(s: State) {
    && |s.ranks| == |s.bound|
    && (forall p :: p in s.net ==> PacketOk(s, p))
    && (forall r :: 0 <= r < |s.ranks| ==> PhaseOk(s, r))
  }

  // Binding never goes back, so what one step leaves alone stays right.
  lemma PhaseStays(s: State, s': State, q: nat)
    requires q < |s.ranks| == |s.bound| == |s'.ranks| == |s'.bound| && PhaseOk(s, q) && s'.ranks[q] == s.ranks[q]
    requires forall i :: 0 <= i < |s.bound| && s.bound[i] ==> s'.bound[i]
    ensures PhaseOk(s', q)
  {
  }

  lemma StepKeepsPackets(s: State, s': State, r: nat, a: Action)
    requires Inv(s) && Step(s, s', r, a)
    ensures |s'.ranks| == |s'.bound| == |s.bound|
    ensures forall i :: 0 <= i < |s.bound| && s.bound[i] ==> s'.bound[i]
    ensures forall p :: p in s'.net ==> PacketOk(s', p)
  {
    assert PhaseOk(s, r);
  }

  lemma StepperPhase(s: State, s': State, r: nat, a: Action)
    requires Inv(s) && Step(s, s', r, a) && |s'.ranks| == |s'.bound|
    ensures PhaseOk(s', r)
  {
    var ph := s.ranks[r];
    assert PhaseOk(s, r);
    match a
    case Bind =>
      if r == 0 {
        UnseenFresh(|s.ranks|);
      }
    case Receive(p) =>
      assert PacketOk(s, p);
      if ph.Counting? && NewHello(ph.seen, p.src, p.tag) {
        UnseenUpdate(ph.seen, p.src);
      }
    case FinishCounting => UnseenZero(ph.seen);
    case _ =>
  }

  lemma StepKeepsInv(s: State, s': State, r: nat, a: Action)
    requires Inv(s) && Step(s, s', r, a)
    ensures Inv(s')
  {
    StepKeepsPackets(s, s', r, a);
    StepperPhase(s, s', r, a);
    forall q | 0 <= q < |s'.ranks|
      ensures PhaseOk(s', q)
    {
      if q != r {
        assert PhaseOk(s, q);
        PhaseStays(s, s', q);
      }
    }
  }

  lemma {:induction false} RunKeepsInv(run: seq<State>, i: nat)
    requires IsRun(run) && i < |run|
    ensures Inv(run[i])
  {
    if i > 0 {
      RunKeepsInv(run, i - 1);
      assert Next(run[i - 1], run[i - 1 + 1]);
      var r, a :| Step(run[i - 1], run[i], r, a);
      StepKeepsInv(run[i - 1], run[i], r, a);
    }
  }

  /** No rank leaves the rendezvous successfully before every rank has bound its port. */
  lemma NobodyLeavesBeforeAllAreBound(run: seq<State>, i: nat, r: nat)
    requires IsRun(run) && i < |run| && r < |run[i].ranks| && run[i].ranks[r].LeftOk?
    ensures AllBound(run[i])
  {
    RunKeepsInv(run, i);
    assert PhaseOk(run[i], r);
  }

  /** Rank 0's counter is always the number of ranks it has not heard from, however often each of
      the others says hello. */
  lemma RemainingCountsTheUnseen(run: seq<State>, i: nat, r: nat)
    requires IsRun(run) && i < |run| && r < |run[i].ranks| && run[i].ranks[r].Counting?
    ensures run[i].ranks[r].remaining == Unseen(run[i].ranks[r].seen)
    ensures run[i].ranks[r].remaining == 0 <==> forall q :: 0 <= q < |run[i].ranks[r].seen| ==> run[i].ranks[r].seen[q]
  {
    RunKeepsInv(run, i);
    assert PhaseOk(run[i], r);
    UnseenZero(run[i].ranks[r].seen);
  }

  // ---------------------------------------------------------------- rank 0's loop

  // What one try_recv gives: nothing, an error, or a frame, possibly too short for a header.
  datatype Polled = Nothing | Error | Short | Frame(src: int, tag: int)

  function CountedAll(ph: Phase, polls: seq<Polled>): (r: Phase)
    requires ph.Counting?
    ensures r.Counting?
  {
    if polls == [] then ph
    else
      var before, last := CountedAll(ph, polls[..|polls| - 1]), polls[|polls| - 1];
      if last.Frame? then Counted(before, last.src, last.tag) else before
  }

  datatype Outcome = Complete | Failed | StillWaiting

  /** The counting loop in place: it stops at the first moment every rank has been seen, fails on an
      error before that, and leaves in `seen` and `remaining` what counting the frames one by one
      gives. */
  method CountHellos(size: nat, seen: array<bool>, polls: seq<Polled>)
    returns (outcome: Outcome, remaining: int, used: nat)
    requires 0 < size == seen.Length
    modifies seen
    ensures used <= |polls|
    ensures var ph := CountedAll(Counting(Fresh(size), size - 1), polls[..used]);
            seen[..] == ph.seen && remaining == ph.remaining == Unseen(ph.seen)
    ensures used > 0 ==> CountedAll(Counting(Fresh(size), size - 1), polls[..used - 1]).remaining > 0
    ensures outcome == Complete <==> forall i :: 0 <= i < size ==> seen[i]
    ensures outcome == Failed ==> used > 0 && polls[used - 1].Error?
    ensures outcome == StillWaiting ==> used == |polls|
    ensures forall k :: 0 <= k < used - 1 ==> !polls[k].Error?
  {
    for i := 0 to size
      invariant forall k :: 0 <= k < i ==> !seen[k]
    {
      seen[i] := false;
    }
    seen[0] := true;
    remaining := size - 1;
    used := 0;
    ghost var start := Counting(Fresh(size), size - 1);
    assert seen[..] == Fresh(size) && polls[..0] == [];
    UnseenFresh(size);
    while remaining > 0 && used < |polls|
      invariant used <= |polls|
      invariant CountedAll(start, polls[..used]) == Counting(seen[..], remaining)
      invariant remaining == Unseen(seen[..])
      invariant used > 0 ==> CountedAll(start, polls[..used - 1]).remaining > 0
      invariant forall k :: 0 <= k < used ==> !polls[k].Error?
    {
      var p := polls[used];
      assert polls[..used + 1][..used] == polls[..used];
      used := used + 1;
      UnseenZero(seen[..]);
      if p.Error? {
        return Failed, remaining, used;
      }
      if p.Frame? && p.tag == TAG_HELLO && 0 <= p.src < size && !seen[p.src] {
        UnseenUpdate(seen[..], p.src);
        seen[p.src] := true;
        remaining := remaining - 1;
      }
    }
    UnseenZero(seen[..]);
    outcome := if remaining > 0 then StillWaiting else Complete;
  }
}
