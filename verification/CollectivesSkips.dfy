/**
 Why nobody may go on after an MPI_Allreduce whose first half failed: the call leaves out its
 broadcast, so its sequence counter stays one behind, and the next collective's messages look like
 the broadcast that other ranks are still waiting for.
 */
module CollectivesSkips {
  import opened MpiTags
  import opened Options
  import opened Collectives
  import opened CollectivesProofs
  import opened CollectivesWindow
  import R = ReduceOps

  // ---------------------------------------------------------------- how far a counter is behind

  // Calls left out.
  function SkipCount(outs: seq<Outcome>): nat {
    if outs == [] then 0
    else SkipCount(outs[..|outs| - 1]) + if outs[|outs| - 1].Skipped? then 1 else 0
  }

  lemma OneMoreOutcome(outs: seq<Outcome>, o: Outcome)
    ensures SkipCount(outs + [o]) == SkipCount(outs) + if o.Skipped? then 1 else 0
  {
    assert (outs + [o])[..|outs|] == outs;
  }

  lemma WorksKeepsLag(cfg: Config, r: nat, rk: Rank, rk': Rank, input: Option<Msg>, output: Option<Msg>)
    requires InProgram(cfg, rk) && Works(cfg, r, rk, rk', input, output) && Lag(rk) == SkipCount(rk.outs)
    ensures Lag(rk') == SkipCount(rk'.outs)
  {
    if rk'.outs != rk.outs {
      OneMoreOutcome(rk.outs, rk'.outs[|rk.outs|]);
    }
  }

  lemma EntersKeepsLag(cfg: Config, r: nat, rk: Rank, rk': Rank)
    requires cfg.n > 1 && Enters(cfg, r, rk, rk')
    ensures Lag(rk') == Lag(rk) && rk'.outs == rk.outs && rk'.lags == rk.lags + [Lag(rk)]
  {
  }

  lemma StepKeepsLag(cfg: Config, r: nat, rk: Rank, rk': Rank, input: Option<Msg>, output: Option<Msg>)
    requires cfg.n > 1 && RankStep(cfg, r, rk, rk', input, output) && Lag(rk) == SkipCount(rk.outs)
    ensures Lag(rk') == SkipCount(rk'.outs)
  {
    if InProgram(cfg, rk) && Works(cfg, r, rk, rk', input, output) {
      WorksKeepsLag(cfg, r, rk, rk', input, output);
    } else if Enters(cfg, r, rk, rk') {
      EntersKeepsLag(cfg, r, rk, rk');
    } else if Fails(rk, rk') {
      OneMoreOutcome(rk.outs, Error(rk.phase));
    } else if Skips(cfg, rk, rk') {
      OneMoreOutcome(rk.outs, Skipped);
    }
  }

  predicate AllLag(s: State) {
    forall r :: 0 <= r < |s.ranks| ==> Lag(s.ranks[r]) == SkipCount(s.ranks[r].outs)
  }

  lemma NextKeepsLag(cfg: Config, s: State, s': State)
    requires cfg.n > 1 && AllLag(s) && Next(cfg, s, s')
    ensures AllLag(s')
  {
    if m :| Loses(s, s', m) {
    } else {
      var r: nat, input, output :| Moves(cfg, s, s', r, input, output);
      assert Lag(s.ranks[r]) == SkipCount(s.ranks[r].outs);
      StepKeepsLag(cfg, r, s.ranks[r], s'.ranks[r], input, output);
    }
  }

  lemma {:induction false} RunKeepsLag(cfg: Config, run: seq<State>, i: nat)
    requires cfg.n > 1 && IsFreeRun(cfg, run) && i < |run|
    ensures AllLag(run[i]) && |run[i].ranks| == cfg.n
  {
    if i > 0 {
      RunKeepsLag(cfg, run, i - 1);
      assert Next(cfg, run[i - 1], run[i - 1 + 1]);
      NextKeepsLag(cfg, run[i - 1], run[i]);
    }
  }

  lemma ResiduesAgree(p: int, x: nat, k: int, y: nat, l: int)
    requires x + k == p == y + l
    ensures x % SEQ_SPAN == y % SEQ_SPAN <==> (k - l) % SEQ_SPAN == 0
  {
  }

  /** In every run, whatever failed: two ranks in the same call use the same tag if and only if they
      have left out equally many broadcasts, modulo 2^24. */
  lemma SameCallSameTag(cfg: Config, run: seq<State>, i: nat, r: nat, q: nat, b: Base)
    requires cfg.n > 1 && IsFreeRun(cfg, run) && i < |run| && r < cfg.n && q < cfg.n
    requires |run[i].ranks| == cfg.n && run[i].ranks[r].pos == run[i].ranks[q].pos
    ensures var rk, qk := run[i].ranks[r], run[i].ranks[q];
            CollTag(b, rk.seqno) == CollTag(b, qk.seqno) <==>
            (SkipCount(rk.outs) - SkipCount(qk.outs)) % SEQ_SPAN == 0
  {
    RunKeepsLag(cfg, run, i);
    var rk, qk := run[i].ranks[r], run[i].ranks[q];
    CollTagInjective(b, rk.seqno, b, qk.seqno);
    ResiduesAgree(rk.pos, rk.seqno, Lag(rk), qk.seqno, Lag(qk));
  }

  // ---------------------------------------------------------------- what is left out

  // Call c is the second half of an MPI_Allreduce whose first half did not succeed.
  predicate FollowsFailure(cfg: Config, outs: seq<Outcome>, c: nat)
    requires c < |cfg.prog| && c <= |outs|
  {
    cfg.prog[c].DoBcast? && cfg.prog[c].fed && (c == 0 || !outs[c - 1].Ok?)
  }

  predicate SkipAt(cfg: Config, outs: seq<Outcome>, c: nat)
    requires c < |outs| <= |cfg.prog|
  {
    outs[c].Skipped? <==> FollowsFailure(cfg, outs, c)
  }

  predicate SkipsOk(cfg: Config, rk: Rank) {
    && rk.pos == (if rk.phase.Outside? then |rk.outs| else |rk.outs| + 1) <= |cfg.prog|
    && (forall c :: 0 <= c < |rk.outs| ==> SkipAt(cfg, rk.outs, c))
    && (!rk.phase.Outside? ==> !FollowsFailure(cfg, rk.outs, |rk.outs|))
  }

  lemma OneMoreSkip(cfg: Config, outs: seq<Outcome>, o: Outcome, c: nat)
    requires |outs| < |cfg.prog| && (forall k :: 0 <= k < |outs| ==> SkipAt(cfg, outs, k))
    requires o.Skipped? <==> FollowsFailure(cfg, outs, |outs|)
    requires c <= |outs|
    ensures SkipAt(cfg, outs + [o], c)
  {
    assert c < |outs| ==> SkipAt(cfg, outs, c);
  }

  // A call that ends, by whatever outcome.
  predicate EndsCall(rk: Rank, rk': Rank) {
    && !rk.phase.Outside? && rk'.phase.Outside? && rk'.pos == rk.pos
    && |rk'.outs| == |rk.outs| + 1 && rk'.outs == rk.outs + [rk'.outs[|rk.outs|]] && !rk'.outs[|rk.outs|].Skipped?
  }

  lemma EndedCallIsOk(cfg: Config, rk: Rank, rk': Rank)
    requires SkipsOk(cfg, rk) && EndsCall(rk, rk')
    ensures SkipsOk(cfg, rk')
  {
    forall c | 0 <= c < |rk'.outs|
      ensures SkipAt(cfg, rk'.outs, c)
    {
      OneMoreSkip(cfg, rk.outs, rk'.outs[|rk.outs|], c);
    }
  }

  lemma WorkIsInCall(cfg: Config, r: nat, rk: Rank, rk': Rank, input: Option<Msg>, output: Option<Msg>)
    requires InProgram(cfg, rk) && Works(cfg, r, rk, rk', input, output)
    ensures EndsCall(rk, rk') || (rk'.outs == rk.outs && rk'.pos == rk.pos && !rk.phase.Outside? && !rk'.phase.Outside?)
  {
  }

  lemma EntryIsOk(cfg: Config, r: nat, rk: Rank, rk': Rank)
    requires SkipsOk(cfg, rk) && Enters(cfg, r, rk, rk')
    ensures SkipsOk(cfg, rk')
  {
    if rk'.phase.Outside? {
      forall c | 0 <= c < |rk'.outs|
        ensures SkipAt(cfg, rk'.outs, c)
      {
        OneMoreSkip(cfg, rk.outs, rk'.outs[|rk.outs|], c);
      }
    }
  }

  lemma SkipIsOk(cfg: Config, rk: Rank, rk': Rank)
    requires SkipsOk(cfg, rk) && Skips(cfg, rk, rk')
    ensures SkipsOk(cfg, rk')
  {
    forall c | 0 <= c < |rk'.outs|
      ensures SkipAt(cfg, rk'.outs, c)
    {
      OneMoreSkip(cfg, rk.outs, Skipped, c);
    }
  }

  lemma StepKeepsSkips(cfg: Config, r: nat, rk: Rank, rk': Rank, input: Option<Msg>, output: Option<Msg>)
    requires SkipsOk(cfg, rk) && RankStep(cfg, r, rk, rk', input, output)
    ensures SkipsOk(cfg, rk')
  {
    if InProgram(cfg, rk) && Works(cfg, r, rk, rk', input, output) {
      WorkIsInCall(cfg, r, rk, rk', input, output);
      if EndsCall(rk, rk') {
        EndedCallIsOk(cfg, rk, rk');
      }
    } else if Enters(cfg, r, rk, rk') {
      EntryIsOk(cfg, r, rk, rk');
    } else if Fails(rk, rk') {
      EndedCallIsOk(cfg, rk, rk');
    } else if Skips(cfg, rk, rk') {
      SkipIsOk(cfg, rk, rk');
    }
  }

  predicate AllSkipsOk(cfg: Config, s: State) {
    forall r :: 0 <= r < |s.ranks| ==> SkipsOk(cfg, s.ranks[r])
  }

  lemma NextKeepsSkips(cfg: Config, s: State, s': State)
    requires AllSkipsOk(cfg, s) && Next(cfg, s, s')
    ensures AllSkipsOk(cfg, s')
  {
    if m :| Loses(s, s', m) {
    } else {
      var r: nat, input, output :| Moves(cfg, s, s', r, input, output);
      StepKeepsSkips(cfg, r, s.ranks[r], s'.ranks[r], input, output);
    }
  }

  lemma {:induction false} RunKeepsSkips(cfg: Config, run: seq<State>, i: nat)
    requires IsFreeRun(cfg, run) && i < |run|
    ensures AllSkipsOk(cfg, run[i])
  {
    if i > 0 {
      RunKeepsSkips(cfg, run, i - 1);
      assert Next(cfg, run[i - 1], run[i - 1 + 1]);
      NextKeepsSkips(cfg, run[i - 1], run[i]);
    }
  }

  /** In every run, whatever failed: a rank leaves out a call if and only if it is the broadcast inside an
      MPI_Allreduce whose reduction did not succeed there. */
  lemma OnlyFailedAllreduceSkips(cfg: Config, run: seq<State>, i: nat, r: nat, c: nat)
    requires IsFreeRun(cfg, run) && i < |run| && r < |run[i].ranks| && c < |run[i].ranks[r].outs|
    ensures var outs := run[i].ranks[r].outs;
            && c < |cfg.prog|
            && (outs[c].Skipped? <==>
                cfg.prog[c].DoBcast? && cfg.prog[c].fed && (c == 0 || !outs[c - 1].Ok?))
  {
    RunKeepsSkips(cfg, run, i);
    assert SkipsOk(cfg, run[i].ranks[r]);
    assert SkipAt(cfg, run[i].ranks[r].outs, c);
  }

  // ---------------------------------------------------------------- stopping at the first error

  // A rank makes no collective call after one that failed.
  predicate StopsAtError(rk: Rank) {
    forall c :: 0 <= c < |rk.outs| ==> rk.outs[c].Ok? || (rk.outs[c].Error? && rk.pos == c + 1)
  }

  predicate AllStop(s: State) {
    forall r :: 0 <= r < |s.ranks| ==> StopsAtError(s.ranks[r])
  }

  // The counters of any two ranks differ by less than 2^24.
  predicate InWindow(s: State) {
    forall r, q :: 0 <= r < |s.ranks| && 0 <= q < |s.ranks| ==> s.ranks[r].pos < s.ranks[q].pos + SEQ_SPAN
  }

  // Nothing was left out: every message was numbered by its place in the program.
  predicate Unlagged(rk: Rank) {
    Lag(rk) == 0 && forall c :: 0 <= c < |rk.lags| ==> rk.lags[c] == 0
  }

  predicate AllUnlagged(s: State) {
    forall r :: 0 <= r < |s.ranks| ==> Unlagged(s.ranks[r])
  }

  lemma SkippingIsNoStop(cfg: Config, rk: Rank, rk': Rank)
    requires Skips(cfg, rk, rk')
    ensures !StopsAtError(rk')
  {
    assert rk'.outs[|rk.outs|].Skipped?;
  }

  lemma StepStaysUnlagged(cfg: Config, r: nat, rk: Rank, rk': Rank, input: Option<Msg>, output: Option<Msg>)
    requires cfg.n > 1 && RankStep(cfg, r, rk, rk', input, output) && Unlagged(rk) && StopsAtError(rk')
    ensures Unlagged(rk')
  {
    if InProgram(cfg, rk) && Works(cfg, r, rk, rk', input, output) {
      WorksAppends(cfg, r, rk, rk', input, output);
    } else if Enters(cfg, r, rk, rk') {
      EntersKeepsLag(cfg, r, rk, rk');
    } else if Skips(cfg, rk, rk') {
      SkippingIsNoStop(cfg, rk, rk');
    }
  }

  lemma NextStaysUnlagged(cfg: Config, s: State, s': State)
    requires cfg.n > 1 && AllUnlagged(s) && AllStop(s') && Next(cfg, s, s')
    ensures AllUnlagged(s')
  {
    if m :| Loses(s, s', m) {
    } else {
      var r: nat, input, output :| Moves(cfg, s, s', r, input, output);
      assert Unlagged(s.ranks[r]) && StopsAtError(s'.ranks[r]);
      StepStaysUnlagged(cfg, r, s.ranks[r], s'.ranks[r], input, output);
    }
  }

  lemma WindowSuffices(cfg: Config, s: State)
    requires Inv(cfg, s) && InWindow(s) && AllStop(s) && (cfg.n > 1 ==> AllUnlagged(s))
    ensures NoFalseMatch(s)
  {
    forall m | m in s.net && m.origin.Collective? && m.dst < |s.ranks| && ListensFor(s.ranks[m.dst], m.tag)
      ensures Near(s.ranks[m.dst], m.origin.index) && SameNumbering(s.ranks[m.dst], m.origin.lag)
    {
      assert MsgOk(cfg, s, m);
      var rk, sk := s.ranks[m.dst], s.ranks[m.src];
      assert RankOk(cfg, m.dst, rk) && RankOk(cfg, m.src, sk) && StopsAtError(rk) && Unlagged(rk) && Unlagged(sk);
      SentMeansEntered(cfg, m.src, sk, m.origin.base, m.origin.index, m.dst);
    }
  }

  lemma {:induction false} StoppingStateIsFine(cfg: Config, run: seq<State>, i: nat)
    requires IsFreeRun(cfg, run) && i < |run|
    requires forall k :: 0 <= k < |run| ==> InWindow(run[k]) && AllStop(run[k])
    ensures Inv(cfg, run[i]) && NoFalseMatch(run[i]) && (cfg.n > 1 ==> AllUnlagged(run[i]))
  {
    if i > 0 {
      StoppingStateIsFine(cfg, run, i - 1);
      assert Next(cfg, run[i - 1], run[i - 1 + 1]);
      NextKeepsInv(cfg, run[i - 1], run[i]);
      if cfg.n > 1 {
        NextStaysUnlagged(cfg, run[i - 1], run[i]);
      }
    }
    WindowSuffices(cfg, run[i]);
  }

  /** Runs of programs that make no collective call after a failed one, with counters less than 2^24
      apart, are among those the theorems on collectives are about. */
  lemma StoppingRunIsRun(cfg: Config, run: seq<State>)
    requires IsFreeRun(cfg, run)
    requires forall k :: 0 <= k < |run| ==> InWindow(run[k]) && AllStop(run[k])
    ensures IsRun(cfg, run)
  {
    forall i | 0 <= i < |run|
      ensures NoFalseMatch(run[i])
    {
      StoppingStateIsFine(cfg, run, i);
    }
  }

  // ---------------------------------------------------------------- a run that goes wrong

  // Two ranks: an all-reduce, then a broadcast.
  const PROGRAM2 := Config(2, [DoReduce(0, R.Sum, R.Int, 1), DoBcast(0, 1, true), DoBcast(0, 1, false)])

  const NEW_RANK := Rank(0, 0, Outside, [], [], [], [])

  predicate Small(net: multiset<Msg>) {
    forall m :: m in net && m.origin.Collective? ==> m.origin.index < 3
  }

  // One step of rank 0, or of rank 1, in a state of this run.
  lemma ZeroGoes(net: multiset<Msg>, rk: Rank, rk': Rank, other: Rank, output: Option<Msg>)
    requires Reachable(PROGRAM2, true, State(net, [rk, other])) && RankStep(PROGRAM2, 0, rk, rk', None, output)
    requires Small(net + Bag(output)) && rk'.pos <= 3 && other.pos <= 3
    ensures Reachable(PROGRAM2, true, State(net + Bag(output), [rk', other]))
  {
    assert net - multiset{} == net && [rk, other][0 := rk'] == [rk', other];
    MoveReaches(PROGRAM2, true, State(net, [rk, other]), 0, rk', None, output,
                State(net + Bag(output), [rk', other]));
  }

  lemma OneGoes(net: multiset<Msg>, rk: Rank, rk': Rank, other: Rank, input: Option<Msg>, output: Option<Msg>)
    requires Reachable(PROGRAM2, true, State(net, [other, rk])) && RankStep(PROGRAM2, 1, rk, rk', input, output)
    requires input.Some? ==> input.value in net && input.value.dst == 1
    requires Small(net - Bag(input) + Bag(output)) && rk'.pos <= 3 && other.pos <= 3
    ensures Reachable(PROGRAM2, true, State(net - Bag(input) + Bag(output), [other, rk']))
  {
    assert [other, rk][1 := rk'] == [other, rk'];
    MoveReaches(PROGRAM2, true, State(net, [other, rk]), 1, rk', input, output,
                State(net - Bag(input) + Bag(output), [other, rk']));
  }

  lemma NobodyStarted()
    ensures Reachable(PROGRAM2, true, State(multiset{}, [NEW_RANK, NEW_RANK]))
  {
    var s := State(multiset{}, [NEW_RANK, NEW_RANK]);
    assert LeadsTo(PROGRAM2, [s], true, s);
  }

  // Rank 1 contributes 5 ...
  lemma RankOneReduces() returns (net: multiset<Msg>, rk: Rank)
    ensures Small(net) && Reachable(PROGRAM2, true, State(net, [NEW_RANK, rk]))
    ensures rk.phase == Outside && rk.seqno == 1 && rk.pos == 1 && |rk.ins| == 1 && rk.outs == [Ok([5])]
  {
    NobodyStarted();
    assert FitsBuffer(PROGRAM2, 1, NEW_RANK, [5]);
    var rk1 := Entered(PROGRAM2, 1, NEW_RANK, [5]);
    OneGoes(multiset{}, NEW_RANK, rk1, NEW_RANK, None, None);
    var m := CollMsg(1, 0, Reduce, rk1, [5]);
    rk := Completed(rk1, [5], []);
    assert Works(PROGRAM2, 1, rk1, rk, None, Some(m));
    net := multiset{} - Bag(None) + Bag(None);
    OneGoes(net, rk1, rk, NEW_RANK, None, Some(m));
    net := net - Bag(None) + Bag(Some(m));
  }

  // ... and waits for the broadcast of its MPI_Allreduce.
  lemma RankOneWaits() returns (net: multiset<Msg>, rk: Rank)
    ensures Small(net) && Reachable(PROGRAM2, true, State(net, [NEW_RANK, rk]))
    ensures rk.phase == BcastRecv && rk.seqno == 2 && rk.pos == 2 && |rk.ins| == 2 && |rk.ins[1]| == 1
    ensures rk.outs == [Ok([5])]
  {
    var rk1;
    net, rk1 := RankOneReduces();
    assert FitsBuffer(PROGRAM2, 1, rk1, [5]);
    rk := Entered(PROGRAM2, 1, rk1, [5]);
    assert Enters(PROGRAM2, 1, rk1, rk);
    OneGoes(net, rk1, rk, NEW_RANK, None, None);
    net := net - Bag(None) + Bag(None);
  }

  // Rank 0's reduction fails ...
  lemma RankZeroFails(net: multiset<Msg>, other: Rank) returns (rk: Rank)
    requires Small(net) && other.pos <= 3 && Reachable(PROGRAM2, true, State(net, [NEW_RANK, other]))
    ensures Reachable(PROGRAM2, true, State(net, [rk, other]))
    ensures rk.phase == Outside && rk.seqno == 1 && rk.pos == 1 && |rk.ins| == 1
    ensures |rk.outs| == 1 && rk.outs[0].Error?
  {
    assert FitsBuffer(PROGRAM2, 0, NEW_RANK, [7]);
    var rk1 := Entered(PROGRAM2, 0, NEW_RANK, [7]);
    assert net + Bag(None) == net;
    ZeroGoes(net, NEW_RANK, rk1, other, None);
    rk := Failing(rk1);
    ZeroGoes(net, rk1, rk, other, None);
  }

  // ... so it makes no broadcast ...
  lemma RankZeroSkips(net: multiset<Msg>, rk: Rank, other: Rank) returns (rk': Rank)
    requires Small(net) && other.pos <= 3 && Reachable(PROGRAM2, true, State(net, [rk, other]))
    requires rk.phase == Outside && rk.seqno == 1 && rk.pos == 1 && |rk.ins| == 1
    requires |rk.outs| == 1 && rk.outs[0].Error?
    ensures Reachable(PROGRAM2, true, State(net, [rk', other]))
    ensures rk'.phase == Outside && rk'.seqno == 1 && rk'.pos == 2 && |rk'.ins| == 2
    ensures |rk'.outs| == 2 && rk'.outs[0].Error?
  {
    assert net + Bag(None) == net;
    rk' := PassedOver(rk, [7]);
    assert |[7]| == 1 && !MayEnter(PROGRAM2, rk) && Skips(PROGRAM2, rk, rk');
    ZeroGoes(net, rk, rk', other, None);
  }

  // ... and its program goes on to the next call.
  lemma RankZeroGoesOn(net: multiset<Msg>, rk: Rank, other: Rank) returns (rk': Rank)
    requires Small(net) && other.pos <= 3 && Reachable(PROGRAM2, true, State(net, [rk, other]))
    requires rk.phase == Outside && rk.seqno == 1 && rk.pos == 2 && |rk.ins| == 2
    requires |rk.outs| == 2 && rk.outs[0].Error?
    ensures Reachable(PROGRAM2, true, State(net, [rk', other]))
    ensures rk'.phase == BcastSend(0) && rk'.seqno == 2 && rk'.pos == 3 && |rk'.ins| == 3 && rk'.ins[2] == [9]
    ensures |rk'.outs| == 2 && rk'.outs[0].Error?
  {
    assert net + Bag(None) == net;
    assert MayEnter(PROGRAM2, rk) && FitsBuffer(PROGRAM2, 0, rk, [9]);
    rk' := Entered(PROGRAM2, 0, rk, [9]);
    assert Enters(PROGRAM2, 0, rk, rk');
    ZeroGoes(net, rk, rk', other, None);
  }

  lemma RankZeroBroadcasts(net: multiset<Msg>, rk: Rank, other: Rank) returns (m: Msg, rk': Rank)
    requires Small(net) && other.pos <= 3 && Reachable(PROGRAM2, true, State(net, [rk, other]))
    requires rk.phase == BcastSend(0) && rk.seqno == 2 && rk.pos == 3 && |rk.ins| == 3 && rk.ins[2] == [9]
    ensures Reachable(PROGRAM2, true, State(net + multiset{m}, [rk', other])) && Small(net + multiset{m})
    ensures m.src == 0 && m.dst == 1 && m.tag == CollTag(Bcast, 2) && m.data == [9]
    ensures rk'.outs == rk.outs && rk'.pos == 3
  {
    assert net + Bag(None) == net;
    var rk1 := rk.(phase := BcastSend(1));
    assert Works(PROGRAM2, 0, rk, rk1, None, None);
    ZeroGoes(net, rk, rk1, other, None);
    m, rk' := CollMsg(0, 1, Bcast, rk1, [9]), rk1.(phase := BcastSend(2));
    assert Works(PROGRAM2, 0, rk1, rk', None, Some(m));
    ZeroGoes(net, rk1, rk', other, Some(m));
  }

  lemma RankOneTakes(net: multiset<Msg>, m: Msg, rk: Rank, other: Rank) returns (rk': Rank)
    requires Small(net) && m in net && other.pos <= 3 && Reachable(PROGRAM2, true, State(net, [other, rk]))
    requires m.src == 0 && m.dst == 1 && m.tag == CollTag(Bcast, 2) && m.data == [9]
    requires rk.phase == BcastRecv && rk.seqno == 2 && rk.pos == 2 && |rk.ins| == 2 && |rk.ins[1]| == 1
    ensures Reachable(PROGRAM2, true, State(net - Bag(Some(m)) + Bag(None), [other, rk']))
    ensures rk'.outs == rk.outs + [Ok([9])]
  {
    assert [9] + rk.ins[1][1..] == [9];
    rk' := Completed(rk, [9], []);
    assert Works(PROGRAM2, 1, rk, rk', Some(m), None);
    OneGoes(net, rk, rk', other, Some(m), None);
  }

  /** A run, with every message near, in which rank 0's MPI_Allreduce fails and its program goes on
      to broadcast 9: rank 1's MPI_Allreduce returns successfully with that 9. */
  lemma FailedAllreduceMisleads() returns (run: seq<State>)
    ensures IsFreeRun(PROGRAM2, run) && forall i :: 0 <= i < |run| ==> InFlightNear(run[i])
    ensures var ranks := run[|run| - 1].ranks;
            |ranks| == 2 && |ranks[0].outs| == 2 && ranks[0].outs[0].Error? && ranks[1].outs == [Ok([5]), Ok([9])]
  {
    var net, one := RankOneWaits();
    var zero := RankZeroFails(net, one);
    zero := RankZeroSkips(net, zero, one);
    zero := RankZeroGoesOn(net, zero, one);
    var m, zero' := RankZeroBroadcasts(net, zero, one);
    net := net + multiset{m};
    var one' := RankOneTakes(net, m, one, zero');
    run :| LeadsTo(PROGRAM2, run, true, State(net - Bag(Some(m)) + Bag(None), [zero', one']));
  }
}
