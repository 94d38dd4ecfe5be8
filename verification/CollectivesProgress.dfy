/**
 That the collectives of src/mpi.c get done. A collective never fails of its own accord, but only when
 a send or a receive does; and while no message is lost and nothing fails, no rank gets stuck: every
 run can be continued until every rank has returned successfully from every call of its program.
 */
module CollectivesProgress {
  import opened Counting
  import opened MpiTags
  import opened Options
  import opened Collectives
  import opened CollectivesProofs
  import opened CollectivesValues
  import opened CollectivesSkips
  import R = ReduceOps

  // ---------------------------------------------------------------- no failure of its own

  /** A step inside a collective never records an error: tokens fit, and buffers are as long as agreed. */
  lemma WorkNeverFails(cfg: Config, s: State, s': State, r: nat, input: Option<Msg>, output: Option<Msg>)
    requires Inv(cfg, s) && Working(cfg, s, s', r, input, output)
    ensures |s.ranks[r].outs| <= |s'.ranks[r].outs| <= |s.ranks[r].outs| + 1
    ensures |s'.ranks[r].outs| > |s.ranks[r].outs| ==> s'.ranks[r].outs[|s.ranks[r].outs|].Ok?
    ensures s'.ranks[r] != Failing(s.ranks[r])
  {
    var rk := s.ranks[r];
    assert RankOk(cfg, r, rk);
    if input.Some? {
      WorkInput(cfg, s, s', r, input, output);
      assert MsgOk(cfg, s, input.value);
      if !cfg.prog[rk.pos - 1].DoBarrier? {
        InputCarries(cfg, s, input.value);
      }
    }
  }

  lemma MoveFailsByCommunication(cfg: Config, s: State, s': State, r: nat, input: Option<Msg>, output: Option<Msg>)
    requires Inv(cfg, s) && Moves(cfg, s, s', r, input, output) && GoodInputs(cfg, r, s.ranks[r], input)
    requires |s'.ranks[r].outs| > |s.ranks[r].outs| && s'.ranks[r].outs[|s.ranks[r].outs|].Error?
    ensures Fails(s.ranks[r], s'.ranks[r]) && input == None == output
  {
    if InProgram(cfg, s.ranks[r]) && Works(cfg, r, s.ranks[r], s'.ranks[r], input, output) {
      WorkNeverFails(cfg, s, s', r, input, output);
    }
  }

  /** In every run a collective fails only by a send or a receive that fails. */
  lemma OnlyCommunicationFails(cfg: Config, run: seq<State>, i: nat, r: nat, input: Option<Msg>, output: Option<Msg>)
    requires IsRun(cfg, run) && i + 1 < |run| && Moves(cfg, run[i], run[i + 1], r, input, output)
    requires |run[i + 1].ranks[r].outs| > |run[i].ranks[r].outs|
    requires run[i + 1].ranks[r].outs[|run[i].ranks[r].outs|].Error?
    ensures Fails(run[i].ranks[r], run[i + 1].ranks[r]) && input == None == output
  {
    RunKeepsInv(cfg, run, i);
    assert NoFalseMatch(run[i]);
    MovesInputIsGood(cfg, run[i], run[i + 1], r, input, output);
    MoveFailsByCommunication(cfg, run[i], run[i + 1], r, input, output);
  }

  // ---------------------------------------------------------------- clean runs

  predicate AllOk(s: State) {
    forall r, c :: 0 <= r < |s.ranks| && 0 <= c < |s.ranks[r].outs| ==> s.ranks[r].outs[c].Ok?
  }

  ghost predicate SomeMove(cfg: Config, s: State, s': State) {
    exists r, input, output :: Moves(cfg, s, s', r, input, output)
  }

  ghost predicate MoveAt(cfg: Config, run: seq<State>, i: nat)
    requires i + 1 < |run|
  {
    SomeMove(cfg, run[i], run[i + 1])
  }

  // No message is lost, no call has failed, and counters are less than 2^24 apart.
  ghost predicate IsCleanRun(cfg: Config, run: seq<State>) {
    && ValidConfig(cfg) && |run| > 0 && Init(cfg, run[0])
    && (forall i :: 0 <= i < |run| ==> AllOk(run[i]) && InWindow(run[i]))
    && forall i :: 0 <= i < |run| - 1 ==> MoveAt(cfg, run, i)
  }

  lemma CleanRunIsRun(cfg: Config, run: seq<State>)
    requires IsCleanRun(cfg, run)
    ensures IsRun(cfg, run)
  {
    forall i | 0 <= i < |run| - 1
      ensures Next(cfg, run[i], run[i + 1])
    {
      assert MoveAt(cfg, run, i);
    }
    forall k | 0 <= k < |run|
      ensures InWindow(run[k]) && AllStop(run[k])
    {
      assert AllOk(run[k]);
    }
    StoppingRunIsRun(cfg, run);
  }

  // ---------------------------------------------------------------- nothing is lost

  // What has been sent and not received is under way.
  predicate UnderWay(cfg: Config, s: State, b: Base, c: nat, src: nat, dst: nat)
    requires |s.ranks| == cfg.n && Fits(cfg, b, c, src, dst)
  {
    Sent(s.ranks[src], b, c, dst) && !Done(s.ranks[dst], b, c, src) ==>
      HasMessage(s.ranks[src], c) && Message(b, c, src, dst, s.ranks[src]) in s.net
  }

  ghost predicate Lossless(cfg: Config, s: State)
    requires |s.ranks| == cfg.n
  {
    forall b, c: nat, src: nat, dst: nat | Fits(cfg, b, c, src, dst) :: UnderWay(cfg, s, b, c, src, dst)
  }

  lemma StepKeepsDone(cfg: Config, r: nat, rk: Rank, rk': Rank, input: Option<Msg>, output: Option<Msg>,
      b: Base, c: nat, src: nat)
    requires RankOk(cfg, r, rk) && RankStep(cfg, r, rk, rk', input, output) && Fits(cfg, b, c, src, r)
    requires Done(rk, b, c, src)
    ensures Done(rk', b, c, src)
  {
    if Fails(rk, rk') {
      FailingKeepsProgress(cfg, r, rk, c);
    } else if InProgram(cfg, rk) && Works(cfg, r, rk, rk', input, output) {
      WorksKeepsDone(cfg, r, rk, rk', input, output, b, c, src);
    } else {
      assert ProgressOf(rk', c) == ProgressOf(rk, c);
    }
  }

  lemma WorksKeepsDone(cfg: Config, r: nat, rk: Rank, rk': Rank, input: Option<Msg>, output: Option<Msg>,
      b: Base, c: nat, src: nat)
    requires RankOk(cfg, r, rk) && InProgram(cfg, rk) && Works(cfg, r, rk, rk', input, output)
    requires Fits(cfg, b, c, src, r) && Done(rk, b, c, src)
    ensures Done(rk', b, c, src)
  {
    if rk' == Failing(rk) {
      FailingKeepsProgress(cfg, r, rk, c);
    } else if c != rk.pos - 1 {
      assert ProgressOf(rk', c) == ProgressOf(rk, c);
    }
  }

  // A message of a collective that a step takes is done with, unless the step fails.
  lemma StepConsumes(cfg: Config, r: nat, rk: Rank, rk': Rank, m: Msg, output: Option<Msg>)
    requires RankOk(cfg, r, rk) && RankStep(cfg, r, rk, rk', Some(m), output) && GoodInput(cfg, r, rk, m)
    requires m.origin.Collective? && rk' != Failing(rk)
    ensures Done(rk', m.origin.base, m.origin.index, m.src)
  {
  }

  lemma MessageStays(cfg: Config, s: State, s': State, r: nat, input: Option<Msg>, output: Option<Msg>,
      b: Base, c: nat, src: nat, dst: nat)
    requires Moves(cfg, s, s', r, input, output) && src < |s.ranks| && HasMessage(s.ranks[src], c)
    ensures HasMessage(s'.ranks[src], c)
    ensures Message(b, c, src, dst, s'.ranks[src]) == Message(b, c, src, dst, s.ranks[src])
  {
    StepAppends(cfg, r, s.ranks[r], s'.ranks[r], input, output);
  }

  lemma NotTakenStays(cfg: Config, s: State, s': State, r: nat, input: Option<Msg>, output: Option<Msg>, m: Msg)
    requires Moves(cfg, s, s', r, input, output) && m in s.net && input != Some(m)
    ensures m in s'.net
  {
  }

  lemma TakenIsDone(cfg: Config, s: State, s': State, r: nat, m: Msg, output: Option<Msg>)
    requires r < cfg.n == |s.ranks| && RankOk(cfg, r, s.ranks[r]) && Moves(cfg, s, s', r, Some(m), output)
    requires GoodInput(cfg, r, s.ranks[r], m) && s'.ranks[r] != Failing(s.ranks[r]) && m.origin.Collective?
    ensures m.dst == r && Done(s'.ranks[r], m.origin.base, m.origin.index, m.src)
  {
    StepConsumes(cfg, r, s.ranks[r], s'.ranks[r], m, output);
  }

  // What was under way and is still wanted is still under way.
  lemma OldStaysUnderWay(cfg: Config, s: State, s': State, r: nat, input: Option<Msg>, output: Option<Msg>,
      b: Base, c: nat, src: nat, dst: nat)
    requires RanksOk(cfg, s) && Moves(cfg, s, s', r, input, output)
    requires GoodInputs(cfg, r, s.ranks[r], input) && s'.ranks[r] != Failing(s.ranks[r])
    requires Fits(cfg, b, c, src, dst) && HasMessage(s.ranks[src], c) && Message(b, c, src, dst, s.ranks[src]) in s.net
    requires !Done(s'.ranks[dst], b, c, src)
    ensures HasMessage(s'.ranks[src], c) && Message(b, c, src, dst, s'.ranks[src]) in s'.net
  {
    MessageStays(cfg, s, s', r, input, output, b, c, src, dst);
    var m := Message(b, c, src, dst, s.ranks[src]);
    if input == Some(m) {
      assert RankOk(cfg, r, s.ranks[r]);
      TakenIsDone(cfg, s, s', r, m, output);
    } else {
      NotTakenStays(cfg, s, s', r, input, output, m);
    }
  }

  // What is sent is under way.
  lemma NewIsUnderWay(cfg: Config, s: State, s': State, r: nat, input: Option<Msg>, output: Option<Msg>,
      b: Base, c: nat, src: nat, dst: nat)
    requires ValidConfig(cfg) && Inv(cfg, s) && Moves(cfg, s, s', r, input, output) && Fits(cfg, b, c, src, dst)
    requires Sent(s'.ranks[src], b, c, dst) && !Sent(s.ranks[src], b, c, dst)
    ensures HasMessage(s'.ranks[src], c) && Message(b, c, src, dst, s'.ranks[src]) in s'.net
  {
    var rk, rk' := s.ranks[r], s'.ranks[r];
    assert RankOk(cfg, r, rk);
    StepSends(cfg, r, rk, rk', input, output, b, c, dst);
    StepOutput(cfg, r, rk, rk', input, output);
  }

  lemma StaysDone(cfg: Config, s: State, s': State, r: nat, input: Option<Msg>, output: Option<Msg>,
      b: Base, c: nat, src: nat, dst: nat)
    requires Inv(cfg, s) && Moves(cfg, s, s', r, input, output) && Fits(cfg, b, c, src, dst)
    requires Done(s.ranks[dst], b, c, src)
    ensures Done(s'.ranks[dst], b, c, src)
  {
    if dst == r {
      assert RankOk(cfg, r, s.ranks[r]);
      StepKeepsDone(cfg, r, s.ranks[r], s'.ranks[r], input, output, b, c, src);
    }
  }

  lemma MovesKeepsUnderWay(cfg: Config, s: State, s': State, r: nat, input: Option<Msg>, output: Option<Msg>,
      b: Base, c: nat, src: nat, dst: nat)
    requires ValidConfig(cfg) && Inv(cfg, s) && Moves(cfg, s, s', r, input, output)
    requires GoodInputs(cfg, r, s.ranks[r], input) && s'.ranks[r] != Failing(s.ranks[r])
    requires Fits(cfg, b, c, src, dst) && UnderWay(cfg, s, b, c, src, dst)
    ensures UnderWay(cfg, s', b, c, src, dst)
  {
    if Sent(s'.ranks[src], b, c, dst) && !Done(s'.ranks[dst], b, c, src) {
      if Done(s.ranks[dst], b, c, src) {
        StaysDone(cfg, s, s', r, input, output, b, c, src, dst);
      } else if Sent(s.ranks[src], b, c, dst) {
        OldStaysUnderWay(cfg, s, s', r, input, output, b, c, src, dst);
      } else {
        NewIsUnderWay(cfg, s, s', r, input, output, b, c, src, dst);
      }
    }
  }

  lemma NoFailingMove(cfg: Config, s: State, s': State, r: nat, input: Option<Msg>, output: Option<Msg>)
    requires Moves(cfg, s, s', r, input, output) && AllOk(s')
    ensures s'.ranks[r] != Failing(s.ranks[r])
  {
    assert Failing(s.ranks[r]).outs[|s.ranks[r].outs|].Error?;
  }

  lemma MoveKeepsLossless(cfg: Config, s: State, s': State)
    requires ValidConfig(cfg) && Inv(cfg, s) && Lossless(cfg, s) && NoFalseMatch(s) && AllOk(s') && SomeMove(cfg, s, s')
    ensures |s'.ranks| == cfg.n && Lossless(cfg, s')
  {
    var r, input, output :| Moves(cfg, s, s', r, input, output);
    MovesInputIsGood(cfg, s, s', r, input, output);
    NoFailingMove(cfg, s, s', r, input, output);
    forall b, c: nat, src: nat, dst: nat | Fits(cfg, b, c, src, dst)
      ensures UnderWay(cfg, s', b, c, src, dst)
    {
      assert UnderWay(cfg, s, b, c, src, dst);
      MovesKeepsUnderWay(cfg, s, s', r, input, output, b, c, src, dst);
    }
  }

  lemma CleanRunFacts(cfg: Config, run: seq<State>, i: nat)
    requires IsCleanRun(cfg, run) && i < |run|
    ensures Inv(cfg, run[i]) && NoFalseMatch(run[i]) && ValuesOk(cfg, run[i]) && AllOk(run[i]) && InWindow(run[i])
    ensures cfg.n > 1 ==> AllUnlagged(run[i])
  {
    CleanRunIsRun(cfg, run);
    RunKeepsInv(cfg, run, i);
    RunKeepsValues(cfg, run, i);
    forall k | 0 <= k < |run|
      ensures InWindow(run[k]) && AllStop(run[k])
    {
      assert AllOk(run[k]);
    }
    StoppingStateIsFine(cfg, run, i);
  }

  lemma {:induction false} CleanRunIsLossless(cfg: Config, run: seq<State>, i: nat)
    requires IsCleanRun(cfg, run) && i < |run|
    ensures |run[i].ranks| == cfg.n && Lossless(cfg, run[i])
  {
    if i == 0 {
      NothingSent(cfg, run[0]);
    } else {
      CleanRunIsLossless(cfg, run, i - 1);
      LosslessStep(cfg, run, i - 1);
    }
  }

  lemma NothingSent(cfg: Config, s: State)
    requires Init(cfg, s)
    ensures Lossless(cfg, s)
  {
    forall b, c: nat, src: nat, dst: nat | Fits(cfg, b, c, src, dst)
      ensures UnderWay(cfg, s, b, c, src, dst)
    {
      assert s.ranks[src].outs == [] && s.ranks[src].pos == 0;
    }
  }

  lemma LosslessStep(cfg: Config, run: seq<State>, i: nat)
    requires IsCleanRun(cfg, run) && i + 1 < |run| && |run[i].ranks| == cfg.n && Lossless(cfg, run[i])
    ensures |run[i + 1].ranks| == cfg.n && Lossless(cfg, run[i + 1])
  {
    CleanRunFacts(cfg, run, i);
    var s, s' := run[i], run[i + 1];
    assert SomeMove(cfg, s, s') by {
      assert MoveAt(cfg, run, i);
    }
    assert AllOk(s');
    MoveKeepsLossless(cfg, s, s');
  }

  // What a clean run keeps, all together.
  ghost predicate Good(cfg: Config, s: State) {
    && ValidConfig(cfg) && Inv(cfg, s) && ValuesOk(cfg, s) && Lossless(cfg, s)
    && AllOk(s) && InWindow(s) && (cfg.n > 1 ==> AllUnlagged(s))
  }

  lemma CleanRunIsGood(cfg: Config, run: seq<State>, i: nat)
    requires IsCleanRun(cfg, run) && i < |run|
    ensures Good(cfg, run[i])
  {
    CleanRunFacts(cfg, run, i);
    CleanRunIsLossless(cfg, run, i);
  }

  // ---------------------------------------------------------------- somebody can go on

  // A step of one rank that can be taken and records no error.
  datatype Offer = Offer(r: nat, rk': Rank, input: Option<Msg>, output: Option<Msg>)

  ghost predicate Possible(cfg: Config, s: State, o: Offer) {
    && o.r < |s.ranks|
    && (o.input.Some? ==> o.input.value in s.net && o.input.value.dst == o.r)
    && var rk := s.ranks[o.r];
       && (|| (o.input == None == o.output && Enters(cfg, o.r, rk, o.rk'))
           || (InProgram(cfg, rk) && Works(cfg, o.r, rk, o.rk', o.input, o.output)))
       && (forall c :: 0 <= c < |o.rk'.outs| ==> o.rk'.outs[c].Ok?)
  }

  // Nobody is at an earlier call than this one.
  predicate Last(s: State, r: nat) {
    r < |s.ranks| && forall q :: 0 <= q < |s.ranks| ==> s.ranks[r].pos <= s.ranks[q].pos
  }

  // The message that rank r, at call c, waits for.
  lemma Receivable(cfg: Config, s: State, b: Base, c: nat, src: nat, r: nat) returns (m: Msg)
    requires Good(cfg, s) && Fits(cfg, b, c, src, r) && s.ranks[r].pos == c + 1
    requires Sent(s.ranks[src], b, c, r) && !Done(s.ranks[r], b, c, src)
    ensures m in s.net && m.src == src && m.dst == r && m.tag == CollTag(b, s.ranks[r].seqno)
    ensures if cfg.prog[c].DoBarrier? then |m.data| == 1 else |m.data| == cfg.prog[c].count
  {
    assert UnderWay(cfg, s, b, c, src, r);
    assert RankOk(cfg, src, s.ranks[src]) && Unlagged(s.ranks[src]) && Unlagged(s.ranks[r]);
    m := Message(b, c, src, r, s.ranks[src]);
  }

  // A rank that has come to call c and has not sent its message is inside that call.
  lemma NotSentYet(cfg: Config, s: State, q: nat, b: Base, c: nat, dst: nat)
    requires Good(cfg, s) && Fits(cfg, b, c, q, dst) && s.ranks[q].pos > c && !Sent(s.ranks[q], b, c, dst)
    ensures s.ranks[q].pos == c + 1 && !s.ranks[q].phase.Outside? && |s.ranks[q].outs| == c
    ensures PhaseOk(cfg, q, s.ranks[q]) && InProgram(cfg, s.ranks[q])
  {
    assert RankOk(cfg, q, s.ranks[q]);
  }

  lemma SomebodyUnheard(n: nat, r: nat, got: seq<nat>) returns (q: nat)
    requires r < n && Senders(n, r, got) && |got| < n - 1
    ensures q < n && q != r && q !in got
  {
    var others := Below(n) - {r};
    Pigeonhole(got, others);
    q :| q in others && q !in got;
  }

  predicate Inside(cfg: Config, s: State, r: nat) {
    r < |s.ranks| == cfg.n && !s.ranks[r].phase.Outside?
  }

  lemma InsideFacts(cfg: Config, s: State, r: nat)
    requires Good(cfg, s) && Inside(cfg, s, r)
    ensures RankOk(cfg, r, s.ranks[r]) && InProgram(cfg, s.ranks[r]) && PhaseOk(cfg, r, s.ranks[r])
    ensures |s.ranks[r].outs| == s.ranks[r].pos - 1 && forall c :: 0 <= c < |s.ranks[r].outs| ==> s.ranks[r].outs[c].Ok?
    ensures !cfg.prog[s.ranks[r].pos - 1].DoBarrier? ==>
              |s.ranks[r].ins[s.ranks[r].pos - 1]| == cfg.prog[s.ranks[r].pos - 1].count
  {
    assert RankOk(cfg, r, s.ranks[r]);
  }

  // Steps that wait for nobody.
  predicate Sending(ph: Phase) {
    ph.Release? || ph.SendIn? || ph.BcastSend? || ph.ReduceSend?
  }

  // What they do to the rank, and what they send.
  function Sends(cfg: Config, r: nat, rk: Rank): (Rank, Option<Msg>)
    requires InProgram(cfg, rk) && Sending(rk.phase) && (rk.phase.ReduceSend? ==> cfg.prog[rk.pos - 1].DoReduce?)
  {
    var coll, buf := cfg.prog[rk.pos - 1], rk.ins[rk.pos - 1];
    match rk.phase
    case Release(next) =>
      if next < cfg.n then (rk.(phase := Release(next + 1)), Some(CollMsg(r, next, BarrierOut, rk, TOKEN)))
      else (Completed(rk, buf, []), None)
    case SendIn => (rk.(phase := AwaitOut), Some(CollMsg(r, 0, BarrierIn, rk, TOKEN)))
    case BcastSend(next) =>
      if next >= cfg.n then (Completed(rk, buf, []), None)
      else (rk.(phase := BcastSend(next + 1)), if next == r then None else Some(CollMsg(r, next, Bcast, rk, buf)))
    case ReduceSend => (Completed(rk, buf, []), Some(CollMsg(r, coll.root, Reduce, rk, buf)))
  }

  lemma SendsWorks(cfg: Config, r: nat, rk: Rank)
    requires RankOk(cfg, r, rk) && InProgram(cfg, rk) && Sending(rk.phase)
    ensures rk.phase.ReduceSend? ==> cfg.prog[rk.pos - 1].DoReduce?
    ensures var (rk', output) := Sends(cfg, r, rk);
            Works(cfg, r, rk, rk', None, output) && rk.outs <= rk'.outs <= rk.outs + [Ok(rk.ins[rk.pos - 1])]
  {
  }

  lemma SenderGoesOn(cfg: Config, s: State, r: nat) returns (o: Offer)
    requires Good(cfg, s) && Inside(cfg, s, r) && Sending(s.ranks[r].phase)
    ensures o.r == r && Possible(cfg, s, o)
  {
    InsideFacts(cfg, s, r);
    SendsWorks(cfg, r, s.ranks[r]);
    var (rk', output) := Sends(cfg, r, s.ranks[r]);
    o := Offer(r, rk', None, output);
  }

  lemma GatherGoesOn(cfg: Config, s: State, r: nat) returns (o: Offer)
    requires Good(cfg, s) && Inside(cfg, s, r) && Last(s, r) && s.ranks[r].phase.Gather?
    ensures Possible(cfg, s, o) && Last(s, o.r)
  {
    InsideFacts(cfg, s, r);
    var rk := s.ranks[r];
    var c, got := rk.pos - 1, rk.phase.got;
    AllHeard(cfg.n, r, got);
    if |got| < cfg.n - 1 {
      var q := SomebodyUnheard(cfg.n, r, got);
      assert Fits(cfg, BarrierIn, c, q, r);
      if Sent(s.ranks[q], BarrierIn, c, r) {
        var m := Receivable(cfg, s, BarrierIn, c, q, r);
        o := Offer(r, rk.(phase := Gather(got + [q])), Some(m), None);
      } else {
        NotSentYet(cfg, s, q, BarrierIn, c, r);
        o := SenderGoesOn(cfg, s, q);
      }
    } else {
      o := Offer(r, rk.(phase := Release(1)), None, None);
    }
  }

  lemma FoldGoesOn(cfg: Config, s: State, r: nat) returns (o: Offer)
    requires Good(cfg, s) && Inside(cfg, s, r) && Last(s, r) && s.ranks[r].phase.Folding?
    ensures Possible(cfg, s, o) && Last(s, o.r)
  {
    InsideFacts(cfg, s, r);
    var rk := s.ranks[r];
    var c, got, acc := rk.pos - 1, rk.phase.got, rk.phase.acc;
    AllHeard(cfg.n, r, got);
    if |got| < cfg.n - 1 {
      var q := SomebodyUnheard(cfg.n, r, got);
      assert Fits(cfg, Reduce, c, q, r);
      if Sent(s.ranks[q], Reduce, c, r) {
        var m := Receivable(cfg, s, Reduce, c, q, r);
        var acc' := R.CombineAll(cfg.prog[c].op, cfg.prog[c].ty, acc, m.data);
        o := Offer(r, rk.(phase := Folding(got + [q], acc')), Some(m), None);
      } else {
        NotSentYet(cfg, s, q, Reduce, c, r);
        o := SenderGoesOn(cfg, s, q);
      }
    } else {
      o := Offer(r, Completed(rk, acc, got), None, None);
    }
  }

  lemma AwaitGoesOn(cfg: Config, s: State, r: nat) returns (o: Offer)
    requires Good(cfg, s) && Inside(cfg, s, r) && Last(s, r) && s.ranks[r].phase.AwaitOut?
    ensures Possible(cfg, s, o) && Last(s, o.r)
  {
    InsideFacts(cfg, s, r);
    var rk := s.ranks[r];
    var c := rk.pos - 1;
    assert Fits(cfg, BarrierOut, c, 0, r);
    if Sent(s.ranks[0], BarrierOut, c, r) {
      var m := Receivable(cfg, s, BarrierOut, c, 0, r);
      o := Offer(r, Completed(rk, rk.ins[c], []), Some(m), None);
    } else {
      NotSentYet(cfg, s, 0, BarrierOut, c, r);
      if s.ranks[0].phase.Gather? {
        o := GatherGoesOn(cfg, s, 0);
      } else {
        o := SenderGoesOn(cfg, s, 0);
      }
    }
  }

  lemma BcastGoesOn(cfg: Config, s: State, r: nat) returns (o: Offer)
    requires Good(cfg, s) && Inside(cfg, s, r) && Last(s, r) && s.ranks[r].phase.BcastRecv?
    ensures Possible(cfg, s, o) && Last(s, o.r)
  {
    InsideFacts(cfg, s, r);
    var rk := s.ranks[r];
    var c := rk.pos - 1;
    var root := cfg.prog[c].root;
    assert Fits(cfg, Bcast, c, root, r);
    if Sent(s.ranks[root], Bcast, c, r) {
      var m := Receivable(cfg, s, Bcast, c, root, r);
      o := Offer(r, Completed(rk, m.data + rk.ins[c][|m.data|..], []), Some(m), None);
    } else {
      NotSentYet(cfg, s, root, Bcast, c, r);
      o := SenderGoesOn(cfg, s, root);
    }
  }

  lemma InsideGoesOn(cfg: Config, s: State, r: nat) returns (o: Offer)
    requires Good(cfg, s) && Inside(cfg, s, r) && Last(s, r)
    ensures Possible(cfg, s, o) && Last(s, o.r)
  {
    match s.ranks[r].phase
    case Gather(_) => o := GatherGoesOn(cfg, s, r);
    case AwaitOut => o := AwaitGoesOn(cfg, s, r);
    case BcastRecv => o := BcastGoesOn(cfg, s, r);
    case Folding(_, _) => o := FoldGoesOn(cfg, s, r);
    case _ => o := SenderGoesOn(cfg, s, r);
  }

  // The root's reduction left a buffer of the length its broadcast needs.
  lemma FedBuffer(cfg: Config, s: State, r: nat)
    requires Good(cfg, s) && r < cfg.n && s.ranks[r].phase.Outside? && s.ranks[r].pos < |cfg.prog|
    requires var coll := cfg.prog[s.ranks[r].pos]; coll.DoBcast? && coll.fed
    ensures MayEnter(cfg, s.ranks[r])
    ensures r == cfg.prog[s.ranks[r].pos].root ==>
              |s.ranks[r].outs[|s.ranks[r].outs| - 1].buf| == cfg.prog[s.ranks[r].pos].count
  {
    var rk := s.ranks[r];
    assert RankOk(cfg, r, rk) && RankValuesOk(cfg, s, r);
    assert IsAllreduce(cfg, rk.pos - 1);
    assert rk.outs[rk.pos - 1].Ok?;
    assert OutcomeOk(cfg, s, r, rk.pos - 1);
  }

  lemma ChooseBuffer(cfg: Config, s: State, r: nat) returns (buf: seq<int>)
    requires Good(cfg, s) && r < cfg.n && s.ranks[r].phase.Outside? && s.ranks[r].pos < |cfg.prog|
    ensures MayEnter(cfg, s.ranks[r]) && FitsBuffer(cfg, r, s.ranks[r], buf)
  {
    var rk := s.ranks[r];
    match cfg.prog[rk.pos]
    case DoBarrier => buf := [];
    case DoBcast(root, count, fed) =>
      if fed {
        FedBuffer(cfg, s, r);
      }
      buf := if fed && r == root then rk.outs[|rk.outs| - 1].buf else seq(count, _ => 0);
    case DoReduce(_, _, _, count) => buf := seq(count, _ => 0);
  }

  lemma EnteringIsPossible(cfg: Config, s: State, r: nat, buf: seq<int>)
    requires r < |s.ranks| && s.ranks[r].phase.Outside? && s.ranks[r].pos < |cfg.prog|
    requires MayEnter(cfg, s.ranks[r]) && FitsBuffer(cfg, r, s.ranks[r], buf) && AllOk(s)
    ensures Possible(cfg, s, Offer(r, Entered(cfg, r, s.ranks[r], buf), None, None))
  {
    assert Enters(cfg, r, s.ranks[r], Entered(cfg, r, s.ranks[r], buf));
  }

  lemma OutsideGoesOn(cfg: Config, s: State, r: nat) returns (o: Offer)
    requires Good(cfg, s) && r < cfg.n && s.ranks[r].phase.Outside? && s.ranks[r].pos < |cfg.prog|
    ensures o.r == r && Possible(cfg, s, o)
  {
    var buf := ChooseBuffer(cfg, s, r);
    EnteringIsPossible(cfg, s, r, buf);
    o := Offer(r, Entered(cfg, r, s.ranks[r], buf), None, None);
  }

  predicate Finished(cfg: Config, rk: Rank) {
    rk.phase.Outside? && rk.pos == |cfg.prog|
  }

  predicate AllFinished(cfg: Config, s: State) {
    forall r :: 0 <= r < |s.ranks| ==> Finished(cfg, s.ranks[r])
  }

  lemma {:induction false} LastAmong(s: State, n: nat) returns (r: nat)
    requires 0 < n <= |s.ranks|
    ensures r < n && forall q :: 0 <= q < n ==> s.ranks[r].pos <= s.ranks[q].pos
  {
    if n == 1 {
      r := 0;
    } else {
      r := LastAmong(s, n - 1);
      if s.ranks[n - 1].pos < s.ranks[r].pos {
        r := n - 1;
      }
    }
  }

  /** Deadlock freedom: in every state of a clean run some rank can take a step without an error, until
      every rank has finished its program; a rank that is at no later call than any other, in fact. */
  lemma SomebodyGoesOn(cfg: Config, s: State) returns (o: Offer)
    requires Good(cfg, s) && !AllFinished(cfg, s)
    ensures Possible(cfg, s, o) && Last(s, o.r)
  {
    var r := LastAmong(s, cfg.n);
    assert RankOk(cfg, r, s.ranks[r]);
    if !s.ranks[r].phase.Outside? {
      o := InsideGoesOn(cfg, s, r);
    } else if s.ranks[r].pos < |cfg.prog| {
      o := OutsideGoesOn(cfg, s, r);
    } else {
      var q :| 0 <= q < |s.ranks| && !Finished(cfg, s.ranks[q]);
      assert RankOk(cfg, q, s.ranks[q]);
      o := InsideGoesOn(cfg, s, q);
    }
  }

  // ---------------------------------------------------------------- and everybody gets done

  // How far a rank is inside its call, less than twice the number of ranks and four.
  function Within(phase: Phase, n: nat): nat {
    match phase
    case Outside => 0
    case Gather(got) => 1 + |got|
    case Release(next) => n + 1 + next
    case SendIn => 1
    case AwaitOut => 2
    case BcastSend(next) => 1 + next
    case BcastRecv => 1
    case Folding(got, _) => 1 + |got|
    case ReduceSend => 1
  }

  function Left(cfg: Config, rk: Rank): int {
    Units(|cfg.prog| - |rk.outs|, cfg.n) - Within(rk.phase, cfg.n)
  }

  // Room for that many calls.
  function Units(calls: int, n: nat): int {
    calls * (2 * n + 4)
  }

  lemma OneUnit(calls: int, n: nat)
    ensures Units(calls - 1, n) == Units(calls, n) - (2 * n + 4)
    ensures calls >= 0 ==> Units(calls, n) >= 0
    ensures calls > 0 ==> Units(calls, n) >= 2 * n + 4
  {
    assert (calls - 1) * (2 * n + 4) == calls * (2 * n + 4) - (2 * n + 4);
  }

  lemma WithinBounds(cfg: Config, r: nat, rk: Rank)
    requires RankOk(cfg, r, rk)
    ensures Within(rk.phase, cfg.n) < 2 * cfg.n + 4
  {
    match rk.phase {
      case Gather(got) => AllHeard(cfg.n, r, got);
      case Folding(got, _) => AllHeard(cfg.n, r, got);
      case _ =>
    }
  }

  lemma LeftIsNatural(cfg: Config, r: nat, rk: Rank)
    requires RankOk(cfg, r, rk)
    ensures Left(cfg, rk) >= 0
  {
    WithinBounds(cfg, r, rk);
    OneUnit(|cfg.prog| - |rk.outs|, cfg.n);
  }

  // A step brings the rank further in its call, or to the end of it.
  lemma StepGoesFurther(cfg: Config, r: nat, rk: Rank, rk': Rank, input: Option<Msg>, output: Option<Msg>)
    requires RankOk(cfg, r, rk)
    requires Enters(cfg, r, rk, rk') || (InProgram(cfg, rk) && Works(cfg, r, rk, rk', input, output))
    ensures || (|rk'.outs| == |rk.outs| && Within(rk'.phase, cfg.n) > Within(rk.phase, cfg.n))
            || |rk'.outs| == |rk.outs| + 1
  {
    match rk.phase {
      case Gather(got) => AllHeard(cfg.n, r, got);
      case _ =>
    }
  }

  lemma StepGetsOn(cfg: Config, r: nat, rk: Rank, rk': Rank, input: Option<Msg>, output: Option<Msg>)
    requires RankOk(cfg, r, rk)
    requires Enters(cfg, r, rk, rk') || (InProgram(cfg, rk) && Works(cfg, r, rk, rk', input, output))
    ensures Left(cfg, rk') < Left(cfg, rk)
  {
    StepGoesFurther(cfg, r, rk, rk', input, output);
    WithinBounds(cfg, r, rk);
    OneUnit(|cfg.prog| - |rk.outs|, cfg.n);
  }

  function TotalLeft(cfg: Config, ranks: seq<Rank>): int {
    if ranks == [] then 0 else TotalLeft(cfg, ranks[..|ranks| - 1]) + Left(cfg, ranks[|ranks| - 1])
  }

  lemma {:induction false} TotalLeftUpdate(cfg: Config, ranks: seq<Rank>, r: nat, rk: Rank)
    requires r < |ranks|
    ensures TotalLeft(cfg, ranks[r := rk]) == TotalLeft(cfg, ranks) - Left(cfg, ranks[r]) + Left(cfg, rk)
  {
    var k := |ranks| - 1;
    if r == k {
      assert ranks[r := rk][..k] == ranks[..k];
    } else {
      assert ranks[r := rk][..k] == ranks[..k][r := rk];
      TotalLeftUpdate(cfg, ranks[..k], r, rk);
    }
  }

  lemma {:induction false} TotalLeftIsNatural(cfg: Config, ranks: seq<Rank>)
    requires forall r :: 0 <= r < |ranks| ==> Left(cfg, ranks[r]) >= 0
    ensures TotalLeft(cfg, ranks) >= 0
  {
    if ranks != [] {
      TotalLeftIsNatural(cfg, ranks[..|ranks| - 1]);
    }
  }

  // The state after an offered step.
  function After(s: State, o: Offer): State
    requires o.r < |s.ranks|
  {
    State(s.net - Bag(o.input) + Bag(o.output), s.ranks[o.r := o.rk'])
  }

  lemma WorkStaysInCall(cfg: Config, r: nat, rk: Rank, rk': Rank, input: Option<Msg>, output: Option<Msg>)
    requires InProgram(cfg, rk) && Works(cfg, r, rk, rk', input, output)
    ensures rk'.pos == rk.pos
  {
  }

  lemma OfferIsStep(cfg: Config, s: State, o: Offer)
    requires Possible(cfg, s, o)
    ensures RankStep(cfg, o.r, s.ranks[o.r], o.rk', o.input, o.output)
    ensures s.ranks[o.r].pos <= o.rk'.pos <= s.ranks[o.r].pos + 1
  {
    var rk := s.ranks[o.r];
    if InProgram(cfg, rk) && Works(cfg, o.r, rk, o.rk', o.input, o.output) {
      WorkStaysInCall(cfg, o.r, rk, o.rk', o.input, o.output);
    }
  }

  lemma StepIsMove(cfg: Config, s: State, o: Offer)
    requires o.r < |s.ranks| && (o.input.Some? ==> o.input.value in s.net && o.input.value.dst == o.r)
    requires RankStep(cfg, o.r, s.ranks[o.r], o.rk', o.input, o.output)
    ensures SomeMove(cfg, s, After(s, o))
  {
    assert Moves(cfg, s, After(s, o), o.r, o.input, o.output);
  }

  lemma OfferStaysOk(cfg: Config, s: State, o: Offer)
    requires AllOk(s) && Possible(cfg, s, o)
    ensures AllOk(After(s, o))
  {
  }

  lemma OfferStaysInWindow(s: State, s': State, r: nat)
    requires InWindow(s) && Last(s, r) && |s'.ranks| == |s.ranks| && s'.ranks == s.ranks[r := s'.ranks[r]]
    requires s.ranks[r].pos <= s'.ranks[r].pos <= s.ranks[r].pos + 1
    ensures InWindow(s')
  {
  }

  lemma OfferMoves(cfg: Config, s: State, o: Offer)
    requires AllOk(s) && InWindow(s) && Possible(cfg, s, o) && Last(s, o.r)
    ensures SomeMove(cfg, s, After(s, o)) && AllOk(After(s, o)) && InWindow(After(s, o))
  {
    OfferIsStep(cfg, s, o);
    StepIsMove(cfg, s, o);
    OfferStaysOk(cfg, s, o);
    OfferStaysInWindow(s, After(s, o), o.r);
  }

  lemma OfferGetsOn(cfg: Config, s: State, o: Offer)
    requires RanksOk(cfg, s) && Possible(cfg, s, o)
    ensures TotalLeft(cfg, After(s, o).ranks) < TotalLeft(cfg, s.ranks)
  {
    assert RankOk(cfg, o.r, s.ranks[o.r]);
    StepGetsOn(cfg, o.r, s.ranks[o.r], o.rk', o.input, o.output);
    TotalLeftUpdate(cfg, s.ranks, o.r, o.rk');
  }

  lemma CleanRunExtends(cfg: Config, run: seq<State>, o: Offer) returns (run': seq<State>)
    requires IsCleanRun(cfg, run) && Possible(cfg, run[|run| - 1], o) && Last(run[|run| - 1], o.r)
    ensures IsCleanRun(cfg, run') && run' == run + [After(run[|run| - 1], o)]
    ensures TotalLeft(cfg, run'[|run'| - 1].ranks) < TotalLeft(cfg, run[|run| - 1].ranks)
  {
    var s := run[|run| - 1];
    CleanRunFacts(cfg, run, |run| - 1);
    OfferMoves(cfg, s, o);
    OfferGetsOn(cfg, s, o);
    run' := run + [After(s, o)];
    forall i | 0 <= i < |run'| - 1
      ensures MoveAt(cfg, run', i)
    {
      assert i < |run| - 1 ==> MoveAt(cfg, run, i);
    }
  }

  lemma LastIsNatural(cfg: Config, run: seq<State>)
    requires IsCleanRun(cfg, run)
    ensures TotalLeft(cfg, run[|run| - 1].ranks) >= 0
  {
    var s := run[|run| - 1];
    CleanRunIsGood(cfg, run, |run| - 1);
    forall r | 0 <= r < |s.ranks|
      ensures Left(cfg, s.ranks[r]) >= 0
    {
      assert RankOk(cfg, r, s.ranks[r]);
      LeftIsNatural(cfg, r, s.ranks[r]);
    }
    TotalLeftIsNatural(cfg, s.ranks);
  }

  lemma OneStepMore(cfg: Config, run: seq<State>) returns (longer: seq<State>)
    requires IsCleanRun(cfg, run) && !AllFinished(cfg, run[|run| - 1])
    ensures IsCleanRun(cfg, longer) && run <= longer
    ensures 0 <= TotalLeft(cfg, longer[|longer| - 1].ranks) < TotalLeft(cfg, run[|run| - 1].ranks)
  {
    CleanRunIsGood(cfg, run, |run| - 1);
    var o := SomebodyGoesOn(cfg, run[|run| - 1]);
    longer := CleanRunExtends(cfg, run, o);
    LastIsNatural(cfg, longer);
  }

  lemma {:induction false} CompletesWithin(cfg: Config, run: seq<State>, fuel: nat) returns (run': seq<State>)
    requires IsCleanRun(cfg, run) && TotalLeft(cfg, run[|run| - 1].ranks) <= fuel
    ensures IsCleanRun(cfg, run') && run <= run' && AllFinished(cfg, run'[|run'| - 1])
    decreases fuel
  {
    if AllFinished(cfg, run[|run| - 1]) {
      run' := run;
    } else {
      var longer := OneStepMore(cfg, run);
      run' := CompletesWithin(cfg, longer, fuel - 1);
    }
  }

  /** Every run without losses and failures, with counters less than 2^24 apart, can be continued until
      every rank has returned successfully from every call of the program; so no barrier, broadcast or
      reduction gets stuck. */
  lemma CleanRunsComplete(cfg: Config, run: seq<State>) returns (run': seq<State>)
    requires IsCleanRun(cfg, run)
    ensures IsCleanRun(cfg, run') && run <= run'
    ensures var last := run'[|run'| - 1];
            |last.ranks| == cfg.n && forall r :: 0 <= r < cfg.n ==>
              |last.ranks[r].outs| == |cfg.prog| && forall c :: 0 <= c < |cfg.prog| ==> last.ranks[r].outs[c].Ok?
  {
    LastIsNatural(cfg, run);
    run' := CompletesWithin(cfg, run, TotalLeft(cfg, run[|run| - 1].ranks));
    var last := run'[|run'| - 1];
    CleanRunIsGood(cfg, run', |run'| - 1);
    forall r | 0 <= r < cfg.n
      ensures |last.ranks[r].outs| == |cfg.prog|
    {
      assert RankOk(cfg, r, last.ranks[r]);
    }
  }

  /** In particular every program of collectives has such a run, for any number of ranks. */
  lemma EveryProgramCompletes(cfg: Config) returns (run: seq<State>)
    requires ValidConfig(cfg)
    ensures IsCleanRun(cfg, run)
    ensures var last := run[|run| - 1];
            |last.ranks| == cfg.n && forall r :: 0 <= r < cfg.n ==>
              |last.ranks[r].outs| == |cfg.prog| && forall c :: 0 <= c < |cfg.prog| ==> last.ranks[r].outs[c].Ok?
  {
    var start := State(multiset{}, seq(cfg.n, _ => Rank(0, 0, Outside, [], [], [], [])));
    run := CleanRunsComplete(cfg, [start]);
  }
}
