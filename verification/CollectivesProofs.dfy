/**
 What the collectives guarantee, over every run of the system of Collectives.

 The proof has two halves. One looks at a single rank's step: which messages it has sent and which
 it is through with. The other puts the ranks and the network together: a message in the network
 was sent once and is still wanted, so a receive takes exactly the message it is for.
 */
module CollectivesProofs {
  import opened MpiTags
  import opened Collectives
  import opened Options

  // ---------------------------------------------------------------- one rank

  predicate Appends(rk: Rank, rk': Rank) {
    && rk.pos <= rk'.pos
    && rk.ins <= rk'.ins && rk.lags <= rk'.lags && rk.outs <= rk'.outs && rk.from <= rk'.from
  }

  lemma WorksAppends(cfg: Config, r: nat, rk: Rank, rk': Rank, input: Option<Msg>, output: Option<Msg>)
    requires InProgram(cfg, rk) && Works(cfg, r, rk, rk', input, output)
    ensures Appends(rk, rk') && rk'.pos == rk.pos && rk'.ins == rk.ins && rk'.lags == rk.lags
  {
  }

  lemma StepAppends(cfg: Config, r: nat, rk: Rank, rk': Rank, input: Option<Msg>, output: Option<Msg>)
    requires RankStep(cfg, r, rk, rk', input, output)
    ensures Appends(rk, rk')
  {
    if InProgram(cfg, rk) && Works(cfg, r, rk, rk', input, output) {
      WorksAppends(cfg, r, rk, rk', input, output);
    }
  }

  // A step that completes a collective completes one, in its code.
  lemma StepCompletesOne(cfg: Config, r: nat, rk: Rank, rk': Rank, input: Option<Msg>, output: Option<Msg>)
    requires RankStep(cfg, r, rk, rk', input, output) && |rk'.outs| > |rk.outs|
    ensures |rk'.outs| == |rk.outs| + 1
    ensures rk'.outs[|rk.outs|].Ok? ==>
              Enters(cfg, r, rk, rk') || (InProgram(cfg, rk) && Works(cfg, r, rk, rk', input, output))
  {
  }

  // A failure leaves what was sent and received as it was.
  lemma FailingKeepsProgress(cfg: Config, r: nat, rk: Rank, c: nat)
    requires CountersOk(cfg, r, rk) && !rk.phase.Outside?
    ensures ProgressOf(Failing(rk), c) == ProgressOf(rk, c)
  {
  }

  // Where a rank can be for Works to apply.
  predicate InProgram(cfg: Config, rk: Rank) {
    0 < rk.pos <= |cfg.prog| && rk.pos <= |rk.ins|
  }

  lemma WorksKeepsCounters(cfg: Config, r: nat, rk: Rank, rk': Rank, input: Option<Msg>, output: Option<Msg>)
    requires CountersOk(cfg, r, rk) && InProgram(cfg, rk) && Works(cfg, r, rk, rk', input, output)
    ensures CountersOk(cfg, r, rk') && rk'.ins == rk.ins && rk'.pos == rk.pos
  {
  }

  lemma WorksKeepsPhase(cfg: Config, r: nat, rk: Rank, rk': Rank, input: Option<Msg>, output: Option<Msg>)
    requires r < cfg.n && CountersOk(cfg, r, rk) && InProgram(cfg, rk) && PhaseOk(cfg, r, rk)
    requires Works(cfg, r, rk, rk', input, output) && GoodInputs(cfg, r, rk, input)
    requires rk'.pos == rk.pos
    ensures PhaseOk(cfg, r, rk')
  {
    if input.Some? && input.value.origin.Foreign? && Wanted(rk.phase).Some? {
      CollTagReserved(Wanted(rk.phase).value, rk.seqno);
    }
  }

  lemma EntersKeepsRankOk(cfg: Config, r: nat, rk: Rank, rk': Rank)
    requires RankOk(cfg, r, rk) && Enters(cfg, r, rk, rk')
    ensures RankOk(cfg, r, rk')
  {
  }

  lemma StepKeepsRankOk(cfg: Config, r: nat, rk: Rank, rk': Rank, input: Option<Msg>, output: Option<Msg>)
    requires RankOk(cfg, r, rk) && RankStep(cfg, r, rk, rk', input, output) && GoodInputs(cfg, r, rk, input)
    ensures RankOk(cfg, r, rk')
  {
    if rk' != rk {
      if Enters(cfg, r, rk, rk') {
        EntersKeepsRankOk(cfg, r, rk, rk');
      } else if InProgram(cfg, rk) && Works(cfg, r, rk, rk', input, output) {
        WorksKeepsCounters(cfg, r, rk, rk', input, output);
        WorksKeepsPhase(cfg, r, rk, rk', input, output);
      }
    }
  }

  predicate HasMessage(rk: Rank, c: nat) {
    c < |rk.ins| && c < |rk.lags| && rk.lags[c] <= c + 1
  }

  // The message of collective c with this base to dst, as rank `src` in this state sends it.
  function Message(b: Base, c: nat, src: nat, dst: nat, rk: Rank): Msg
    requires HasMessage(rk, c)
  {
    var data := if b.BarrierIn? || b.BarrierOut? then TOKEN else rk.ins[c];
    Msg(src, dst, CollTag(b, c + 1 - rk.lags[c]), data, Collective(b, c, rk.lags[c]))
  }

  // The output of a step is a client's, or a message of the current collective not sent before.
  predicate GoodOutput(cfg: Config, r: nat, rk: Rank, rk': Rank, m: Msg) {
    && m.src == r
    && match m.origin
       case Foreign => IsForeignTag(m.tag)
       case Collective(b, c, _) =>
         && Fits(cfg, b, c, r, m.dst)
         && !Sent(rk, b, c, m.dst) && Sent(rk', b, c, m.dst)
         && HasMessage(rk', c) && m == Message(b, c, r, m.dst, rk')
  }

  lemma StepOutput(cfg: Config, r: nat, rk: Rank, rk': Rank, input: Option<Msg>, output: Option<Msg>)
    requires ValidConfig(cfg) && RankOk(cfg, r, rk) && RankStep(cfg, r, rk, rk', input, output) && output.Some?
    ensures GoodOutput(cfg, r, rk, rk', output.value)
  {
  }

  predicate IsOf(m: Msg, b: Base, c: nat) {
    m.origin.Collective? && m.origin.base == b && m.origin.index == c
  }

  lemma WorksSends(cfg: Config, r: nat, rk: Rank, rk': Rank, input: Option<Msg>, output: Option<Msg>,
      b: Base, c: nat, dst: nat)
    requires RankOk(cfg, r, rk) && InProgram(cfg, rk) && Works(cfg, r, rk, rk', input, output)
    requires Fits(cfg, b, c, r, dst)
    ensures Sent(rk, b, c, dst) ==> Sent(rk', b, c, dst)
    ensures Sent(rk', b, c, dst) && !Sent(rk, b, c, dst) ==>
              output.Some? && IsOf(output.value, b, c) && output.value.dst == dst
  {
    if rk' == Failing(rk) {
      FailingKeepsProgress(cfg, r, rk, c);
    } else if c != rk.pos - 1 {
      assert ProgressOf(rk', c) == ProgressOf(rk, c);
    }
  }

  lemma EntersSends(cfg: Config, r: nat, rk: Rank, rk': Rank, b: Base, c: nat, dst: nat)
    requires RankOk(cfg, r, rk) && Enters(cfg, r, rk, rk') && Fits(cfg, b, c, r, dst)
    ensures Sent(rk', b, c, dst) <==> Sent(rk, b, c, dst)
  {
    if c != rk.pos {
      assert ProgressOf(rk', c) == ProgressOf(rk, c);
    }
  }

  // Sent never becomes false, and becomes true only by sending.
  lemma StepSends(cfg: Config, r: nat, rk: Rank, rk': Rank, input: Option<Msg>, output: Option<Msg>,
      b: Base, c: nat, dst: nat)
    requires RankOk(cfg, r, rk) && RankStep(cfg, r, rk, rk', input, output)
    requires Fits(cfg, b, c, r, dst)
    ensures Sent(rk, b, c, dst) ==> Sent(rk', b, c, dst)
    ensures Sent(rk', b, c, dst) && !Sent(rk, b, c, dst) ==>
              output.Some? && IsOf(output.value, b, c) && output.value.dst == dst
  {
    if Enters(cfg, r, rk, rk') {
      EntersSends(cfg, r, rk, rk', b, c, dst);
    } else if Fails(rk, rk') {
      FailingKeepsProgress(cfg, r, rk, c);
    } else if Skips(cfg, rk, rk') {
      assert ProgressOf(rk', c) == ProgressOf(rk, c);
    } else if rk' != rk {
      WorksSends(cfg, r, rk, rk', input, output, b, c, dst);
    }
  }

  lemma WorksReceives(cfg: Config, r: nat, rk: Rank, rk': Rank, input: Option<Msg>, output: Option<Msg>,
      b: Base, c: nat, src: nat)
    requires RankOk(cfg, r, rk) && InProgram(cfg, rk) && Works(cfg, r, rk, rk', input, output)
    requires GoodInputs(cfg, r, rk, input)
    requires Fits(cfg, b, c, src, r) && Done(rk', b, c, src) && !Done(rk, b, c, src)
    ensures input.Some? && IsOf(input.value, b, c) && input.value.src == src
  {
    if rk' == Failing(rk) {
      FailingKeepsProgress(cfg, r, rk, c);
    } else {
      assert c == rk.pos - 1;
      match rk.phase
      case Gather(got) => AllHeard(cfg.n, r, got);
      case Folding(got, _) => AllHeard(cfg.n, r, got);
      case _ =>
    }
  }

  // Done becomes true only by receiving: the loop exits are reached with everyone heard.
  lemma StepReceives(cfg: Config, r: nat, rk: Rank, rk': Rank, input: Option<Msg>, output: Option<Msg>,
      b: Base, c: nat, src: nat)
    requires RankOk(cfg, r, rk) && RankStep(cfg, r, rk, rk', input, output) && GoodInputs(cfg, r, rk, input)
    requires Fits(cfg, b, c, src, r) && Done(rk', b, c, src) && !Done(rk, b, c, src)
    ensures input.Some? && IsOf(input.value, b, c) && input.value.src == src
  {
    if Fails(rk, rk') {
      FailingKeepsProgress(cfg, r, rk, c);
    } else if InProgram(cfg, rk) && Works(cfg, r, rk, rk', input, output) {
      WorksReceives(cfg, r, rk, rk', input, output, b, c, src);
    }
  }

  // ---------------------------------------------------------------- ranks and network

  // A message in the network: a client's, or one of a collective that its sender has sent, that
  // carries what the sender passed in, and that its receiver still wants.
  predicate MsgOk(cfg: Config, s: State, m: Msg) {
    match m.origin
    case Foreign => IsForeignTag(m.tag)
    case Collective(b, c, _) =>
      && Fits(cfg, b, c, m.src, m.dst) && |s.ranks| == cfg.n
      && Sent(s.ranks[m.src], b, c, m.dst) && HasMessage(s.ranks[m.src], c)
      && m == Message(b, c, m.src, m.dst, s.ranks[m.src])
      && !Done(s.ranks[m.dst], b, c, m.src)
      && s.net[m] == 1
  }

  predicate NetOk(cfg: Config, s: State) {
    forall m :: m in s.net ==> MsgOk(cfg, s, m)
  }

  predicate RanksOk(cfg: Config, s: State) {
    |s.ranks| == cfg.n && forall r :: 0 <= r < cfg.n ==> RankOk(cfg, r, s.ranks[r])
  }

  // Nothing is received that was not sent.
  ghost predicate Causal(cfg: Config, s: State)
    requires |s.ranks| == cfg.n
  {
    forall b, c: nat, src: nat, dst: nat | Fits(cfg, b, c, src, dst) && Done(s.ranks[dst], b, c, src) ::
      Sent(s.ranks[src], b, c, dst)
  }

  ghost predicate Inv(cfg: Config, s: State) {
    RanksOk(cfg, s) && NetOk(cfg, s) && Causal(cfg, s)
  }

  lemma SentMeansEntered(cfg: Config, r: nat, rk: Rank, b: Base, c: nat, dst: nat)
    requires RankOk(cfg, r, rk) && Sent(rk, b, c, dst)
    ensures c < rk.pos
  {
  }

  // Tags of the same base that agree, for calls x and y numbered with lags k and l.
  lemma SameResidue(x: nat, k: int, y: nat, l: int)
    requires (x + 1 - k) % SEQ_SPAN == (y + 1 - l) % SEQ_SPAN
    ensures x == y <==> x - SEQ_SPAN < y < x + SEQ_SPAN && (l - k) % SEQ_SPAN == 0
  {
    assert (y - x - (l - k)) % SEQ_SPAN == 0;
  }

  /** What a receive inside a collective can match is a collective's message, never a client's or a
      frame of the rendezvous; and it is the message the receive is for (of this collective, with the
      right base, from a rank that owes it, not received before) if and only if its collective is
      less than 2^24 away and its sender had left out as many calls as the receiver, modulo 2^24. */
  lemma TagPicksTheMessage(cfg: Config, s: State, r: nat, m: Msg)
    requires Inv(cfg, s) && r < cfg.n && m in s.net && m.dst == r
    requires ListensFor(s.ranks[r], m.tag)
    ensures m.origin.Collective?
    ensures GoodInput(cfg, r, s.ranks[r], m) <==>
            Near(s.ranks[r], m.origin.index) && SameNumbering(s.ranks[r], m.origin.lag)
  {
    var rk := s.ranks[r];
    var b := Wanted(rk.phase).value;
    assert MsgOk(cfg, s, m) && RankOk(cfg, r, rk);
    CollTagReserved(b, rk.seqno);
    match m.origin
    case Foreign =>
    case Collective(b', c, lag) =>
      CollTagInjective(b, rk.seqno, b', c + 1 - lag);
      SameResidue(rk.pos - 1, Lag(rk), c, lag);
  }

  lemma MovesInputIsGood(cfg: Config, s: State, s': State, r: nat, input: Option<Msg>, output: Option<Msg>)
    requires Inv(cfg, s) && NoFalseMatch(s) && Moves(cfg, s, s', r, input, output)
    ensures GoodInputs(cfg, r, s.ranks[r], input)
  {
    if input.Some? {
      var m := input.value;
      assert MsgOk(cfg, s, m) && RankOk(cfg, r, s.ranks[r]);
      if ListensFor(s.ranks[r], m.tag) {
        TagPicksTheMessage(cfg, s, r, m);
      } else if m.origin.Collective? {
        CollTagReserved(m.origin.base, m.origin.index + 1 - m.origin.lag);
      }
    }
  }

  lemma MovesKeepsRanks(cfg: Config, s: State, s': State, r: nat, input: Option<Msg>, output: Option<Msg>)
    requires Inv(cfg, s) && Moves(cfg, s, s', r, input, output) && GoodInputs(cfg, r, s.ranks[r], input)
    ensures RanksOk(cfg, s')
  {
    assert RankOk(cfg, r, s.ranks[r]);
    StepKeepsRankOk(cfg, r, s.ranks[r], s'.ranks[r], input, output);
  }

  lemma MovesKeepsSent(cfg: Config, s: State, s': State, r: nat, input: Option<Msg>, output: Option<Msg>,
      b: Base, c: nat, src: nat, dst: nat)
    requires Inv(cfg, s) && Moves(cfg, s, s', r, input, output)
    requires Fits(cfg, b, c, src, dst) && Sent(s.ranks[src], b, c, dst)
    ensures Sent(s'.ranks[src], b, c, dst)
  {
    if src == r {
      assert RankOk(cfg, r, s.ranks[r]);
      StepSends(cfg, r, s.ranks[r], s'.ranks[r], input, output, b, c, dst);
    }
  }

  lemma MovesKeepsCausal(cfg: Config, s: State, s': State, r: nat, input: Option<Msg>, output: Option<Msg>)
    requires Inv(cfg, s) && Moves(cfg, s, s', r, input, output) && GoodInputs(cfg, r, s.ranks[r], input)
    ensures Causal(cfg, s')
  {
    forall b, c: nat, src: nat, dst: nat | Fits(cfg, b, c, src, dst) && Done(s'.ranks[dst], b, c, src)
      ensures Sent(s'.ranks[src], b, c, dst)
    {
      if !Done(s.ranks[dst], b, c, src) {
        assert RankOk(cfg, r, s.ranks[r]);
        StepReceives(cfg, r, s.ranks[r], s'.ranks[r], input, output, b, c, src);
        assert MsgOk(cfg, s, input.value);
      }
      MovesKeepsSent(cfg, s, s', r, input, output, b, c, src, dst);
    }
  }

  lemma OldMessageStaysWanted(cfg: Config, s: State, s': State, r: nat, input: Option<Msg>, output: Option<Msg>, m: Msg)
    requires Inv(cfg, s) && Moves(cfg, s, s', r, input, output) && GoodInputs(cfg, r, s.ranks[r], input)
    requires m in s.net && m.origin.Collective? && input != Some(m)
    ensures m.dst < cfg.n && !Done(s'.ranks[m.dst], m.origin.base, m.origin.index, m.src)
  {
    assert MsgOk(cfg, s, m) && (input.Some? ==> MsgOk(cfg, s, input.value));
    var b, c := m.origin.base, m.origin.index;
    if m.dst == r && Done(s'.ranks[r], b, c, m.src) {
      assert RankOk(cfg, r, s.ranks[r]);
      StepReceives(cfg, r, s.ranks[r], s'.ranks[r], input, output, b, c, m.src);
    }
  }

  lemma OldMessageStaysAlone(cfg: Config, s: State, s': State, r: nat, input: Option<Msg>, output: Option<Msg>, m: Msg)
    requires ValidConfig(cfg) && Inv(cfg, s) && Moves(cfg, s, s', r, input, output)
    requires m in s.net && m in s'.net && m.origin.Collective?
    ensures input != Some(m) && s'.net[m] == 1
  {
    assert MsgOk(cfg, s, m) && RankOk(cfg, r, s.ranks[r]);
    if output == Some(m) {
      StepOutput(cfg, r, s.ranks[r], s'.ranks[r], input, output);
    }
  }

  // What a message needs, piece by piece.
  lemma MsgStaysOk(cfg: Config, s: State, s': State, m: Msg)
    requires MsgOk(cfg, s, m) && m.origin.Collective? && |s'.ranks| == cfg.n
    requires Appends(s.ranks[m.src], s'.ranks[m.src])
    requires Sent(s'.ranks[m.src], m.origin.base, m.origin.index, m.dst)
    requires !Done(s'.ranks[m.dst], m.origin.base, m.origin.index, m.src) && s'.net[m] == 1
    ensures MsgOk(cfg, s', m)
  {
  }

  // A message that was there before and is still there.
  lemma OldMessageStaysOk(cfg: Config, s: State, s': State, r: nat, input: Option<Msg>, output: Option<Msg>, m: Msg)
    requires ValidConfig(cfg) && Inv(cfg, s) && Moves(cfg, s, s', r, input, output)
    requires GoodInputs(cfg, r, s.ranks[r], input)
    requires m in s.net && m in s'.net
    ensures MsgOk(cfg, s', m)
  {
    assert MsgOk(cfg, s, m);
    if m.origin.Collective? {
      StepAppends(cfg, r, s.ranks[r], s'.ranks[r], input, output);
      MovesKeepsSent(cfg, s, s', r, input, output, m.origin.base, m.origin.index, m.src, m.dst);
      OldMessageStaysAlone(cfg, s, s', r, input, output, m);
      OldMessageStaysWanted(cfg, s, s', r, input, output, m);
      MsgStaysOk(cfg, s, s', m);
    }
  }

  lemma NewMessageIsOk(cfg: Config, s: State, s': State, r: nat, input: Option<Msg>, output: Option<Msg>)
    requires ValidConfig(cfg) && Inv(cfg, s) && Moves(cfg, s, s', r, input, output) && output.Some?
    requires output.value !in s.net
    ensures MsgOk(cfg, s', output.value)
  {
    assert RankOk(cfg, r, s.ranks[r]);
    StepOutput(cfg, r, s.ranks[r], s'.ranks[r], input, output);
  }

  lemma MovesKeepsNet(cfg: Config, s: State, s': State, r: nat, input: Option<Msg>, output: Option<Msg>)
    requires ValidConfig(cfg) && Inv(cfg, s) && Moves(cfg, s, s', r, input, output)
    requires GoodInputs(cfg, r, s.ranks[r], input)
    ensures NetOk(cfg, s')
  {
    forall m | m in s'.net
      ensures MsgOk(cfg, s', m)
    {
      if m in s.net {
        OldMessageStaysOk(cfg, s, s', r, input, output, m);
      } else {
        assert output == Some(m);
        NewMessageIsOk(cfg, s, s', r, input, output);
      }
    }
  }

  lemma LosesKeepsInv(cfg: Config, s: State, s': State, m: Msg)
    requires Inv(cfg, s) && Loses(s, s', m)
    ensures Inv(cfg, s')
  {
    forall x | x in s'.net
      ensures MsgOk(cfg, s', x)
    {
      assert MsgOk(cfg, s, x);
    }
  }

  lemma NextKeepsInv(cfg: Config, s: State, s': State)
    requires ValidConfig(cfg) && Inv(cfg, s) && NoFalseMatch(s) && Next(cfg, s, s')
    ensures Inv(cfg, s')
  {
    if m :| Loses(s, s', m) {
      LosesKeepsInv(cfg, s, s', m);
    } else {
      var r, input, output :| Moves(cfg, s, s', r, input, output);
      MovesInputIsGood(cfg, s, s', r, input, output);
      MovesKeepsRanks(cfg, s, s', r, input, output);
      MovesKeepsCausal(cfg, s, s', r, input, output);
      MovesKeepsNet(cfg, s, s', r, input, output);
    }
  }

  lemma {:induction false} RunKeepsInv(cfg: Config, run: seq<State>, i: nat)
    requires IsRun(cfg, run) && i < |run|
    ensures Inv(cfg, run[i])
  {
    if i > 0 {
      RunKeepsInv(cfg, run, i - 1);
      assert Next(cfg, run[i - 1], run[i - 1 + 1]);
      assert NoFalseMatch(run[i - 1]);
      NextKeepsInv(cfg, run[i - 1], run[i]);
    }
  }

  // ---------------------------------------------------------------- barriers

  /** Barrier safety: in every reachable state, if some rank has returned successfully from the
      barrier at position c of the program, every rank has entered it. */
  lemma BarrierSeparates(cfg: Config, run: seq<State>, i: nat, c: nat, r: nat, q: nat)
    requires IsRun(cfg, run) && i < |run| && r < cfg.n && q < cfg.n
    requires c < |cfg.prog| && cfg.prog[c].DoBarrier?
    requires |run[i].ranks| == cfg.n && c < |run[i].ranks[r].outs| && run[i].ranks[r].outs[c].Ok?
    ensures run[i].ranks[q].pos > c
  {
    RunKeepsInv(cfg, run, i);
    var s := run[i];
    assert RankOk(cfg, r, s.ranks[r]) && RankOk(cfg, q, s.ranks[q]) && RankOk(cfg, 0, s.ranks[0]);
    if r != 0 {
      // The release came from rank 0, which was through with everyone's arrival by then.
      assert Fits(cfg, BarrierOut, c, 0, r);
      assert Sent(s.ranks[0], BarrierOut, c, r);
    }
    if q != 0 {
      assert Fits(cfg, BarrierIn, c, q, 0);
      assert Done(s.ranks[0], BarrierIn, c, q);
      SentMeansEntered(cfg, q, s.ranks[q], BarrierIn, c, 0);
    }
  }
}
