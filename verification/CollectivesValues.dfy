/**
 What the collectives compute, over every run of the system of Collectives: a reduction takes one
 contribution from every rank, a broadcast delivers the root's buffer, and after an all-reduce every
 rank holds the fold of all inputs.
 */
module CollectivesValues {
  import opened Counting
  import opened MpiTags
  import opened Options
  import opened Collectives
  import opened CollectivesProofs
  import R = ReduceOps

  // Every rank in `got` has entered collective c, with a buffer of this length.
  predicate Contributed(s: State, c: nat, got: seq<nat>, length: nat) {
    forall i :: 0 <= i < |got| ==>
      got[i] < |s.ranks| && c < |s.ranks[got[i]].ins| && |s.ranks[got[i]].ins[c]| == length
  }

  function Contributions(s: State, c: nat, got: seq<nat>, length: nat): (xs: seq<seq<int>>)
    requires Contributed(s, c, got, length)
    ensures |xs| == |got| && forall i :: 0 <= i < |got| ==> xs[i] == s.ranks[got[i]].ins[c]
  {
    seq(|got|, i requires 0 <= i < |got| => s.ranks[got[i]].ins[c])
  }

  // The accumulator is the root's own buffer with the buffers of `got` folded in, in that order.
  predicate IsFoldOf(cfg: Config, s: State, r: nat, c: nat, got: seq<nat>, acc: seq<int>) {
    && c < |cfg.prog| && cfg.prog[c].DoReduce?
    && var coll := cfg.prog[c];
       && r < |s.ranks| && c < |s.ranks[r].ins| && |s.ranks[r].ins[c]| == coll.count
       && Contributed(s, c, got, coll.count)
       && acc == R.Fold(coll.op, coll.ty, s.ranks[r].ins[c], Contributions(s, c, got, coll.count))
  }

  predicate FoldingOk(cfg: Config, s: State, r: nat)
    requires r < |s.ranks|
  {
    var rk := s.ranks[r];
    rk.phase.Folding? && rk.pos > 0 ==> IsFoldOf(cfg, s, r, rk.pos - 1, rk.phase.got, rk.phase.acc)
  }

  // What rank r holds after collective c, if that succeeded.
  predicate OutcomeOk(cfg: Config, s: State, r: nat, c: nat)
    requires r < |s.ranks| && c < |s.ranks[r].outs| == |s.ranks[r].from| && c < |cfg.prog|
  {
    var rk := s.ranks[r];
    rk.outs[c].Ok? ==>
      match cfg.prog[c]
      case DoBarrier => true
      case DoBcast(root, _, _) => root < |s.ranks| && c < |s.ranks[root].ins| && rk.outs[c].buf == s.ranks[root].ins[c]
      case DoReduce(root, _, _, _) =>
        r == root ==>
          && Senders(cfg.n, r, rk.from[c]) && |rk.from[c]| == cfg.n - 1
          && IsFoldOf(cfg, s, r, c, rk.from[c], rk.outs[c].buf)
  }

  // The root of an all-reduce broadcasts what its reduction gave, or nothing.
  predicate FedAt(cfg: Config, rk: Rank, c: nat)
    requires 0 < c < |rk.ins| && c < |cfg.prog|
  {
    cfg.prog[c].DoBcast? && cfg.prog[c].fed ==>
      || (c < |rk.outs| && rk.outs[c].Skipped?)
      || (c - 1 < |rk.outs| && rk.outs[c - 1] == Ok(rk.ins[c]))
  }

  predicate FedOk(cfg: Config, rk: Rank) {
    forall c :: 0 < c < |rk.ins| && c < |cfg.prog| ==> FedAt(cfg, rk, c)
  }

  predicate RankValuesOk(cfg: Config, s: State, r: nat)
    requires RanksOk(cfg, s) && r < |s.ranks|
  {
    assert RankOk(cfg, r, s.ranks[r]);
    && FoldingOk(cfg, s, r)
    && (forall c :: 0 <= c < |s.ranks[r].outs| ==> OutcomeOk(cfg, s, r, c))
    && (r == 0 ==> FedOk(cfg, s.ranks[r]))
  }

  predicate ValuesOk(cfg: Config, s: State)
    requires RanksOk(cfg, s)
  {
    forall r :: 0 <= r < |s.ranks| ==> RankValuesOk(cfg, s, r)
  }

  // ---------------------------------------------------------------- values stay

  predicate Grows(s: State, s': State) {
    && |s'.ranks| == |s.ranks|
    && forall r :: 0 <= r < |s.ranks| ==> Appends(s.ranks[r], s'.ranks[r])
  }

  lemma FoldStays(cfg: Config, s: State, s': State, r: nat, c: nat, got: seq<nat>, acc: seq<int>)
    requires Grows(s, s') && IsFoldOf(cfg, s, r, c, got, acc)
    ensures IsFoldOf(cfg, s', r, c, got, acc)
  {
    var coll := cfg.prog[c];
    assert Appends(s.ranks[r], s'.ranks[r]);
    forall i | 0 <= i < |got|
      ensures got[i] < |s'.ranks| && c < |s'.ranks[got[i]].ins| && s'.ranks[got[i]].ins[c] == s.ranks[got[i]].ins[c]
    {
      assert Appends(s.ranks[got[i]], s'.ranks[got[i]]);
    }
    assert Contributions(s', c, got, coll.count) == Contributions(s, c, got, coll.count);
  }

  lemma OutcomeStays(cfg: Config, s: State, s': State, r: nat, c: nat)
    requires RanksOk(cfg, s) && RanksOk(cfg, s') && Grows(s, s')
    requires r < |s.ranks| && c < |s.ranks[r].outs| && c < |cfg.prog|
    requires |s.ranks[r].outs| == |s.ranks[r].from| && |s'.ranks[r].outs| == |s'.ranks[r].from|
    requires OutcomeOk(cfg, s, r, c)
    ensures c < |s'.ranks[r].outs| && OutcomeOk(cfg, s', r, c)
  {
    assert Appends(s.ranks[r], s'.ranks[r]);
    match cfg.prog[c]
    case DoBarrier =>
    case DoBcast(root, _, _) =>
      if s.ranks[r].outs[c].Ok? {
        assert Appends(s.ranks[root], s'.ranks[root]);
      }
    case DoReduce(root, _, _, _) =>
      if r == root && s.ranks[r].outs[c].Ok? {
        FoldStays(cfg, s, s', r, c, s.ranks[r].from[c], s.ranks[r].outs[c].buf);
      }
  }

  // ---------------------------------------------------------------- values arrive

  lemma MovesGrows(cfg: Config, s: State, s': State, r: nat, input: Option<Msg>, output: Option<Msg>)
    requires Moves(cfg, s, s', r, input, output)
    ensures Grows(s, s')
  {
    StepAppends(cfg, r, s.ranks[r], s'.ranks[r], input, output);
  }

  // What a received message of a collective carries.
  lemma InputCarries(cfg: Config, s: State, m: Msg)
    requires Inv(cfg, s) && m in s.net && m.origin.Collective?
    requires m.origin.index < |cfg.prog| && !cfg.prog[m.origin.index].DoBarrier?
    ensures m.src < |s.ranks| && m.origin.index < |s.ranks[m.src].ins|
    ensures m.data == s.ranks[m.src].ins[m.origin.index] && |m.data| == cfg.prog[m.origin.index].count
  {
    assert MsgOk(cfg, s, m);
    assert RankOk(cfg, m.src, s.ranks[m.src]);
  }

  lemma FoldTakesOneMore(cfg: Config, s: State, r: nat, c: nat, got: seq<nat>, acc: seq<int>, q: nat, data: seq<int>)
    requires IsFoldOf(cfg, s, r, c, got, acc)
    requires q < |s.ranks| && c < |s.ranks[q].ins| && data == s.ranks[q].ins[c] && |data| == |acc| == cfg.prog[c].count
    ensures IsFoldOf(cfg, s, r, c, got + [q], R.CombineAll(cfg.prog[c].op, cfg.prog[c].ty, acc, data))
  {
    var coll := cfg.prog[c];
    assert Contributed(s, c, got + [q], coll.count);
    var xs := Contributions(s, c, got + [q], coll.count);
    assert xs[..|xs| - 1] == Contributions(s, c, got, coll.count);
  }

  lemma FoldStarts(cfg: Config, s: State, r: nat, c: nat)
    requires c < |cfg.prog| && cfg.prog[c].DoReduce? && r < |s.ranks|
    requires c < |s.ranks[r].ins| && |s.ranks[r].ins[c]| == cfg.prog[c].count
    ensures IsFoldOf(cfg, s, r, c, [], s.ranks[r].ins[c])
  {
  }

  // The stepping rank, in a step of its current collective.
  predicate Working(cfg: Config, s: State, s': State, r: nat, input: Option<Msg>, output: Option<Msg>) {
    && RanksOk(cfg, s) && r < |s.ranks| == |s'.ranks|
    && (input.Some? ==> input.value in s.net)
    && InProgram(cfg, s.ranks[r]) && Works(cfg, r, s.ranks[r], s'.ranks[r], input, output)
    && GoodInputs(cfg, r, s.ranks[r], input)
  }

  // A receive inside a collective got a message of that collective.
  lemma WorkInput(cfg: Config, s: State, s': State, r: nat, input: Option<Msg>, output: Option<Msg>)
    requires Working(cfg, s, s', r, input, output) && input.Some?
    ensures Wanted(s.ranks[r].phase).Some?
    ensures IsOf(input.value, Wanted(s.ranks[r].phase).value, s.ranks[r].pos - 1)
  {
    var b := Wanted(s.ranks[r].phase);
    if b.Some? {
      CollTagReserved(b.value, s.ranks[r].seqno);
    }
  }

  lemma WorkKeepsFolding(cfg: Config, s: State, s': State, r: nat, input: Option<Msg>, output: Option<Msg>)
    requires Inv(cfg, s) && ValuesOk(cfg, s) && Grows(s, s') && Working(cfg, s, s', r, input, output)
    ensures FoldingOk(cfg, s', r)
  {
    var rk, rk' := s.ranks[r], s'.ranks[r];
    if rk'.phase.Folding? {
      assert RankOk(cfg, r, rk) && RankValuesOk(cfg, s, r);
      var c, got, acc := rk.pos - 1, rk.phase.got, rk.phase.acc;
      if rk'.phase != rk.phase {
        WorkInput(cfg, s, s', r, input, output);
        InputCarries(cfg, s, input.value);
        FoldTakesOneMore(cfg, s, r, c, got, acc, input.value.src, input.value.data);
      }
      FoldStays(cfg, s, s', r, c, rk'.phase.got, rk'.phase.acc);
    }
  }

  lemma FoldCompletes(cfg: Config, s: State, s': State, r: nat, input: Option<Msg>, output: Option<Msg>)
    requires RanksOk(cfg, s) && ValuesOk(cfg, s) && Grows(s, s') && Working(cfg, s, s', r, input, output)
    requires s.ranks[r].phase.Folding? && RankOk(cfg, r, s'.ranks[r]) && |s'.ranks[r].outs| == |s.ranks[r].outs| + 1
    requires s'.ranks[r].outs[|s.ranks[r].outs|].Ok?
    ensures OutcomeOk(cfg, s', r, |s.ranks[r].outs|)
  {
    var rk := s.ranks[r];
    assert RankOk(cfg, r, rk) && RankValuesOk(cfg, s, r);
    AllHeard(cfg.n, r, rk.phase.got);
    FoldStays(cfg, s, s', r, rk.pos - 1, rk.phase.got, rk.phase.acc);
  }

  lemma BcastCompletes(cfg: Config, s: State, s': State, r: nat, input: Option<Msg>, output: Option<Msg>)
    requires Inv(cfg, s) && Grows(s, s') && Working(cfg, s, s', r, input, output)
    requires s.ranks[r].phase.BcastRecv? && RankOk(cfg, r, s'.ranks[r]) && |s'.ranks[r].outs| == |s.ranks[r].outs| + 1
    requires s'.ranks[r].outs[|s.ranks[r].outs|].Ok?
    ensures OutcomeOk(cfg, s', r, |s.ranks[r].outs|)
  {
    assert RankOk(cfg, r, s.ranks[r]);
    WorkInput(cfg, s, s', r, input, output);
    InputCarries(cfg, s, input.value);
    assert MsgOk(cfg, s, input.value);
    assert s'.ranks[r].outs[s.ranks[r].pos - 1] == Ok(input.value.data);
    assert Appends(s.ranks[input.value.src], s'.ranks[input.value.src]);
  }

  lemma WorkCompletes(cfg: Config, s: State, s': State, r: nat, input: Option<Msg>, output: Option<Msg>)
    requires Inv(cfg, s) && ValuesOk(cfg, s) && Grows(s, s') && Working(cfg, s, s', r, input, output)
    requires RankOk(cfg, r, s'.ranks[r]) && |s'.ranks[r].outs| == |s.ranks[r].outs| + 1
    requires s'.ranks[r].outs[|s.ranks[r].outs|].Ok?
    ensures OutcomeOk(cfg, s', r, |s.ranks[r].outs|)
  {
    assert RankOk(cfg, r, s.ranks[r]);
    match s.ranks[r].phase
    case Folding(_, _) => FoldCompletes(cfg, s, s', r, input, output);
    case BcastRecv => BcastCompletes(cfg, s, s', r, input, output);
    case _ =>
  }

  lemma EnterValues(cfg: Config, s: State, s': State, r: nat)
    requires ValidConfig(cfg) && RanksOk(cfg, s) && r < |s.ranks| == |s'.ranks|
    requires Enters(cfg, r, s.ranks[r], s'.ranks[r])
    requires RankOk(cfg, r, s'.ranks[r])
    ensures FoldingOk(cfg, s', r)
    ensures |s'.ranks[r].outs| == |s.ranks[r].outs| + 1 ==> OutcomeOk(cfg, s', r, |s.ranks[r].outs|)
  {
    var rk, rk' := s.ranks[r], s'.ranks[r];
    assert RankOk(cfg, r, rk);
    var c := rk.pos;
    if rk'.phase.Folding? {
      FoldStarts(cfg, s', r, c);
    }
  }

  predicate ValuesOkBoth(cfg: Config, s: State, s': State) {
    RanksOk(cfg, s) && ValuesOk(cfg, s) && RanksOk(cfg, s') && Grows(s, s')
  }

  // A rank's step is a client's, a failure, an entry, or work in the collective it is in.
  lemma StepperFolding(cfg: Config, s: State, s': State, r: nat, input: Option<Msg>, output: Option<Msg>)
    requires ValidConfig(cfg) && Inv(cfg, s) && ValuesOkBoth(cfg, s, s')
    requires Moves(cfg, s, s', r, input, output) && GoodInputs(cfg, r, s.ranks[r], input)
    ensures FoldingOk(cfg, s', r)
  {
    var rk, rk' := s.ranks[r], s'.ranks[r];
    assert RankOk(cfg, r, rk) && RankOk(cfg, r, rk') && RankValuesOk(cfg, s, r);
    if Enters(cfg, r, rk, rk') {
      EnterValues(cfg, s, s', r);
    } else if InProgram(cfg, rk) && Works(cfg, r, rk, rk', input, output) {
      WorkKeepsFolding(cfg, s, s', r, input, output);
    } else if rk.phase.Folding? {
      FoldStays(cfg, s, s', r, rk.pos - 1, rk.phase.got, rk.phase.acc);
    }
  }

  lemma NewOutcome(cfg: Config, s: State, s': State, r: nat, input: Option<Msg>, output: Option<Msg>)
    requires ValidConfig(cfg) && Inv(cfg, s) && ValuesOkBoth(cfg, s, s') && r < |s.ranks|
    requires Enters(cfg, r, s.ranks[r], s'.ranks[r]) || Working(cfg, s, s', r, input, output)
    requires RankOk(cfg, r, s.ranks[r]) && RankOk(cfg, r, s'.ranks[r]) && |s'.ranks[r].outs| == |s.ranks[r].outs| + 1
    requires s'.ranks[r].outs[|s.ranks[r].outs|].Ok?
    ensures OutcomeOk(cfg, s', r, |s.ranks[r].outs|)
  {
    if Enters(cfg, r, s.ranks[r], s'.ranks[r]) {
      EnterValues(cfg, s, s', r);
    } else {
      WorkCompletes(cfg, s, s', r, input, output);
    }
  }

  lemma StepperNewOutcome(cfg: Config, s: State, s': State, r: nat, input: Option<Msg>, output: Option<Msg>)
    requires ValidConfig(cfg) && Inv(cfg, s) && ValuesOkBoth(cfg, s, s')
    requires Moves(cfg, s, s', r, input, output) && GoodInputs(cfg, r, s.ranks[r], input)
    requires |s'.ranks[r].outs| > |s.ranks[r].outs| && s'.ranks[r].outs[|s.ranks[r].outs|].Ok?
    requires |s'.ranks[r].outs| == |s'.ranks[r].from| && |s.ranks[r].outs| < |cfg.prog|
    ensures |s'.ranks[r].outs| == |s.ranks[r].outs| + 1 && OutcomeOk(cfg, s', r, |s.ranks[r].outs|)
  {
    assert RankOk(cfg, r, s.ranks[r]) && RankOk(cfg, r, s'.ranks[r]);
    StepCompletesOne(cfg, r, s.ranks[r], s'.ranks[r], input, output);
    NewOutcome(cfg, s, s', r, input, output);
  }

  lemma OutcomesGrowByOne(cfg: Config, s: State, s': State, r: nat, input: Option<Msg>, output: Option<Msg>)
    requires Moves(cfg, s, s', r, input, output)
    ensures |s.ranks[r].outs| <= |s'.ranks[r].outs| <= |s.ranks[r].outs| + 1
  {
    StepAppends(cfg, r, s.ranks[r], s'.ranks[r], input, output);
    if |s'.ranks[r].outs| > |s.ranks[r].outs| {
      StepCompletesOne(cfg, r, s.ranks[r], s'.ranks[r], input, output);
    }
  }

  // At most one outcome is new; the others stay.
  lemma OutcomesStay(cfg: Config, s: State, s': State, r: nat, c: nat)
    requires ValuesOkBoth(cfg, s, s') && r < |s.ranks|
    requires c < |s'.ranks[r].outs| == |s'.ranks[r].from| <= |s.ranks[r].outs| + 1 && c < |cfg.prog|
    requires c == |s.ranks[r].outs| ==> OutcomeOk(cfg, s', r, c)
    ensures OutcomeOk(cfg, s', r, c)
  {
    if c < |s.ranks[r].outs| {
      assert RankOk(cfg, r, s.ranks[r]) && RankValuesOk(cfg, s, r);
      OutcomeStays(cfg, s, s', r, c);
    }
  }

  lemma FedStays(cfg: Config, rk: Rank, rk': Rank)
    requires FedOk(cfg, rk) && Appends(rk, rk') && rk'.ins == rk.ins
    ensures FedOk(cfg, rk')
  {
    forall c | 0 < c < |rk'.ins| && c < |cfg.prog|
      ensures FedAt(cfg, rk', c)
    {
      assert FedAt(cfg, rk, c);
    }
  }

  lemma SkippedIsFed(cfg: Config, r: nat, rk: Rank, rk': Rank)
    requires FedOk(cfg, rk) && RankOk(cfg, r, rk) && Skips(cfg, rk, rk')
    ensures FedOk(cfg, rk')
  {
    forall c | 0 < c < |rk'.ins| && c < |cfg.prog|
      ensures FedAt(cfg, rk', c)
    {
      assert c < rk.pos ==> FedAt(cfg, rk, c);
    }
  }

  lemma EnteredIsFed(cfg: Config, r: nat, rk: Rank, rk': Rank)
    requires ValidConfig(cfg) && r == 0 && FedOk(cfg, rk) && RankOk(cfg, r, rk) && Enters(cfg, r, rk, rk')
    ensures FedOk(cfg, rk')
  {
    forall c | 0 < c < |rk'.ins| && c < |cfg.prog|
      ensures FedAt(cfg, rk', c)
    {
      assert c < rk.pos ==> FedAt(cfg, rk, c);
      assert c == rk.pos && cfg.prog[c].DoBcast? && cfg.prog[c].fed ==> IsAllreduce(cfg, c - 1);
    }
  }

  lemma StepperFed(cfg: Config, s: State, s': State, r: nat, input: Option<Msg>, output: Option<Msg>)
    requires ValidConfig(cfg) && ValuesOkBoth(cfg, s, s') && Moves(cfg, s, s', r, input, output) && r == 0
    ensures FedOk(cfg, s'.ranks[r])
  {
    var rk, rk' := s.ranks[r], s'.ranks[r];
    assert RankOk(cfg, r, rk) && RankOk(cfg, r, rk') && RankValuesOk(cfg, s, r);
    if Enters(cfg, r, rk, rk') {
      EnteredIsFed(cfg, r, rk, rk');
    } else if Skips(cfg, rk, rk') {
      SkippedIsFed(cfg, r, rk, rk');
    } else {
      StepAppends(cfg, r, rk, rk', input, output);
      FedStays(cfg, rk, rk');
    }
  }

  lemma StepperValues(cfg: Config, s: State, s': State, r: nat, input: Option<Msg>, output: Option<Msg>)
    requires ValidConfig(cfg) && Inv(cfg, s) && ValuesOkBoth(cfg, s, s')
    requires Moves(cfg, s, s', r, input, output) && GoodInputs(cfg, r, s.ranks[r], input)
    ensures RankValuesOk(cfg, s', r)
  {
    assert RankOk(cfg, r, s'.ranks[r]);
    StepperFolding(cfg, s, s', r, input, output);
    OutcomesGrowByOne(cfg, s, s', r, input, output);
    var k := |s.ranks[r].outs|;
    if k < |s'.ranks[r].outs| && s'.ranks[r].outs[k].Ok? {
      StepperNewOutcome(cfg, s, s', r, input, output);
    }
    forall c | 0 <= c < |s'.ranks[r].outs|
      ensures OutcomeOk(cfg, s', r, c)
    {
      OutcomesStay(cfg, s, s', r, c);
    }
    if r == 0 {
      StepperFed(cfg, s, s', r, input, output);
    }
  }

  lemma OtherValues(cfg: Config, s: State, s': State, q: nat)
    requires ValuesOkBoth(cfg, s, s') && q < |s.ranks| && s'.ranks[q] == s.ranks[q]
    ensures RankValuesOk(cfg, s', q)
  {
    var rk := s.ranks[q];
    assert RankOk(cfg, q, rk) && RankValuesOk(cfg, s, q);
    forall c | 0 <= c < |rk.outs|
      ensures OutcomeOk(cfg, s', q, c)
    {
      OutcomeStays(cfg, s, s', q, c);
    }
    if rk.phase.Folding? {
      FoldStays(cfg, s, s', q, rk.pos - 1, rk.phase.got, rk.phase.acc);
    }
  }

  lemma LosesKeepsValues(cfg: Config, s: State, s': State, m: Msg)
    requires RanksOk(cfg, s) && ValuesOk(cfg, s) && RanksOk(cfg, s') && Loses(s, s', m)
    ensures ValuesOk(cfg, s')
  {
    forall q | 0 <= q < |s'.ranks|
      ensures RankValuesOk(cfg, s', q)
    {
      OtherValues(cfg, s, s', q);
    }
  }

  lemma MovesKeepsValues(cfg: Config, s: State, s': State, r: nat, input: Option<Msg>, output: Option<Msg>)
    requires ValidConfig(cfg) && Inv(cfg, s) && ValuesOk(cfg, s) && RanksOk(cfg, s')
    requires Moves(cfg, s, s', r, input, output) && GoodInputs(cfg, r, s.ranks[r], input)
    ensures ValuesOk(cfg, s')
  {
    MovesGrows(cfg, s, s', r, input, output);
    forall q | 0 <= q < |s'.ranks|
      ensures RankValuesOk(cfg, s', q)
    {
      if q == r {
        StepperValues(cfg, s, s', r, input, output);
      } else {
        OtherValues(cfg, s, s', q);
      }
    }
  }

  lemma NextKeepsValues(cfg: Config, s: State, s': State)
    requires ValidConfig(cfg) && Inv(cfg, s) && ValuesOk(cfg, s) && Next(cfg, s, s')
    requires NoFalseMatch(s)
    ensures RanksOk(cfg, s') && ValuesOk(cfg, s')
  {
    NextKeepsInv(cfg, s, s');
    if m :| Loses(s, s', m) {
      LosesKeepsValues(cfg, s, s', m);
    } else {
      var r, input, output :| Moves(cfg, s, s', r, input, output);
      MovesInputIsGood(cfg, s, s', r, input, output);
      MovesKeepsValues(cfg, s, s', r, input, output);
    }
  }

  lemma {:induction false} RunKeepsValues(cfg: Config, run: seq<State>, i: nat)
    requires IsRun(cfg, run) && i < |run|
    ensures RanksOk(cfg, run[i]) && ValuesOk(cfg, run[i])
  {
    RunKeepsInv(cfg, run, i);
    if i > 0 {
      RunKeepsValues(cfg, run, i - 1);
      RunKeepsInv(cfg, run, i - 1);
      assert Next(cfg, run[i - 1], run[i - 1 + 1]);
      assert NoFalseMatch(run[i - 1]);
      NextKeepsValues(cfg, run[i - 1], run[i]);
    }
  }

  // ---------------------------------------------------------------- arrival order to rank order

  function Ids(n: nat): (ids: seq<nat>)
    ensures |ids| == n && forall i :: 0 <= i < n ==> ids[i] == i
  {
    seq(n, i requires 0 <= i < n => i)
  }

  function Pick(inputs: seq<seq<int>>, who: seq<nat>): (xs: seq<seq<int>>)
    requires forall i :: 0 <= i < |who| ==> who[i] < |inputs|
    ensures |xs| == |who| && forall i :: 0 <= i < |who| ==> xs[i] == inputs[who[i]]
  {
    seq(|who|, i requires 0 <= i < |who| => inputs[who[i]])
  }

  lemma {:induction false} DistinctCounts(a: seq<nat>, q: nat)
    requires Distinct(a)
    ensures multiset(a)[q] == if q in a then 1 else 0
  {
    if a != [] {
      var k := |a| - 1;
      assert a == a[..k] + [a[k]];
      DistinctCounts(a[..k], q);
    }
  }

  lemma SameElements(a: seq<nat>, b: seq<nat>)
    requires Distinct(a) && Distinct(b) && forall q: nat :: q in a <==> q in b
    ensures multiset(a) == multiset(b)
  {
    forall q: nat
      ensures multiset(a)[q] == multiset(b)[q]
    {
      DistinctCounts(a, q);
      DistinctCounts(b, q);
    }
  }

  lemma {:induction false} PickKeepsOrderless(inputs: seq<seq<int>>, a: seq<nat>, b: seq<nat>)
    requires multiset(a) == multiset(b)
    requires (forall i :: 0 <= i < |a| ==> a[i] < |inputs|) && forall i :: 0 <= i < |b| ==> b[i] < |inputs|
    ensures multiset(Pick(inputs, a)) == multiset(Pick(inputs, b))
    decreases |b|
  {
    assert |a| == |multiset(a)| == |multiset(b)| == |b|;
    if b != [] {
      var n := |b| - 1;
      var i := FindEqual(a, b, n);
      PickKeepsOrderless(inputs, Without(a, i), b[..n]);
      PickSplits(inputs, a, i);
      PickSplits(inputs, b, n);
      assert Without(b, n) == b[..n];
    }
  }

  lemma PickSplits(inputs: seq<seq<int>>, a: seq<nat>, i: nat)
    requires (forall k :: 0 <= k < |a| ==> a[k] < |inputs|) && i < |a|
    ensures multiset(Pick(inputs, a)) == multiset(Pick(inputs, Without(a, i))) + multiset{inputs[a[i]]}
  {
    WithoutTakesOne(Pick(inputs, a), i);
    assert Without(Pick(inputs, a), i) == Pick(inputs, Without(a, i));
  }

  // Everyone but the root, each once, is everyone's buffers but the root's, in some order.
  lemma OthersOnce(inputs: seq<seq<int>>, root: nat, got: seq<nat>)
    requires root < |inputs| && Senders(|inputs|, root, got)
    requires forall q: nat :: q < |inputs| && q != root ==> q in got
    ensures multiset(Pick(inputs, got)) == multiset(Without(inputs, root))
  {
    var others := Without(Ids(|inputs|), root);
    forall q: nat
      ensures q in got <==> q in others
    {
      if q in got {
        assert others[if q < root then q else q - 1] == q;
      }
    }
    SameElements(got, others);
    PickKeepsOrderless(inputs, got, others);
    assert Pick(inputs, others) == Without(inputs, root);
  }

  // ---------------------------------------------------------------- theorems over every run

  // Every rank has entered collective c, with a buffer of the right length.
  predicate AllEntered(cfg: Config, s: State, c: nat) {
    && |s.ranks| == cfg.n && c < |cfg.prog| && !cfg.prog[c].DoBarrier?
    && forall q :: 0 <= q < cfg.n ==> c < |s.ranks[q].ins| && |s.ranks[q].ins[c]| == cfg.prog[c].count
  }

  // What the ranks passed to collective c, in rank order.
  function Inputs(cfg: Config, s: State, c: nat): (xs: seq<seq<int>>)
    requires AllEntered(cfg, s, c)
    ensures |xs| == cfg.n && forall q :: 0 <= q < cfg.n ==> xs[q] == s.ranks[q].ins[c]
  {
    seq(cfg.n, q requires 0 <= q < cfg.n => s.ranks[q].ins[c])
  }

  // The fold of the ranks' inputs that a reduction at position c is meant to leave at its root.
  function Reduction(cfg: Config, s: State, c: nat): seq<int>
    requires cfg.n > 0 && AllEntered(cfg, s, c) && cfg.prog[c].DoReduce?
  {
    R.FoldRanks(cfg.prog[c].op, cfg.prog[c].ty, Inputs(cfg, s, c))
  }

  /** Whenever the root's MPI_Reduce succeeds, its fold took exactly one contribution from each
      other rank, all passed to that same call, and its buffer is the fold of all inputs. */
  lemma ReduceCountsEveryoneOnce(cfg: Config, run: seq<State>, i: nat, c: nat)
    requires IsRun(cfg, run) && i < |run|
    requires c < |cfg.prog| && cfg.prog[c].DoReduce?
    requires |run[i].ranks| == cfg.n && c < |run[i].ranks[cfg.prog[c].root].outs|
    requires run[i].ranks[cfg.prog[c].root].outs[c].Ok?
    ensures var s, root := run[i], cfg.prog[c].root;
            && c < |s.ranks[root].from|
            && Distinct(s.ranks[root].from[c])
            && (forall q: nat :: q in s.ranks[root].from[c] <==> q < cfg.n && q != root)
            && AllEntered(cfg, s, c)
            && s.ranks[root].outs[c].buf == Reduction(cfg, s, c)
  {
    RunKeepsValues(cfg, run, i);
    var s, root := run[i], cfg.prog[c].root;
    assert RankOk(cfg, root, s.ranks[root]) && RankValuesOk(cfg, s, root);
    assert OutcomeOk(cfg, s, root, c);
    var got := s.ranks[root].from[c];
    AllHeard(cfg.n, root, got);
    FoldOfAll(cfg, s, root, c, got, s.ranks[root].outs[c].buf);
  }

  lemma FoldOfAll(cfg: Config, s: State, root: nat, c: nat, got: seq<nat>, acc: seq<int>)
    requires |s.ranks| == cfg.n && root < cfg.n && IsFoldOf(cfg, s, root, c, got, acc) && Senders(cfg.n, root, got)
    requires forall q: nat :: q < cfg.n && q != root ==> q in got
    ensures AllEntered(cfg, s, c) && acc == Reduction(cfg, s, c)
  {
    var coll := cfg.prog[c];
    forall q: nat | q < cfg.n
      ensures c < |s.ranks[q].ins| && |s.ranks[q].ins[c]| == coll.count
    {
      if q != root {
        assert q in got;
        var k :| 0 <= k < |got| && got[k] == q;
      }
    }
    var inputs := Inputs(cfg, s, c);
    assert Contributions(s, c, got, coll.count) == Pick(inputs, got);
    OthersOnce(inputs, root, got);
    R.ArrivalOrderIsIrrelevant(coll.op, coll.ty, inputs, root, Pick(inputs, got));
  }

  /** A rank that returns from MPI_Bcast holds the buffer the root passed to that same call. */
  lemma BcastDelivers(cfg: Config, run: seq<State>, i: nat, c: nat, r: nat)
    requires IsRun(cfg, run) && i < |run| && r < cfg.n
    requires c < |cfg.prog| && cfg.prog[c].DoBcast?
    requires |run[i].ranks| == cfg.n && c < |run[i].ranks[r].outs| && run[i].ranks[r].outs[c].Ok?
    ensures c < |run[i].ranks[cfg.prog[c].root].ins|
    ensures run[i].ranks[r].outs[c].buf == run[i].ranks[cfg.prog[c].root].ins[c]
  {
    RunKeepsValues(cfg, run, i);
    assert RankOk(cfg, r, run[i].ranks[r]) && RankValuesOk(cfg, run[i], r);
    assert OutcomeOk(cfg, run[i], r, c);
  }

  /** Every rank whose MPI_Allreduce succeeds holds the same buffer: the fold, in rank order, of
      what all ranks passed in. */
  lemma AllreduceAgrees(cfg: Config, run: seq<State>, i: nat, c: nat, r: nat)
    requires IsRun(cfg, run) && i < |run| && r < cfg.n && IsAllreduce(cfg, c)
    requires |run[i].ranks| == cfg.n && c + 1 < |run[i].ranks[r].outs| && run[i].ranks[r].outs[c + 1].Ok?
    ensures AllEntered(cfg, run[i], c)
    ensures run[i].ranks[r].outs[c + 1].buf == Reduction(cfg, run[i], c)
  {
    BcastDelivers(cfg, run, i, c + 1, r);
    RunKeepsValues(cfg, run, i);
    RunKeepsInv(cfg, run, i);
    var s := run[i];
    assert RankOk(cfg, 0, s.ranks[0]) && RankValuesOk(cfg, s, 0);
    if r != 0 {
      // The root made the broadcast, since r has its message.
      assert Fits(cfg, Bcast, c + 1, 0, r) && Done(s.ranks[r], Bcast, c + 1, 0);
      assert Sent(s.ranks[0], Bcast, c + 1, r);
    }
    assert FedAt(cfg, s.ranks[0], c + 1);
    ReduceCountsEveryoneOnce(cfg, run, i, c);
  }

  // The elements the ranks passed in at place k of their buffers fit the type.
  predicate InTypeAt(cfg: Config, s: State, c: nat, k: nat)
    requires c < |cfg.prog| && cfg.prog[c].DoReduce?
  {
    forall q :: 0 <= q < |s.ranks| && c < |s.ranks[q].ins| && k < |s.ranks[q].ins[c]| ==>
      R.InRange(s.ranks[q].ins[c][k], cfg.prog[c].ty)
  }

  // x is what the ranks' elements at place k of their buffers come to: the largest, the smallest, or
  // their sum or product reduced to the type's width.
  predicate IsColumnResult(cfg: Config, s: State, c: nat, k: nat, x: int)
    requires AllEntered(cfg, s, c) && cfg.prog[c].DoReduce? && k < cfg.prog[c].count
  {
    var col := seq(cfg.n, q requires 0 <= q < cfg.n => s.ranks[q].ins[c][k]);
    match cfg.prog[c].op
    case Sum => R.IsWordOf(x, R.Total(col), cfg.prog[c].ty)
    case Prod => R.IsWordOf(x, R.Product(col), cfg.prog[c].ty)
    case Max => R.IsMaximum(x, col)
    case Min => R.IsMinimum(x, col)
  }

  lemma ReductionIsColumnResult(cfg: Config, s: State, c: nat, k: nat)
    requires ValidConfig(cfg) && AllEntered(cfg, s, c) && cfg.prog[c].DoReduce? && k < cfg.prog[c].count
    requires InTypeAt(cfg, s, c, k)
    ensures |Reduction(cfg, s, c)| == cfg.prog[c].count
    ensures IsColumnResult(cfg, s, c, k, Reduction(cfg, s, c)[k])
  {
    var inputs := Inputs(cfg, s, c);
    R.ReductionMeans(cfg.prog[c].op, cfg.prog[c].ty, inputs, k);
    assert seq(cfg.n, q requires 0 <= q < cfg.n => s.ranks[q].ins[c][k])
        == seq(|inputs|, q requires 0 <= q < |inputs| => inputs[q][k]);
  }

  /** What the root of a successful MPI_Reduce holds, element by element. */
  lemma ReduceMeans(cfg: Config, run: seq<State>, i: nat, c: nat, k: nat)
    requires IsRun(cfg, run) && i < |run| && c < |cfg.prog| && cfg.prog[c].DoReduce? && k < cfg.prog[c].count
    requires |run[i].ranks| == cfg.n > cfg.prog[c].root
    requires c < |run[i].ranks[cfg.prog[c].root].outs| && run[i].ranks[cfg.prog[c].root].outs[c].Ok?
    requires InTypeAt(cfg, run[i], c, k)
    ensures AllEntered(cfg, run[i], c)
    ensures var buf := run[i].ranks[cfg.prog[c].root].outs[c].buf;
            |buf| == cfg.prog[c].count && IsColumnResult(cfg, run[i], c, k, buf[k])
  {
    ReduceCountsEveryoneOnce(cfg, run, i, c);
    ReductionIsColumnResult(cfg, run[i], c, k);
  }

  /** And what every rank of a successful MPI_Allreduce holds. */
  lemma AllreduceMeans(cfg: Config, run: seq<State>, i: nat, c: nat, r: nat, k: nat)
    requires IsRun(cfg, run) && i < |run| && r < cfg.n && IsAllreduce(cfg, c) && k < cfg.prog[c].count
    requires |run[i].ranks| == cfg.n && c + 1 < |run[i].ranks[r].outs| && run[i].ranks[r].outs[c + 1].Ok?
    requires InTypeAt(cfg, run[i], c, k)
    ensures AllEntered(cfg, run[i], c)
    ensures var buf := run[i].ranks[r].outs[c + 1].buf;
            |buf| == cfg.prog[c].count && IsColumnResult(cfg, run[i], c, k, buf[k])
  {
    AllreduceAgrees(cfg, run, i, c, r);
    ReductionIsColumnResult(cfg, run[i], c, k);
  }
}
