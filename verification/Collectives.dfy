/**
 MPI_Barrier, MPI_Bcast, MPI_Reduce and MPI_Allreduce of src/mpi.c, run by n ranks over a network
 that may delay, reorder and lose datagrams but does not duplicate them.

 Every rank runs the same program of collectives; MPI_Allreduce is the reduce and the broadcast it
 is made of. Between and during collectives ranks exchange other messages with client tags, and
 frames of the startup rendezvous may still be about. The network is a bag: whether a message is on
 the wire, in the receiver's socket or on its unexpected-message queue makes no difference to which
 receive can match it, and a message dropped because that queue is full is a lost one
 (CollectivesNetwork.ReceiveIsNetworkStep). A rank whose collective fails may go on to the next one.

 History: a message's `origin`, the collective it belongs to and how many calls its sender had left
 out by then; each rank's `ins`, `lags`, `outs` and `from`, the buffer given to each collective, how
 far the sequence counter was behind, what came of it, and the senders it took contributions from.
 */
module Collectives {
  import opened Counting
  import opened MpiTags
  import opened Options
  import R = ReduceOps

  datatype Coll =
    | DoBarrier
    | DoBcast(root: nat, count: nat, fed: bool)  // fed: the second half of an MPI_Allreduce
    | DoReduce(root: nat, op: R.Op, ty: R.Ty, count: nat)

  datatype Config = Config(n: nat, prog: seq<Coll>)

  // MPI_Allreduce reduces to rank 0 and broadcasts what the reduce left in its buffer.
  predicate IsAllreduce(cfg: Config, c: nat) {
    && c + 1 < |cfg.prog|
    && cfg.prog[c].DoReduce? && cfg.prog[c].root == 0
    && cfg.prog[c + 1] == DoBcast(0, cfg.prog[c].count, true)
  }

  predicate ValidConfig(cfg: Config) {
    && cfg.n >= 1
    && forall c :: 0 <= c < |cfg.prog| ==>
         && (!cfg.prog[c].DoBarrier? ==> cfg.prog[c].root < cfg.n)
         && (cfg.prog[c].DoBcast? && cfg.prog[c].fed ==> c > 0 && IsAllreduce(cfg, c - 1))
  }

  datatype Origin = Foreign | Collective(base: Base, index: nat, lag: int)

  datatype Msg = Msg(src: nat, dst: nat, tag: int, data: seq<int>, origin: Origin)

  datatype Phase =
    | Outside
    | Gather(got: seq<nat>)                 // barrier, rank 0: receiving
    | Release(next: nat)                    // barrier, rank 0: sending
    | SendIn                                // barrier, other ranks
    | AwaitOut
    | BcastSend(next: nat)
    | BcastRecv
    | Folding(got: seq<nat>, acc: seq<int>) // reduce, root
    | ReduceSend

  // What came of a call: success with this buffer, an error in this phase, or, for the second half
  // of an MPI_Allreduce whose first half failed, no call at all.
  datatype Outcome = Ok(buf: seq<int>) | Error(at: Phase) | Skipped

  datatype Rank = Rank(
    seqno: nat, pos: nat, phase: Phase,
    ins: seq<seq<int>>, lags: seq<int>, outs: seq<Outcome>, from: seq<seq<nat>>)

  datatype State = State(net: multiset<Msg>, ranks: seq<Rank>)

  const TOKEN := [0]

  // ---------------------------------------------------------------- one rank's moves

  // How far the sequence counter is behind the program.
  function Lag(rk: Rank): int {
    rk.pos - rk.seqno
  }

  function CollMsg(src: nat, dst: nat, b: Base, rk: Rank, data: seq<int>): Msg
    requires rk.pos > 0
  {
    Msg(src, dst, CollTag(b, rk.seqno), data, Collective(b, rk.pos - 1, Lag(rk)))
  }

  function Completed(rk: Rank, out: seq<int>, from: seq<nat>): Rank {
    rk.(phase := Outside, outs := rk.outs + [Ok(out)], from := rk.from + [from])
  }

  // The call returns an error code.
  function Failing(rk: Rank): Rank {
    rk.(phase := Outside, outs := rk.outs + [Error(rk.phase)], from := rk.from + [[]])
  }

  // MPI_Allreduce calls MPI_Bcast only after a successful MPI_Reduce.
  predicate MayEnter(cfg: Config, rk: Rank)
    requires rk.pos < |cfg.prog|
  {
    cfg.prog[rk.pos].DoBcast? && cfg.prog[rk.pos].fed ==> rk.outs != [] && rk.outs[|rk.outs| - 1].Ok?
  }

  // matches(), for the requests collectives make: a source or any, and a tag.
  predicate Takes(input: Option<Msg>, source: int, tag: int) {
    input.Some? && (source == ANY_SOURCE || input.value.src == source) && input.value.tag == tag
  }

  // The buffer a rank passes in. The root of an Allreduce's broadcast passes what its reduce gave.
  predicate FitsBuffer(cfg: Config, r: nat, rk: Rank, buf: seq<int>)
    requires rk.pos < |cfg.prog| && MayEnter(cfg, rk)
  {
    match cfg.prog[rk.pos]
    case DoBarrier => buf == []
    case DoBcast(root, count, fed) => |buf| == count && (fed && r == root ==> buf == rk.outs[|rk.outs| - 1].buf)
    case DoReduce(_, _, _, count) => |buf| == count
  }

  // The call, up to its first communication. A barrier among one rank returns before the counter
  // moves; a broadcast among one rank returns after.
  function Entered(cfg: Config, r: nat, rk: Rank, buf: seq<int>): Rank
    requires rk.pos < |cfg.prog|
  {
    var rk1 := rk.(seqno := rk.seqno + 1, pos := rk.pos + 1, ins := rk.ins + [buf], lags := rk.lags + [Lag(rk)]);
    match cfg.prog[rk.pos]
    case DoBarrier =>
      if cfg.n == 1 then Completed(rk1.(seqno := rk.seqno), buf, [])
      else rk1.(phase := if r == 0 then Gather([]) else SendIn)
    case DoBcast(root, _, _) =>
      if cfg.n == 1 then Completed(rk1, buf, [])
      else rk1.(phase := if r == root then BcastSend(0) else BcastRecv)
    case DoReduce(root, _, _, _) =>
      rk1.(phase := if r == root then Folding([], buf) else ReduceSend)
  }

  ghost predicate Enters(cfg: Config, r: nat, rk: Rank, rk': Rank) {
    && rk.phase.Outside? && rk.pos < |cfg.prog| && MayEnter(cfg, rk)
    && exists buf :: FitsBuffer(cfg, r, rk, buf) && rk' == Entered(cfg, r, rk, buf)
  }

  // Passing over the second half of a failed MPI_Allreduce: the sequence counter stays behind.
  function PassedOver(rk: Rank, buf: seq<int>): Rank {
    rk.(pos := rk.pos + 1, ins := rk.ins + [buf], lags := rk.lags + [Lag(rk) + 1],
        outs := rk.outs + [Skipped], from := rk.from + [[]])
  }

  ghost predicate Skips(cfg: Config, rk: Rank, rk': Rank) {
    && rk.phase.Outside? && rk.pos < |cfg.prog| && !MayEnter(cfg, rk)
    && exists buf :: |buf| == cfg.prog[rk.pos].count && rk' == PassedOver(rk, buf)
  }

  // One send, one receive or one loop exit inside the collective the rank is in.
  predicate Works(cfg: Config, r: nat, rk: Rank, rk': Rank, input: Option<Msg>, output: Option<Msg>)
    requires 0 < rk.pos <= |cfg.prog| && rk.pos <= |rk.ins|
  {
    var coll, buf := cfg.prog[rk.pos - 1], rk.ins[rk.pos - 1];
    match rk.phase
    case Outside => false
    case Gather(got) =>
      && output == None
      && if |got| < cfg.n - 1 then
           && Takes(input, ANY_SOURCE, CollTag(BarrierIn, rk.seqno))
           && rk' == if |input.value.data| > 1 then Failing(rk) else rk.(phase := Gather(got + [input.value.src]))
         else input == None && rk' == rk.(phase := Release(1))
    case Release(next) =>
      && input == None
      && if next < cfg.n then
           output == Some(CollMsg(r, next, BarrierOut, rk, TOKEN)) && rk' == rk.(phase := Release(next + 1))
         else output == None && rk' == Completed(rk, buf, [])
    case SendIn =>
      && input == None && output == Some(CollMsg(r, 0, BarrierIn, rk, TOKEN))
      && rk' == rk.(phase := AwaitOut)
    case AwaitOut =>
      && Takes(input, 0, CollTag(BarrierOut, rk.seqno)) && output == None
      && rk' == if |input.value.data| > 1 then Failing(rk) else Completed(rk, buf, [])
    case BcastSend(next) =>
      && input == None
      && if next >= cfg.n then output == None && rk' == Completed(rk, buf, [])
         else && output == (if next == r then None else Some(CollMsg(r, next, Bcast, rk, buf)))
              && rk' == rk.(phase := BcastSend(next + 1))
    case BcastRecv =>
      && coll.DoBcast? && output == None
      && Takes(input, coll.root, CollTag(Bcast, rk.seqno))
      && var data := input.value.data;
         if |data| > |buf| then rk' == Failing(rk)  // MPI_ERR_TRUNCATE
         else rk' == Completed(rk, data + buf[|data|..], [])
    case Folding(got, acc) =>
      && coll.DoReduce? && output == None
      && if |got| < cfg.n - 1 then
           && Takes(input, ANY_SOURCE, CollTag(Reduce, rk.seqno))
           && var data := input.value.data;
              if |data| != |acc| then rk' == Failing(rk)  // MPI_ERR_TRUNCATE
              else
                var acc' := R.CombineAll(coll.op, coll.ty, acc, data);
                rk' == rk.(phase := Folding(got + [input.value.src], acc'))
         else input == None && rk' == Completed(rk, acc, got)
    case ReduceSend =>
      && coll.DoReduce?
      && input == None && output == Some(CollMsg(r, coll.root, Reduce, rk, buf))
      && rk' == Completed(rk, buf, [])
  }

  // A send or a receive inside a collective fails.
  predicate Fails(rk: Rank, rk': Rank) {
    !rk.phase.Outside? && rk' == Failing(rk)
  }

  // Client traffic: a message with a client's tag sent, or one with an explicit client's tag received;
  // and leftover frames of the rendezvous.
  predicate ClientMoves(r: nat, input: Option<Msg>, output: Option<Msg>) {
    && (output.Some? ==> output.value.src == r && output.value.origin == Foreign && IsForeignTag(output.value.tag))
    && (input.Some? ==> 0 <= input.value.tag <= TAG_UB)
  }

  ghost predicate RankStep(cfg: Config, r: nat, rk: Rank, rk': Rank, input: Option<Msg>, output: Option<Msg>) {
    || (rk' == rk && ClientMoves(r, input, output))
    || (input == None == output && (Enters(cfg, r, rk, rk') || Fails(rk, rk') || Skips(cfg, rk, rk')))
    || (0 < rk.pos <= |cfg.prog| && rk.pos <= |rk.ins| && Works(cfg, r, rk, rk', input, output))
  }

  // ---------------------------------------------------------------- runs

  predicate Init(cfg: Config, s: State) {
    && s.net == multiset{}
    && |s.ranks| == cfg.n
    && forall r :: 0 <= r < cfg.n ==> s.ranks[r] == Rank(0, 0, Outside, [], [], [], [])
  }

  function Bag(m: Option<Msg>): multiset<Msg> {
    if m.Some? then multiset{m.value} else multiset{}
  }

  ghost predicate Moves(cfg: Config, s: State, s': State, r: nat, input: Option<Msg>, output: Option<Msg>) {
    && r < |s.ranks| == |s'.ranks|
    && RankStep(cfg, r, s.ranks[r], s'.ranks[r], input, output)
    && s'.ranks == s.ranks[r := s'.ranks[r]]
    && (input.Some? ==> input.value in s.net && input.value.dst == r)
    && s'.net == s.net - Bag(input) + Bag(output)
  }

  predicate Loses(s: State, s': State, m: Msg) {
    m in s.net && s' == s.(net := s.net - multiset{m})
  }

  ghost predicate Next(cfg: Config, s: State, s': State) {
    || (exists m :: Loses(s, s', m))
    || (exists r, input, output :: Moves(cfg, s, s', r, input, output))
  }

  // Collective c is less than 2^24 collectives before or after the one the rank is in.
  predicate Near(rk: Rank, c: nat) {
    rk.pos - 1 - SEQ_SPAN < c < rk.pos - 1 + SEQ_SPAN
  }

  // A sender with this lag numbers its collectives as the rank does.
  predicate SameNumbering(rk: Rank, lag: int) {
    (lag - Lag(rk)) % SEQ_SPAN == 0
  }

  function Wanted(phase: Phase): Option<Base> {
    match phase
    case Gather(_) => Some(BarrierIn)
    case AwaitOut => Some(BarrierOut)
    case BcastRecv => Some(Bcast)
    case Folding(_, _) => Some(Reduce)
    case _ => None
  }

  // The tag a phase listens for.
  predicate ListensFor(rk: Rank, tag: int) {
    Wanted(rk.phase).Some? && tag == CollTag(Wanted(rk.phase).value, rk.seqno)
  }

  // What 24-bit sequence numbers ask for: a collective's message that a receive could match comes
  // from less than 2^24 collectives away, and from a sender that has left out as many calls.
  predicate NoFalseMatch(s: State) {
    forall m :: m in s.net && m.origin.Collective? && m.dst < |s.ranks| && ListensFor(s.ranks[m.dst], m.tag) ==>
      Near(s.ranks[m.dst], m.origin.index) && SameNumbering(s.ranks[m.dst], m.origin.lag)
  }

  ghost predicate IsFreeRun(cfg: Config, run: seq<State>) {
    && ValidConfig(cfg)
    && |run| > 0
    && Init(cfg, run[0])
    && forall i :: 0 <= i < |run| - 1 ==> Next(cfg, run[i], run[i + 1])
  }

  ghost predicate IsRun(cfg: Config, run: seq<State>) {
    IsFreeRun(cfg, run) && forall i :: 0 <= i < |run| ==> NoFalseMatch(run[i])
  }

  // ---------------------------------------------------------------- one rank's invariant

  // Collective c has a message with this base from src to dst.
  predicate Fits(cfg: Config, b: Base, c: nat, src: nat, dst: nat) {
    && c < |cfg.prog| && src < cfg.n && dst < cfg.n && src != dst
    && match b
       case BarrierIn => cfg.prog[c].DoBarrier? && dst == 0
       case BarrierOut => cfg.prog[c].DoBarrier? && src == 0
       case Bcast => cfg.prog[c].DoBcast? && cfg.prog[c].root == src
       case Reduce => cfg.prog[c].DoReduce? && cfg.prog[c].root == dst
  }

  // How far the rank got in collective c.
  datatype Progress = NotYet | Within(phase: Phase) | Through

  function ProgressOf(rk: Rank, c: nat): Progress {
    if c < |rk.outs| then
      match rk.outs[c]
      case Ok(_) => Through
      case Error(at) => Within(at)
      case Skipped => NotYet
    else if c == rk.pos - 1 then Within(rk.phase)
    else NotYet
  }

  // The rank has sent its message of this base of collective c to dst.
  predicate Sent(rk: Rank, b: Base, c: nat, dst: nat) {
    match ProgressOf(rk, c)
    case NotYet => false
    case Within(AwaitOut) => b.BarrierIn?
    case Within(Release(next)) => b.BarrierOut? && dst < next
    case Within(BcastSend(next)) => b.Bcast? && dst < next
    case Within(_) => false
    case Through => true
  }

  // The rank has had the message of this base of collective c from src.
  predicate Done(rk: Rank, b: Base, c: nat, src: nat) {
    match ProgressOf(rk, c)
    case NotYet => false
    case Within(Gather(got)) => b.BarrierIn? && src in got
    case Within(Release(_)) => b.BarrierIn?
    case Within(Folding(got, _)) => b.Reduce? && src in got
    case Within(_) => false
    case Through => true
  }

  // Senders heard so far: other ranks, each once.
  predicate Senders(n: nat, r: nat, got: seq<nat>) {
    Distinct(got) && forall i :: 0 <= i < |got| ==> got[i] < n && got[i] != r
  }

  predicate PhaseOk(cfg: Config, r: nat, rk: Rank)
    requires 0 < rk.pos <= |cfg.prog|
  {
    var coll := cfg.prog[rk.pos - 1];
    match rk.phase
    case Outside => true
    case Gather(got) => coll.DoBarrier? && r == 0 && Senders(cfg.n, r, got)
    case Release(next) => coll.DoBarrier? && r == 0 && 1 <= next <= cfg.n
    case SendIn => coll.DoBarrier? && r != 0
    case AwaitOut => coll.DoBarrier? && r != 0
    case BcastSend(next) => coll.DoBcast? && coll.root == r && next <= cfg.n
    case BcastRecv => coll.DoBcast? && coll.root != r
    case Folding(got, acc) => coll.DoReduce? && coll.root == r && Senders(cfg.n, r, got) && |acc| == coll.count
    case ReduceSend => coll.DoReduce? && coll.root != r
  }

  predicate BuffersOk(cfg: Config, rk: Rank) {
    forall c :: 0 <= c < |rk.ins| && c < |cfg.prog| && !cfg.prog[c].DoBarrier? ==> |rk.ins[c]| == cfg.prog[c].count
  }

  predicate CountersOk(cfg: Config, r: nat, rk: Rank) {
    && |rk.ins| == |rk.lags| == rk.pos <= |cfg.prog|
    && |rk.from| == |rk.outs|
    && (if rk.phase.Outside? then |rk.outs| == rk.pos
        else rk.pos > 0 && |rk.outs| == rk.pos - 1 && rk.lags[rk.pos - 1] == Lag(rk))
  }

  predicate RankOk(cfg: Config, r: nat, rk: Rank) {
    && r < cfg.n
    && CountersOk(cfg, r, rk)
    && (rk.pos > 0 ==> PhaseOk(cfg, r, rk))
    && BuffersOk(cfg, rk)
  }

  // ---------------------------------------------------------------- one rank's step

  // A received message is a client's, or the one the current receive is for and has not had yet.
  predicate GoodInput(cfg: Config, r: nat, rk: Rank, m: Msg) {
    match m.origin
    case Foreign => IsForeignTag(m.tag)
    case Collective(b, c, _) =>
      && Wanted(rk.phase) == Some(b) && c == rk.pos - 1
      && Fits(cfg, b, c, m.src, r) && !Done(rk, b, c, m.src)
      && !IsForeignTag(m.tag)
  }

  predicate GoodInputs(cfg: Config, r: nat, rk: Rank, input: Option<Msg>) {
    input.Some? ==> GoodInput(cfg, r, rk, input.value)
  }

  // ---------------------------------------------------------------- counting senders

  // n - 1 distinct senders other than r are all the others.
  lemma AllHeard(n: nat, r: nat, got: seq<nat>)
    requires r < n && Senders(n, r, got)
    ensures |got| <= n - 1
    ensures |got| == n - 1 ==> forall q: nat :: q < n && q != r ==> q in got
  {
    Pigeonhole(got, Below(n) - {r});
  }
}
