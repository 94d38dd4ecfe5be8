/**
 Why no message of a collective 2^24 away may be under way to a receiving rank: one rank that runs
 that far ahead is counted twice by the root of a reduction, and another rank not at all.
 */
module CollectivesWindow {
  import opened MpiTags
  import opened Options
  import opened Collectives
  import R = ReduceOps

  // Three ranks, all reducing one element to rank 0, once more often than tags can tell apart.
  const PROGRAM := Config(3, seq(SEQ_SPAN + 1, (_: nat) => DoReduce(0, R.Sum, R.Int, 1)))

  function Ones(k: nat): (xs: seq<seq<int>>)
    ensures |xs| == k
  {
    seq(k, _ => [1])
  }

  function Successes(k: nat): (xs: seq<Outcome>)
    ensures |xs| == k
  {
    seq(k, _ => Ok([1]))
  }

  function Zeros(k: nat): (xs: seq<int>)
    ensures |xs| == k
  {
    seq(k, _ => 0)
  }

  function Nobodies(k: nat): (xs: seq<seq<nat>>)
    ensures |xs| == k
  {
    seq(k, _ => [])
  }

  // A rank that has contributed 1 to k reductions.
  function Past(k: nat): Rank {
    Rank(k, k, Outside, Ones(k), Zeros(k), Successes(k), Nobodies(k))
  }

  function Contribution(k: nat): Msg {
    Msg(1, 0, CollTag(Reduce, k + 1), [1], Collective(Reduce, k, 0))
  }

  // Rank 1 is k reductions ahead and only the first of its messages is still under way.
  function Ahead(k: nat): State {
    State(multiset{Contribution(0)}, [Past(0), Past(k), Past(0)])
  }

  // Every message of a collective is near the one its receiver is in.
  predicate InFlightNear(s: State) {
    forall m :: m in s.net && m.origin.Collective? && m.dst < |s.ranks| ==> Near(s.ranks[m.dst], m.origin.index)
  }

  // A run that ends in s; with `near`, one in which every message is near its receiver.
  ghost predicate LeadsTo(cfg: Config, run: seq<State>, near: bool, s: State) {
    && IsFreeRun(cfg, run) && run[|run| - 1] == s
    && (near ==> forall i :: 0 <= i < |run| ==> InFlightNear(run[i]))
  }

  ghost predicate Reachable(cfg: Config, near: bool, s: State) {
    exists run :: LeadsTo(cfg, run, near, s)
  }

  lemma NextReaches(cfg: Config, near: bool, s: State, s': State)
    requires Reachable(cfg, near, s) && Next(cfg, s, s') && (near ==> InFlightNear(s'))
    ensures Reachable(cfg, near, s')
  {
    var run :| LeadsTo(cfg, run, near, s);
    assert LeadsTo(cfg, run + [s'], near, s');
  }

  lemma MoveReaches(cfg: Config, near: bool, s: State, r: nat, rk': Rank,
      input: Option<Msg>, output: Option<Msg>, s': State)
    requires Reachable(cfg, near, s) && r < |s.ranks| && RankStep(cfg, r, s.ranks[r], rk', input, output)
    requires input.Some? ==> input.value in s.net && input.value.dst == r
    requires s' == State(s.net - Bag(input) + Bag(output), s.ranks[r := rk']) && (near ==> InFlightNear(s'))
    ensures Reachable(cfg, near, s')
  {
    assert Moves(cfg, s, s', r, input, output);
    NextReaches(cfg, near, s, s');
  }

  // Inside its k-th reduction, before sending.
  function Sending(k: nat): Rank {
    Rank(k + 1, k + 1, ReduceSend, Ones(k + 1), Zeros(k + 1), Successes(k), Nobodies(k))
  }

  lemma RankOneEnters(k: nat)
    requires k <= SEQ_SPAN
    ensures RankStep(PROGRAM, 1, Past(k), Sending(k), None, None)
  {
    assert FitsBuffer(PROGRAM, 1, Past(k), [1]);
    assert Ones(k) + [[1]] == Ones(k + 1) && Zeros(k) + [0] == Zeros(k + 1);
    assert Entered(PROGRAM, 1, Past(k), [1]) == Sending(k);
  }

  lemma RankOneSends(k: nat)
    requires k <= SEQ_SPAN
    ensures RankStep(PROGRAM, 1, Sending(k), Past(k + 1), None, Some(Contribution(k)))
  {
    assert Successes(k) + [Ok([1])] == Successes(k + 1) && Nobodies(k) + [[]] == Nobodies(k + 1);
    assert Ones(k + 1)[k] == [1];
    assert Works(PROGRAM, 1, Sending(k), Past(k + 1), None, Some(Contribution(k)));
  }

  function Ranks(k: nat): seq<Rank> {
    [Past(0), Past(k), Past(0)]
  }

  // Rank 1, at position k, enters its reduction and sends.
  lemma RankOneContributes(k: nat, net: multiset<Msg>)
    requires k <= SEQ_SPAN && Reachable(PROGRAM, false, State(net, Ranks(k)))
    ensures Reachable(PROGRAM, false, State(net + multiset{Contribution(k)}, Ranks(k + 1)))
  {
    var s := State(net, Ranks(k));
    var s1 := State(net, [Past(0), Sending(k), Past(0)]);
    RankOneEnters(k);
    MoveReaches(PROGRAM, false, s, 1, Sending(k), None, None, s1);
    RankOneSends(k);
    var s2 := State(net + multiset{Contribution(k)}, Ranks(k + 1));
    MoveReaches(PROGRAM, false, s1, 1, Past(k + 1), None, Some(Contribution(k)), s2);
  }

  lemma NobodyAhead()
    ensures Reachable(PROGRAM, false, State(multiset{}, Ranks(0)))
  {
    assert LeadsTo(PROGRAM, [State(multiset{}, Ranks(0))], false, State(multiset{}, Ranks(0)));
  }

  lemma LatestIsLost(k: nat)
    requires k > 0
    requires Reachable(PROGRAM, false, State(multiset{Contribution(0)} + multiset{Contribution(k)}, Ranks(k + 1)))
    ensures Reachable(PROGRAM, false, Ahead(k + 1))
  {
    var s := State(multiset{Contribution(0)} + multiset{Contribution(k)}, Ranks(k + 1));
    assert s.net - multiset{Contribution(k)} == multiset{Contribution(0)};
    assert Loses(s, Ahead(k + 1), Contribution(k));
    NextReaches(PROGRAM, false, s, Ahead(k + 1));
  }

  lemma {:induction false} AheadReachable(k: nat)
    requires 1 <= k <= SEQ_SPAN
    ensures Reachable(PROGRAM, false, Ahead(k))
  {
    if k == 1 {
      NobodyAhead();
      RankOneContributes(0, multiset{});
      assert multiset{} + multiset{Contribution(0)} == multiset{Contribution(0)};
    } else {
      AheadReachable(k - 1);
      RankOneContributes(k - 1, multiset{Contribution(0)});
      LatestIsLost(k - 1);
    }
  }

  // Rank 0 inside its first reduction.
  function Root(got: seq<nat>, acc: int): Rank {
    Rank(1, 1, Folding(got, [acc]), [[1]], [0], [], [])
  }

  lemma RootEnters()
    ensures RankStep(PROGRAM, 0, Past(0), Root([], 1), None, None)
  {
    assert FitsBuffer(PROGRAM, 0, Past(0), [1]);
    assert Entered(PROGRAM, 0, Past(0), [1]) == Root([], 1);
  }

  lemma RootTakes(m: Msg, got: seq<nat>, acc: int)
    requires |got| < 2 && 0 <= acc < 10 && m.tag == CollTag(Reduce, 1) && m.data == [1]
    ensures RankStep(PROGRAM, 0, Root(got, acc), Root(got + [m.src], acc + 1), Some(m), None)
  {
    assert R.CombineAll(R.Sum, R.Int, [acc], [1]) == [acc + 1];
    assert Works(PROGRAM, 0, Root(got, acc), Root(got + [m.src], acc + 1), Some(m), None);
  }

  // Rank 0 takes one message that is under way.
  lemma RootGathers(net: multiset<Msg>, m: Msg, k: nat, got: seq<nat>, acc: int)
    requires |got| < 2 && 0 <= acc < 10 && m.tag == CollTag(Reduce, 1) && m.data == [1] && m.dst == 0
    requires Reachable(PROGRAM, false, State(net + multiset{m}, [Root(got, acc), Past(k), Past(0)]))
    ensures Reachable(PROGRAM, false, State(net, [Root(got + [m.src], acc + 1), Past(k), Past(0)]))
  {
    RootTakes(m, got, acc);
    var s := State(net + multiset{m}, [Root(got, acc), Past(k), Past(0)]);
    var s' := State(net, [Root(got + [m.src], acc + 1), Past(k), Past(0)]);
    assert s.net - multiset{m} + multiset{} == net;
    MoveReaches(PROGRAM, false, s, 0, Root(got + [m.src], acc + 1), Some(m), None, s');
  }

  lemma RootReturns(net: multiset<Msg>, k: nat)
    requires Reachable(PROGRAM, false, State(net, [Root([1, 1], 3), Past(k), Past(0)]))
    ensures Reachable(PROGRAM, false, State(net, [Completed(Root([1, 1], 3), [3], [1, 1]), Past(k), Past(0)]))
  {
    var done := Completed(Root([1, 1], 3), [3], [1, 1]);
    assert Works(PROGRAM, 0, Root([1, 1], 3), done, None, None);
    MoveReaches(PROGRAM, false, State(net, [Root([1, 1], 3), Past(k), Past(0)]), 0, done, None, None,
                State(net, [done, Past(k), Past(0)]));
  }

  /** A run with a message from 2^24 collectives ahead, in which rank 0's first reduction succeeds
      having counted rank 1 twice and rank 2 never. */
  lemma RunAheadIsCountedTwice() returns (run: seq<State>)
    ensures IsFreeRun(PROGRAM, run)
    ensures var root := run[|run| - 1].ranks; |root| == 3 && root[0].outs == [Ok([3])] && root[0].from == [[1, 1]]
  {
    var first, second, k := Contribution(0), Contribution(SEQ_SPAN), SEQ_SPAN + 1;
    AheadReachable(SEQ_SPAN);
    RankOneContributes(SEQ_SPAN, multiset{first});
    CollTagInjective(Reduce, 1, Reduce, SEQ_SPAN + 1);
    RootEnters();
    var both := multiset{first} + multiset{second};
    MoveReaches(PROGRAM, false, State(both, Ranks(k)), 0, Root([], 1), None, None,
                State(both, [Root([], 1), Past(k), Past(0)]));
    RootGathers(multiset{first}, second, k, [], 1);
    assert multiset{} + multiset{first} == multiset{first};
    RootGathers(multiset{}, first, k, [] + [1], 2);
    assert [] + [1] + [1] == [1, 1];
    RootReturns(multiset{}, k);
    var last := State(multiset{}, [Completed(Root([1, 1], 3), [3], [1, 1]), Past(k), Past(0)]);
    run :| LeadsTo(PROGRAM, run, false, last);
  }
}
