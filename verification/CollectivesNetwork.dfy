/**
 Why the collectives may see the wire, a rank's socket and its unexpected-message queue as one bag:
 a receive of Mailbox is a receive of Collectives, after the loss of what a full queue dropped.
 */
module CollectivesNetwork {
  import opened Counting
  import opened MpiTags
  import opened Options
  import opened Collectives
  import B = Mailbox

  // A frame with stamp k is the message sent[k] on its way to rank r.
  predicate IsFrameOf(sent: seq<Msg>, r: nat, m: B.Msg) {
    && m.at < |sent|
    && sent[m.at].dst == r && sent[m.at].src == m.src && sent[m.at].tag == m.tag && sent[m.at].data == m.data
  }

  predicate AreFramesOf(sent: seq<Msg>, r: nat, box: seq<B.Msg>) {
    forall i :: 0 <= i < |box| ==> IsFrameOf(sent, r, box[i])
  }

  function Carried(sent: seq<Msg>, r: nat, box: seq<B.Msg>): (ms: seq<Msg>)
    requires AreFramesOf(sent, r, box)
    ensures |ms| == |box| && forall i :: 0 <= i < |ms| ==> ms[i] == sent[box[i].at]
  {
    seq(|box|, i requires 0 <= i < |box| => sent[box[i].at])
  }

  lemma FramesFrom(sent: seq<Msg>, r: nat, a: seq<B.Msg>, b: seq<B.Msg>)
    requires AreFramesOf(sent, r, a) && multiset(b) <= multiset(a)
    ensures AreFramesOf(sent, r, b)
  {
    forall i | 0 <= i < |b|
      ensures IsFrameOf(sent, r, b[i])
    {
      assert b[i] in multiset(b);
      assert b[i] in a;
    }
  }

  lemma CarriedWithout(sent: seq<Msg>, r: nat, a: seq<B.Msg>, i: nat)
    requires AreFramesOf(sent, r, a) && i < |a|
    ensures AreFramesOf(sent, r, Without(a, i))
    ensures multiset(Carried(sent, r, a)) == multiset(Carried(sent, r, Without(a, i))) + multiset{sent[a[i].at]}
  {
    WithoutTakesOne(Carried(sent, r, a), i);
    assert Without(Carried(sent, r, a), i) == Carried(sent, r, Without(a, i));
  }

  lemma {:induction false} CarriedIgnoresOrder(sent: seq<Msg>, r: nat, a: seq<B.Msg>, b: seq<B.Msg>)
    requires AreFramesOf(sent, r, a) && AreFramesOf(sent, r, b) && multiset(a) == multiset(b)
    ensures multiset(Carried(sent, r, a)) == multiset(Carried(sent, r, b))
    decreases |b|
  {
    assert |a| == |multiset(a)| == |multiset(b)| == |b|;
    if b != [] {
      var n := |b| - 1;
      var i := FindEqual(a, b, n);
      CarriedWithout(sent, r, a, i);
      CarriedWithout(sent, r, b, n);
      assert Without(b, n) == b[..n];
      CarriedIgnoresOrder(sent, r, Without(a, i), b[..n]);
    }
  }

  lemma CarriedSplits(sent: seq<Msg>, r: nat, a: seq<B.Msg>, b: seq<B.Msg>)
    requires AreFramesOf(sent, r, a + b)
    ensures AreFramesOf(sent, r, a) && AreFramesOf(sent, r, b)
    ensures Carried(sent, r, a + b) == Carried(sent, r, a) + Carried(sent, r, b)
  {
    assert forall i :: 0 <= i < |a| ==> a[i] == (a + b)[i];
    assert forall i :: 0 <= i < |b| ==> b[i] == (a + b)[|a| + i];
  }

  // What one receive does to the messages the frames carry.
  lemma ReceiveMovesMessages(sent: seq<Msg>, r: nat, queue: seq<B.Msg>, events: seq<B.Event>, req: B.Request)
    requires AreFramesOf(sent, r, B.Box(queue, events))
    ensures var res := B.Receive(queue, events, req);
            && AreFramesOf(sent, r, B.Box(res.queue, res.rest)) && AreFramesOf(sent, r, res.dropped)
            && AreFramesOf(sent, r, B.Delivered(res.status))
            && multiset(Carried(sent, r, B.Box(queue, events)))
               == multiset(Carried(sent, r, B.Box(res.queue, res.rest)))
                  + multiset(Carried(sent, r, B.Delivered(res.status))) + multiset(Carried(sent, r, res.dropped))
  {
    B.ReceiveIsBagReceive(queue, events, req);
    var res, box := B.Receive(queue, events, req), B.Box(queue, events);
    var left, got := B.Box(res.queue, res.rest), B.Delivered(res.status);
    assert multiset(left + got + res.dropped) == multiset(box);
    FramesFrom(sent, r, box, left + got + res.dropped);
    CarriedSplits(sent, r, left + got, res.dropped);
    CarriedSplits(sent, r, left, got);
    CarriedIgnoresOrder(sent, r, box, left + got + res.dropped);
  }

  // Steps that lose these messages one after the other.
  predicate LosesAll(s: State, s': State, lost: seq<Msg>)
    decreases |lost|
  {
    if lost == [] then s' == s
    else lost[0] in s.net && LosesAll(s.(net := s.net - multiset{lost[0]}), s', lost[1..])
  }

  lemma {:induction false} MayLoseAll(s: State, lost: seq<Msg>)
    requires multiset(lost) <= s.net
    ensures LosesAll(s, s.(net := s.net - multiset(lost)), lost)
    decreases |lost|
  {
    if lost == [] {
      assert s.net - multiset(lost) == s.net;
    } else {
      assert lost == [lost[0]] + lost[1..];
      assert multiset(lost) == multiset{lost[0]} + multiset(lost[1..]);
      assert lost[0] in multiset(lost);
      var s1 := s.(net := s.net - multiset{lost[0]});
      MayLoseAll(s1, lost[1..]);
      assert s1.net - multiset(lost[1..]) == s.net - multiset(lost);
    }
  }

  lemma LosesRest(s: State, kept: multiset<Msg>, lost: seq<Msg>)
    requires s.net == kept + multiset(lost)
    ensures LosesAll(s, s.(net := kept), lost)
  {
    MayLoseAll(s, lost);
    assert s.net - multiset(lost) == kept;
  }

  lemma StepIsMove(cfg: Config, s: State, r: nat, rk': Rank, input: Msg, output: Option<Msg>, rest: multiset<Msg>)
    requires r < |s.ranks| && s.net == rest + multiset{input} && input.dst == r
    requires RankStep(cfg, r, s.ranks[r], rk', Some(input), output)
    ensures Moves(cfg, s, State(rest + Bag(output), s.ranks[r := rk']), r, Some(input), output)
  {
    assert s.net - Bag(Some(input)) == rest;
  }

  lemma DeliveredMatches(sent: seq<Msg>, r: nat, queue: seq<B.Msg>, events: seq<B.Event>, req: B.Request)
    requires AreFramesOf(sent, r, B.Box(queue, events)) && B.Receive(queue, events, req).status.Got?
    ensures var m := B.Receive(queue, events, req).status.msg;
            IsFrameOf(sent, r, m) && B.Matches(m, req)
  {
    ReceiveMovesMessages(sent, r, queue, events, req);
    B.ReceiveIsBagReceive(queue, events, req);
    assert IsFrameOf(sent, r, B.Delivered(B.Receive(queue, events, req).status)[0]);
  }

  /** A receive that returns a message, in a network whose messages are `wire` and those in the queue
      and socket of rank r: the message matches the request, what the queue drops are losses, and the
      step of the rank that follows is a move with that input, which leaves `wire`, queue and socket. */
  lemma ReceiveIsNetworkStep(cfg: Config, s: State, r: nat, rk': Rank, output: Option<Msg>, wire: multiset<Msg>,
      sent: seq<Msg>, queue: seq<B.Msg>, events: seq<B.Event>, req: B.Request)
    requires r < |s.ranks| && AreFramesOf(sent, r, B.Box(queue, events))
    requires s.net == wire + multiset(Carried(sent, r, B.Box(queue, events)))
    requires B.Receive(queue, events, req).status.Got? && B.Receive(queue, events, req).status.msg.at < |sent|
    requires RankStep(cfg, r, s.ranks[r], rk', Some(sent[B.Receive(queue, events, req).status.msg.at]), output)
    ensures var res := B.Receive(queue, events, req);
            var input := sent[res.status.msg.at];
            && (req.source == ANY_SOURCE || input.src == req.source) && (req.tag == ANY_TAG || input.tag == req.tag)
            && AreFramesOf(sent, r, res.dropped) && AreFramesOf(sent, r, B.Box(res.queue, res.rest))
            && var kept := wire + multiset(Carried(sent, r, B.Box(res.queue, res.rest)));
               var mid := s.(net := kept + multiset{input});
               && LosesAll(s, mid, Carried(sent, r, res.dropped))
               && Moves(cfg, mid, State(kept + Bag(output), s.ranks[r := rk']), r, Some(input), output)
  {
    var res := B.Receive(queue, events, req);
    ReceiveMovesMessages(sent, r, queue, events, req);
    DeliveredMatches(sent, r, queue, events, req);
    var input := sent[res.status.msg.at];
    assert Carried(sent, r, B.Delivered(res.status)) == [input];
    var kept := wire + multiset(Carried(sent, r, B.Box(res.queue, res.rest)));
    LosesRest(s, kept + multiset{input}, Carried(sent, r, res.dropped));
    StepIsMove(cfg, s.(net := kept + multiset{input}), r, rk', input, output, kept);
  }
}
