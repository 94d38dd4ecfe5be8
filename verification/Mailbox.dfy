/**
 Receive matching of src/mpi.c, as a function: what recv_match does to the unexpected-message queue
 and to the frames the socket will hand out. A plain mailbox would keep everything that arrives in
 one sequence and hand out the first match; this module says when recv_match is that mailbox.

 `at` is history: the position of a message in the order of arrival.
 */
module Mailbox {
  import opened Counting
  import opened MpiTags

  const SLOTS := 16

  datatype Msg = Msg(src: int, tag: int, data: seq<int>, at: nat)

  // What one call of recvfrom gives.
  datatype Event =
    | Frame(msg: Msg)
    | Runt         // shorter than a header
    | Interrupted  // -EINTR
    | Broken       // any other error

  datatype Status = Got(msg: Msg) | Failed | Blocked

  datatype Result = Result(status: Status, queue: seq<Msg>, rest: seq<Event>, dropped: seq<Msg>)

  datatype Request = Request(source: int, tag: int)

  predicate Matches(m: Msg, req: Request) {
    (req.source == ANY_SOURCE || m.src == req.source) && (req.tag == ANY_TAG || m.tag == req.tag)
  }

  /** What a receive can take of a collective's message: MPI_Recv does not look at the tag it is given,
      so one for any tag takes it, from a source it asks for, and so does one that names the tag; a tag
      that clients may use never does. */
  lemma OnlyAnyTagTakesLibraryTraffic(m: Msg, req: Request, b: Base, k: nat)
    requires m.tag == CollTag(b, k)
    ensures Matches(m, req) <==>
            (req.tag == ANY_TAG || req.tag == CollTag(b, k)) && (req.source == ANY_SOURCE || req.source == m.src)
    ensures 0 <= req.tag <= TAG_UB ==> !Matches(m, req)
  {
    CollTagReserved(b, k);
  }

  // Index of the first match, or the length if there is none.
  function FirstMatch(box: seq<Msg>, req: Request): (k: nat)
    ensures k <= |box|
    ensures k < |box| ==> Matches(box[k], req)
    ensures forall j :: 0 <= j < k ==> !Matches(box[j], req)
  {
    if box == [] || Matches(box[0], req) then 0 else 1 + FirstMatch(box[1..], req)
  }

  // The loop of recv_match over the socket. Frames that do not match go to the queue while it has
  // room and are dropped when it is full. A loop that runs out of frames is still blocked.
  function FromSocket(queue: seq<Msg>, events: seq<Event>, req: Request): Result
    decreases |events|
  {
    if events == [] then Result(Blocked, queue, [], [])
    else
      var rest := events[1..];
      match events[0]
      case Runt => FromSocket(queue, rest, req)
      case Interrupted => FromSocket(queue, rest, req)
      case Broken => Result(Failed, queue, rest, [])
      case Frame(m) =>
        if Matches(m, req) then Result(Got(m), queue, rest, [])
        else if |queue| < SLOTS then FromSocket(queue + [m], rest, req)
        else var r := FromSocket(queue, rest, req); r.(dropped := [m] + r.dropped)
  }

  function Receive(queue: seq<Msg>, events: seq<Event>, req: Request): Result {
    var k := FirstMatch(queue, req);
    if k < |queue| then Result(Got(queue[k]), Without(queue, k), events, [])
    else FromSocket(queue, events, req)
  }

  function Frames(events: seq<Event>): seq<Msg> {
    if events == [] then []
    else (if events[0].Frame? then [events[0].msg] else []) + Frames(events[1..])
  }

  // The plain mailbox: what is queued, then what is still to arrive.
  function Box(queue: seq<Msg>, events: seq<Event>): seq<Msg> {
    queue + Frames(events)
  }

  function Delivered(status: Status): seq<Msg> {
    if status.Got? then [status.msg] else []
  }

  // ---------------------------------------------------------------- the first match

  lemma FirstMatchIsUnique(box: seq<Msg>, req: Request, k: nat)
    requires k <= |box| && forall j :: 0 <= j < k ==> !Matches(box[j], req)
    requires k < |box| ==> Matches(box[k], req)
    ensures FirstMatch(box, req) == k
  {
  }

  lemma BoxSteps(queue: seq<Msg>, events: seq<Event>)
    requires events != []
    ensures !events[0].Frame? ==> Box(queue, events) == Box(queue, events[1..])
    ensures events[0].Frame? ==>
              && Box(queue, events) == Box(queue + [events[0].msg], events[1..])
              && Box(queue, events)[|queue|] == events[0].msg
              && Without(Box(queue, events), |queue|) == Box(queue, events[1..])
  {
  }

  lemma SocketSteps(queue: seq<Msg>, events: seq<Event>, req: Request)
    requires events != []
    ensures var e, rest, r := events[0], events[1..], FromSocket(queue, events, req);
            && (e.Runt? || e.Interrupted? ==> r == FromSocket(queue, rest, req))
            && (e.Broken? ==> r == Result(Failed, queue, rest, []))
            && (e.Frame? && Matches(e.msg, req) ==> r == Result(Got(e.msg), queue, rest, []))
            && (e.Frame? && !Matches(e.msg, req) && |queue| < SLOTS ==> r == FromSocket(queue + [e.msg], rest, req))
            && (e.Frame? && !Matches(e.msg, req) && |queue| >= SLOTS ==>
                  var r1 := FromSocket(queue, rest, req); r == r1.(dropped := [e.msg] + r1.dropped))
  {
  }

  // What one receive makes of a mailbox.
  predicate TakesFirst(box: seq<Msg>, req: Request, r: Result) {
    var k, left := FirstMatch(box, req), Box(r.queue, r.rest);
    && |r.queue| <= SLOTS
    && |left| + |r.dropped| + |Delivered(r.status)| == |box|
    && (r.status.Got? ==> k < |box| && r.status.msg == box[k] && (r.dropped == [] <==> k <= SLOTS))
    && (r.dropped == [] ==> left == if r.status.Got? then Without(box, k) else box)
    && (r.status.Blocked? ==> k == |box|)
  }

  lemma DropTakesFirst(box: seq<Msg>, req: Request, r: Result)
    requires |box| > SLOTS && forall j :: 0 <= j <= SLOTS ==> !Matches(box[j], req)
    requires TakesFirst(Without(box, SLOTS), req, r)
    ensures TakesFirst(box, req, r.(dropped := [box[SLOTS]] + r.dropped))
  {
    var box1 := Without(box, SLOTS);
    var k := FirstMatch(box1, req);
    assert forall j :: 0 <= j < SLOTS ==> box1[j] == box[j];
    forall j | 0 <= j < k + 1
      ensures !Matches(box[j], req)
    {
      if j > SLOTS {
        assert box[j] == box1[j - 1];
      }
    }
    FirstMatchIsUnique(box, req, k + 1);
  }

  lemma MatchTakesFirst(queue: seq<Msg>, rest: seq<Event>, box: seq<Msg>, req: Request)
    requires |queue| <= SLOTS && |queue| < |box| && Without(box, |queue|) == Box(queue, rest)
    requires Matches(box[|queue|], req) && forall j :: 0 <= j < |queue| ==> !Matches(box[j], req)
    ensures TakesFirst(box, req, Result(Got(box[|queue|]), queue, rest, []))
  {
    FirstMatchIsUnique(box, req, |queue|);
  }

  lemma {:induction false} SocketTakesFirst(queue: seq<Msg>, events: seq<Event>, req: Request)
    requires |queue| <= SLOTS && forall j :: 0 <= j < |queue| ==> !Matches(queue[j], req)
    ensures TakesFirst(Box(queue, events), req, FromSocket(queue, events, req))
    decreases |events|
  {
    var box := Box(queue, events);
    if events == [] {
      FirstMatchIsUnique(box, req, |queue|);
    } else {
      BoxSteps(queue, events);
      SocketSteps(queue, events, req);
      var e, rest := events[0], events[1..];
      assert forall j :: 0 <= j < |queue| ==> box[j] == queue[j];
      if e.Runt? || e.Interrupted? {
        SocketTakesFirst(queue, rest, req);
      } else if e.Frame? {
        if Matches(e.msg, req) {
          MatchTakesFirst(queue, rest, box, req);
        } else if |queue| < SLOTS {
          SocketTakesFirst(queue + [e.msg], rest, req);
        } else {
          SocketTakesFirst(queue, rest, req);
          DropTakesFirst(box, req, FromSocket(queue, rest, req));
        }
      }
    }
  }

  // What taking k results off the socket has to do with the outcome.
  predicate Consumed(events: seq<Event>, k: nat, r: Result) {
    && k <= |events| && r.rest == events[k..]
    && (forall j :: 0 <= j < k - 1 ==> !events[j].Broken?)
    && match r.status
       case Blocked => k == |events| && forall j :: 0 <= j < k ==> !events[j].Broken?
       case Failed => k > 0 && events[k - 1].Broken?
       case Got(m) => k > 0 && events[k - 1] == Frame(m)
  }

  lemma OneMoreConsumed(events: seq<Event>, k: nat, r: Result, r': Result)
    requires events != [] && !events[0].Broken? && Consumed(events[1..], k, r)
    requires r'.rest == r.rest && r'.status == r.status
    ensures Consumed(events, k + 1, r')
  {
    assert forall j :: 0 < j < |events| ==> events[j] == events[1..][j - 1];
    assert events[1..][k..] == events[k + 1..];
  }

  /** What a receive takes off the socket: nothing if its message was queued; otherwise everything up to
      that message, up to an error other than an interruption, which it then reports, or all there is. */
  lemma {:induction false} SocketConsumes(queue: seq<Msg>, events: seq<Event>, req: Request) returns (k: nat)
    ensures Consumed(events, k, FromSocket(queue, events, req))
    decreases |events|
  {
    if events == [] {
      k := 0;
    } else {
      var e, rest, r := events[0], events[1..], FromSocket(queue, events, req);
      SocketSteps(queue, events, req);
      if e.Broken? || (e.Frame? && Matches(e.msg, req)) {
        k := 1;
      } else if e.Frame? && |queue| < SLOTS {
        k := SocketConsumes(queue + [e.msg], rest, req);
        OneMoreConsumed(events, k, FromSocket(queue + [e.msg], rest, req), r);
        k := k + 1;
      } else {
        k := SocketConsumes(queue, rest, req);
        OneMoreConsumed(events, k, FromSocket(queue, rest, req), r);
        k := k + 1;
      }
    }
  }

  // What MPI_Recv's source and tag ask for, -1 standing for any.
  predicate Asked(source: int, tag: int, src: int, msgTag: int) {
    !(source != -1 && src != source) && !(tag != -1 && msgTag != tag)
  }

  /** recv_match is a plain mailbox, exactly as far as its queue reaches. It always delivers the
      first match of everything queued and still to arrive; it removes that message and nothing
      else, keeping the rest in order, if and only if at most 16 messages were ahead of it. */
  lemma ReceiveIsMailbox(queue: seq<Msg>, events: seq<Event>, req: Request)
    requires |queue| <= SLOTS
    ensures var r, box := Receive(queue, events, req), Box(queue, events);
            var k := FirstMatch(box, req);
            && |r.queue| <= 16
            && (r.status.Got? ==> k < |box| && r.status.msg == box[k])
            && (r.status.Got? ==> (Box(r.queue, r.rest) == Without(box, k) <==> k <= 16))
            && (!r.status.Got? && r.dropped == [] ==> Box(r.queue, r.rest) == box)
            && (r.status.Blocked? ==> k == |box|)
            && (forall j :: 0 <= j < k ==> !Asked(req.source, req.tag, box[j].src, box[j].tag))
            && (k < |box| ==> Asked(req.source, req.tag, box[k].src, box[k].tag))
  {
    var box := Box(queue, events);
    var k := FirstMatch(queue, req);
    if k < |queue| {
      assert forall j :: 0 <= j < |queue| ==> box[j] == queue[j];
      FirstMatchIsUnique(box, req, k);
      assert Without(box, k) == Without(queue, k) + Frames(events);
      assert TakesFirst(box, req, Receive(queue, events, req));
    } else {
      SocketTakesFirst(queue, events, req);
    }
    assert TakesFirst(box, req, Receive(queue, events, req));
  }

  // ---------------------------------------------------------------- the bag of the collectives

  predicate KeepsBag(box: seq<Msg>, r: Result) {
    multiset(box) == multiset(Box(r.queue, r.rest)) + multiset(Delivered(r.status)) + multiset(r.dropped)
  }

  lemma DropKeepsBag(box: seq<Msg>, k: nat, r: Result)
    requires k < |box| && KeepsBag(Without(box, k), r)
    ensures KeepsBag(box, r.(dropped := [box[k]] + r.dropped))
  {
    WithoutTakesOne(box, k);
  }

  lemma MatchKeepsBag(box: seq<Msg>, k: nat, r: Result)
    requires k < |box| && Without(box, k) == Box(r.queue, r.rest) && r.status == Got(box[k]) && r.dropped == []
    ensures KeepsBag(box, r)
  {
    WithoutTakesOne(box, k);
  }

  lemma {:induction false} SocketKeepsBag(queue: seq<Msg>, events: seq<Event>, req: Request)
    ensures KeepsBag(Box(queue, events), FromSocket(queue, events, req))
    ensures FromSocket(queue, events, req).status.Got? ==> Matches(FromSocket(queue, events, req).status.msg, req)
    decreases |events|
  {
    if events != [] {
      BoxSteps(queue, events);
      SocketSteps(queue, events, req);
      var box, e, rest := Box(queue, events), events[0], events[1..];
      if e.Runt? || e.Interrupted? {
        SocketKeepsBag(queue, rest, req);
      } else if e.Frame? {
        if Matches(e.msg, req) {
          MatchKeepsBag(box, |queue|, FromSocket(queue, events, req));
        } else if |queue| < SLOTS {
          SocketKeepsBag(queue + [e.msg], rest, req);
        } else {
          SocketKeepsBag(queue, rest, req);
          DropKeepsBag(box, |queue|, FromSocket(queue, rest, req));
        }
      }
    }
  }

  /** Seen as a bag, what is queued and still to arrive loses the one message delivered, which
      matches the request, and the messages dropped; nothing else appears or disappears. */
  lemma ReceiveIsBagReceive(queue: seq<Msg>, events: seq<Event>, req: Request)
    ensures var r := Receive(queue, events, req);
            && KeepsBag(Box(queue, events), r)
            && (r.status.Got? ==> Matches(r.status.msg, req))
  {
    var k := FirstMatch(queue, req);
    if k < |queue| {
      WithoutTakesOne(queue, k);
    } else {
      SocketKeepsBag(queue, events, req);
    }
  }

  // ---------------------------------------------------------------- order over many receives

  // Arrival positions increase along the mailbox.
  predicate Stamped(box: seq<Msg>) {
    forall i, j :: 0 <= i < j < |box| ==> box[i].at < box[j].at
  }

  // What is left is part of what there was, still in order, and every part of it that the request
  // could have had arrived after what the request got.
  predicate Shrinks(box: seq<Msg>, r: Result, req: Request) {
    var box' := Box(r.queue, r.rest);
    && Stamped(box')
    && (forall x :: x in box' ==> x in box)
    && (forall x :: r.status.Got? && x in box' && Matches(x, req) ==> r.status.msg.at < x.at)
    && (r.status.Got? ==> r.status.msg in box)
  }

  lemma {:induction false} SocketShrinks(queue: seq<Msg>, events: seq<Event>, req: Request)
    requires Stamped(Box(queue, events)) && forall j :: 0 <= j < |queue| ==> !Matches(queue[j], req)
    ensures Shrinks(Box(queue, events), FromSocket(queue, events, req), req)
    decreases |events|
  {
    if events != [] {
      BoxSteps(queue, events);
      var rest := events[1..];
      match events[0]
      case Runt => SocketShrinks(queue, rest, req);
      case Interrupted => SocketShrinks(queue, rest, req);
      case Broken =>
      case Frame(m) =>
        if Matches(m, req) {
          OneLess(Box(queue, events), |queue|);
        } else if |queue| < SLOTS {
          SocketShrinks(queue + [m], rest, req);
        } else {
          OneLess(Box(queue, events), |queue|);
          SocketShrinks(queue, rest, req);
        }
    }
  }

  lemma OneLess(box: seq<Msg>, k: nat)
    requires Stamped(box) && k < |box|
    ensures Stamped(Without(box, k))
    ensures forall x :: x in Without(box, k) ==> x in box
    ensures forall i :: k <= i < |box| - 1 ==> box[k].at < Without(box, k)[i].at
  {
  }

  lemma ReceiveShrinks(queue: seq<Msg>, events: seq<Event>, req: Request)
    requires Stamped(Box(queue, events))
    ensures Shrinks(Box(queue, events), Receive(queue, events, req), req)
  {
    var box := Box(queue, events);
    var k := FirstMatch(queue, req);
    if k < |queue| {
      OneLess(box, k);
      assert Without(box, k) == Without(queue, k) + Frames(events);
      assert box[k] == queue[k];
    } else {
      SocketShrinks(queue, events, req);
    }
  }

  // A series of receives on one mailbox.
  function Session(queue: seq<Msg>, events: seq<Event>, reqs: seq<Request>): (rs: seq<Result>)
    ensures |rs| == |reqs|
    decreases |reqs|
  {
    if reqs == [] then []
    else var r := Receive(queue, events, reqs[0]); [r] + Session(r.queue, r.rest, reqs[1..])
  }

  lemma {:induction false} SessionTakesFromBox(queue: seq<Msg>, events: seq<Event>, reqs: seq<Request>, b: nat)
    requires Stamped(Box(queue, events)) && b < |reqs| && Session(queue, events, reqs)[b].status.Got?
    ensures Session(queue, events, reqs)[b].status.msg in Box(queue, events)
    decreases b
  {
    ReceiveShrinks(queue, events, reqs[0]);
    if b > 0 {
      var r := Receive(queue, events, reqs[0]);
      SessionTakesFromBox(r.queue, r.rest, reqs[1..], b - 1);
    }
  }

  /** Messages do not overtake each other, whatever is asked for in between and whatever is dropped:
      if a later receive delivers a message that an earlier one could have had, the earlier one
      delivered a message that arrived before it. */
  lemma {:induction false} NothingOvertakes(queue: seq<Msg>, events: seq<Event>, reqs: seq<Request>, a: nat, b: nat)
    requires Stamped(Box(queue, events)) && a < b < |reqs|
    requires Session(queue, events, reqs)[a].status.Got? && Session(queue, events, reqs)[b].status.Got?
    requires Matches(Session(queue, events, reqs)[b].status.msg, reqs[a])
    ensures Session(queue, events, reqs)[a].status.msg.at < Session(queue, events, reqs)[b].status.msg.at
    decreases a
  {
    ReceiveShrinks(queue, events, reqs[0]);
    var r := Receive(queue, events, reqs[0]);
    if a > 0 {
      NothingOvertakes(r.queue, r.rest, reqs[1..], a - 1, b - 1);
    } else {
      SessionTakesFromBox(r.queue, r.rest, reqs[1..], b - 1);
    }
  }
}
