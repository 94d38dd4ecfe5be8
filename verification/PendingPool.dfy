/**
 The unexpected-message queue of src/mpi.c as it is in memory: a fixed pool of slots, a flag per
 slot, and a singly linked list threaded through the slots. A slot's address is its index here, and
 the source's pointer to a link is the slot the link is in, or NIL for the head.
 */
module PendingPool {
  import opened Counting
  import opened Mailbox
  import opened MpiCodes
  import opened MpiTags

  const NIL := -1

  // What MPI_Recv returns and reports in its status.
  datatype RecvResult =
    | Refused(code: int)
    | Broke                                        // MPI_ERR_INTERN
    | Truncated(source: int, tag: int, bytes: nat) // MPI_ERR_TRUNCATE
    | Delivered(source: int, tag: int, bytes: nat)
    | StillBlocked

  // memcpy to the front of a buffer.
  method CopyOut(buf: array<int>, bytes: seq<int>)
    requires |bytes| <= buf.Length
    modifies buf
    ensures buf[..] == bytes + old(buf[|bytes|..])
  {
    for i := 0 to |bytes|
      invariant buf[..i] == bytes[..i] && buf[i..] == old(buf[i..])
    {
      buf[i] := bytes[i];
    }
  }

  // The slot after the first i of the list.
  ghost function Link(list: seq<nat>, i: nat): int {
    if i < |list| then list[i] else NIL
  }

  // The links spell out `list`: in bounds, without repetition, ending in NIL.
  ghost predicate Chain(head: int, next: seq<int>, list: seq<nat>) {
    && Distinct(list)
    && (forall i :: 0 <= i < |list| ==> list[i] < |next|)
    && head == Link(list, 0)
    && (forall i {:trigger next[list[i]]} :: 0 <= i < |list| ==> next[list[i]] == Link(list, i + 1))
  }

  // Writing the successor of the k-th slot into the link that leads to it takes it off the list.
  lemma UnlinkChain(head: int, next: seq<int>, list: seq<nat>, k: nat)
    requires Chain(head, next, list) && k < |list|
    ensures k == 0 ==> Chain(next[list[k]], next, Without(list, k))
    ensures k > 0 ==> Chain(head, next[list[k - 1] := next[list[k]]], Without(list, k))
  {
    WithoutDistinct(list, k);
    var after := Without(list, k);
    var next' := if k == 0 then next else next[list[k - 1] := next[list[k]]];
    forall i | 0 <= i < |after|
      ensures next'[after[i]] == Link(after, i + 1)
    {
      if i < k {
        assert after[i] == list[i];
      } else {
        assert after[i] == list[i + 1];
      }
    }
  }

  // Linking a new last slot behind the old one.
  lemma AppendChain(head: int, next: seq<int>, list: seq<nat>, p: nat)
    requires Chain(head, next, list) && p < |next| && p !in list && next[p] == NIL
    ensures list == [] ==> Chain(p, next, list + [p])
    ensures list != [] ==> Chain(head, next[list[|list| - 1] := p], list + [p])
  {
  }

  class Pool {
    var head: int
    const next: array<int>
    const msgs: array<Msg>
    const used: array<bool>
    ghost var list: seq<nat>

    ghost predicate Linked()
      reads this, next
    {
      next.Length == msgs.Length == used.Length == SLOTS && Chain(head, next[..], list)
    }

    // Between calls a slot is marked used exactly when it is on the list.
    ghost predicate Valid()
      reads this, next, used
    {
      Linked() && forall i: nat :: i < SLOTS ==> (used[i] <==> i in list)
    }

    ghost function Contents(): (c: seq<Msg>)
      requires Linked()
      reads this, next, msgs
      ensures |c| == |list| && forall i :: 0 <= i < |list| ==> c[i] == msgs[list[i]]
    {
      seq(|list|, i requires 0 <= i < |list| reads this, next, msgs requires Linked() => msgs[list[i]])
    }

    constructor ()
      ensures Valid() && Contents() == []
      ensures fresh(next) && fresh(msgs) && fresh(used)
    {
      head := NIL;
      next := new int[SLOTS];
      msgs := new Msg[SLOTS];
      used := new bool[SLOTS](_ => false);
      list := [];
    }

    lemma FitsThePool()
      requires Linked()
      ensures |list| <= 16
      ensures |list| == 16 <==> forall i: nat :: i < SLOTS ==> i in list
    {
      Pigeonhole(list, Below(SLOTS));
    }

    // Writes the successor of the k-th slot into the link that leads to it.
    method Unlink(prev: int, cur: nat, ghost k: nat)
      requires Linked() && k < |list| && cur == list[k] && prev == if k == 0 then NIL else list[k - 1]
      modifies this, next
      ensures Linked() && list == Without(old(list), k)
    {
      if prev == NIL {
        head := next[cur];
      } else {
        next[prev] := next[cur];
      }
      UnlinkChain(old(head), old(next[..]), list, k);
      list := Without(list, k);
    }

    // pending_take: unlinks the first match and returns its slot, still marked used.
    method Take(req: Request) returns (p: int)
      requires Linked()
      modifies this, next
      ensures Linked()
      ensures var k := FirstMatch(old(Contents()), req);
              if k == |old(list)| then p == NIL && list == old(list)
              else p == old(list)[k] && list == Without(old(list), k)
    {
      var prev, cur := NIL, head;
      ghost var k := 0;
      while cur != NIL
        invariant Linked() && list == old(list)
        invariant k <= |list| && cur == Link(list, k) && prev == if k == 0 then NIL else list[k - 1]
        invariant forall j :: 0 <= j < k ==> !Matches(msgs[list[j]], req)
        decreases |list| - k
      {
        if Matches(msgs[cur], req) {
          FirstMatchIsUnique(old(Contents()), req, k);
          Unlink(prev, cur, k);
          return cur;
        }
        prev, cur := cur, next[cur];
        k := k + 1;
      }
      FirstMatchIsUnique(old(Contents()), req, k);
      return NIL;
    }

    // pending_alloc: marks and returns the first free slot.
    method Alloc() returns (p: int)
      requires used.Length == SLOTS
      modifies used
      ensures p == NIL ==> (forall i :: 0 <= i < SLOTS ==> old(used[i])) && used[..] == old(used[..])
      ensures p != NIL ==> 0 <= p < SLOTS && !old(used[p]) && used[..] == old(used[..])[p := true]
      ensures p != NIL ==> forall i :: 0 <= i < p ==> old(used[i])
    {
      for i := 0 to SLOTS
        invariant forall j :: 0 <= j < i ==> used[j]
        invariant used[..] == old(used[..])
      {
        if !used[i] {
          used[i] := true;
          return i;
        }
      }
      return NIL;
    }

    // pending_release: clears the flag of a slot of the pool.
    method Release(p: int)
      requires used.Length == SLOTS && 0 <= p < SLOTS
      modifies used
      ensures used[..] == old(used[..])[p := false]
    {
      for i := 0 to SLOTS
        invariant i <= p && used[..] == old(used[..])
      {
        if i == p {
          used[i] := false;
          return;
        }
      }
    }

    // pending_push: links a slot in at the tail.
    method Push(p: nat)
      requires Linked() && p < SLOTS && p !in list
      modifies this, next
      ensures Linked() && list == old(list) + [p]
    {
      next[p] := NIL;
      AppendChain(head, next[..], list, p);
      if head == NIL {
        head := p;
        list := list + [p];
        return;
      }
      var t := head;
      ghost var k := 0;
      while next[t] != NIL
        invariant Linked() && list == old(list) && head == old(head) && p !in list && next[p] == NIL
        invariant k < |list| && t == list[k]
        decreases |list| - k
      {
        t := next[t];
        k := k + 1;
      }
      next[t] := p;
      list := list + [p];
    }

    // The first part of recv_match: a match taken off the list, copied out and its slot freed.
    method TakeQueued(req: Request) returns (found: bool, m: Msg)
      requires Valid()
      modifies this, next, used
      ensures Valid()
      ensures var queue := old(Contents());
              var k := FirstMatch(queue, req);
              && found == (k < |queue|)
              && (found ==> m == queue[k] && Contents() == Without(queue, k))
              && (!found ==> Contents() == queue)
    {
      var q := Take(req);
      found := q != NIL;
      m := Msg(0, 0, [], 0);
      if found {
        m := msgs[q];
        Release(q);
        WithoutDistinct(old(list), FirstMatch(old(Contents()), req));
      }
    }

    // The last part of recv_match: a frame nobody asked for goes to the tail, if there is a slot.
    method Keep(m: Msg)
      requires Valid()
      modifies this, next, msgs, used
      ensures Valid()
      ensures Contents() == if |old(Contents())| < SLOTS then old(Contents()) + [m] else old(Contents())
    {
      FitsThePool();
      var p := Alloc();
      if p != NIL {
        msgs[p] := m;
        Push(p);
      }
    }

    /** recv_match: the pool and the linked list do what Mailbox.Receive says, and stay consistent. */
    method RecvMatch(req: Request, events: seq<Event>) returns (status: Status, rest: seq<Event>)
      requires Valid()
      modifies this, next, msgs, used
      ensures Valid()
      ensures var r := Receive(old(Contents()), events, req);
              status == r.status && rest == r.rest && Contents() == r.queue
    {
      var found, m := TakeQueued(req);
      if found {
        return Got(m), events;
      }
      rest := events;
      ghost var r := FromSocket(Contents(), events, req);
      while rest != []
        invariant Valid()
        invariant var now := FromSocket(Contents(), rest, req);
                  now.status == r.status && now.rest == r.rest && now.queue == r.queue
        decreases |rest|
      {
        var e := rest[0];
        rest := rest[1..];
        if e.Broken? {
          return Failed, rest;
        }
        if e.Frame? {
          if Matches(e.msg, req) {
            return Got(e.msg), rest;
          }
          Keep(e.msg);
        }
      }
      return Blocked, rest;
    }

    /** MPI_Recv, on a buffer of bytes. Wrong arguments are refused before anything is received, in
        the source's order. A message that does not fit is an error and leaves the buffer alone, but
        it is gone from the mailbox; one that fits is copied whole and nothing else is written. */
    method Recv(buf: array<int>, count: int, elementSize: int, req: Request,
        ready: bool, world: bool, size: nat, events: seq<Event>)
      returns (rc: RecvResult, rest: seq<Event>)
      requires Valid() && buf != next
      requires elementSize > 0 && count > 0 ==> count * elementSize <= buf.Length
      modifies this, next, msgs, used, buf
      ensures Valid()
      ensures rc.Refused? <==>
                || !world || !ready || (req.source != ANY_SOURCE && !(0 <= req.source < size))
                || count < 0 || elementSize < 0
      ensures rc.Refused? ==>
                && rest == events && Contents() == old(Contents()) && buf[..] == old(buf[..])
                && rc.code == if !world then MPI_ERR_COMM else if !ready then MPI_ERR_OTHER
                              else if req.source != ANY_SOURCE && !(0 <= req.source < size) then MPI_ERR_RANK
                              else if count < 0 then MPI_ERR_COUNT else MPI_ERR_TYPE
      ensures !rc.Refused? ==>
                var r := Receive(old(Contents()), events, req);
                && rest == r.rest && Contents() == r.queue
                && match r.status
                   case Blocked => rc == StillBlocked && buf[..] == old(buf[..])
                   case Failed => rc == Broke && buf[..] == old(buf[..])
                   case Got(m) =>
                     if |m.data| > count * elementSize then
                       rc == Truncated(m.src, m.tag, |m.data|) && buf[..] == old(buf[..])
                     else rc == Delivered(m.src, m.tag, |m.data|)
                          && |m.data| <= buf.Length && buf[..] == m.data + old(buf[|m.data|..])
    {
      rest := events;
      if !world { return Refused(MPI_ERR_COMM), rest; }
      if !ready { return Refused(MPI_ERR_OTHER), rest; }
      if req.source != ANY_SOURCE && (req.source < 0 || req.source >= size) { return Refused(MPI_ERR_RANK), rest; }
      if count < 0 { return Refused(MPI_ERR_COUNT), rest; }
      if elementSize < 0 { return Refused(MPI_ERR_TYPE), rest; }
      var status;
      status, rest := RecvMatch(req, events);
      match status
      case Blocked => rc := StillBlocked;
      case Failed => rc := Broke;
      case Got(m) =>
        if |m.data| > count * elementSize {
          return Truncated(m.src, m.tag, |m.data|), rest;
        }
        CopyOut(buf, m.data);
        rc := Delivered(m.src, m.tag, |m.data|);
    }
  }
}
