/**
 Directory iteration of src/dirent.c: a table of open directories, each handing out variable-length
 records in place from a buffer that getdents refills. The kernel's side of one directory is the
 series of results its getdents calls will give.
 */
module Dirent {
  import opened Words

  const BUF_SIZE := 512
  const MAX_OPEN_DIRS := 4
  const EBADF := 9

  // The smallest record: inode, offset, length, type and an empty name.
  const MIN_RECLEN := 20

  // d_reclen of the record at offset i: it sits after d_ino and d_off, low byte first.
  function RecLen(bytes: seq<int>, i: nat): int
    requires i + MIN_RECLEN <= |bytes|
  {
    bytes[i + 16] + 256 * bytes[i + 17]
  }

  // From offset i on the bytes are whole records, each as long as it says.
  predicate WellFormed(bytes: seq<int>, i: nat)
    decreases |bytes| - i
  {
    || i == |bytes|
    || (i + MIN_RECLEN <= |bytes| && MIN_RECLEN <= RecLen(bytes, i) <= |bytes| - i
        && WellFormed(bytes, i + RecLen(bytes, i)))
  }

  function Records(bytes: seq<int>, i: nat): (rs: seq<seq<int>>)
    requires WellFormed(bytes, i)
    ensures rs == [] <==> i == |bytes|
    decreases |bytes| - i
  {
    if i == |bytes| then []
    else
      var n := RecLen(bytes, i);
      [bytes[i..i + n]] + Records(bytes, i + n)
  }

  // ---------------------------------------------------------------- the layout of a record

  // A directory entry as the kernel writes it: struct linux_dirent64 in `len` bytes.
  datatype Entry = Entry(ino: nat, off: nat, kind: nat, name: seq<int>, len: nat)

  predicate ValidEntry(e: Entry) {
    19 + |e.name| < e.len < 0x1_0000
  }

  // d_ino, d_off, d_reclen, d_type, d_name with its NUL, and padding.
  function Encode(e: Entry): (bytes: seq<int>)
    requires ValidEntry(e)
    ensures |bytes| == e.len && MIN_RECLEN <= e.len
  {
    LeBytes(e.ino, 8) + LeBytes(e.off, 8) + LeBytes(e.len, 2) + [e.kind] + e.name
    + seq(e.len - 19 - |e.name|, _ => 0)
  }

  predicate ValidEntries(es: seq<Entry>) {
    forall i :: 0 <= i < |es| ==> ValidEntry(es[i])
  }

  function Encoded(es: seq<Entry>): (rs: seq<seq<int>>)
    requires ValidEntries(es)
    ensures |rs| == |es| && forall i :: 0 <= i < |rs| ==> rs[i] == Encode(es[i])
  {
    if es == [] then [] else [Encode(es[0])] + Encoded(es[1..])
  }

  function Concat(rs: seq<seq<int>>): seq<int> {
    if rs == [] then [] else rs[0] + Concat(rs[1..])
  }

  lemma LengthField(e: Entry)
    requires ValidEntry(e)
    ensures Encode(e)[16] + 256 * Encode(e)[17] == e.len
  {
    assert LeBytes(e.len, 2) == [e.len % 256] + LeBytes(e.len / 256, 1);
    assert LeBytes(e.len / 256, 1) == [(e.len / 256) % 256] + LeBytes(e.len / 256 / 256, 0);
    assert Encode(e)[16] == LeBytes(e.len, 2)[0] && Encode(e)[17] == LeBytes(e.len, 2)[1];
  }

  // Long enough, and as long as it says.
  predicate IsRecord(r: seq<int>) {
    |r| >= MIN_RECLEN && r[16] + 256 * r[17] == |r|
  }

  predicate AreRecords(rs: seq<seq<int>>) {
    forall k :: 0 <= k < |rs| ==> IsRecord(rs[k])
  }

  lemma RecordFits(bytes: seq<int>, i: nat, r: seq<int>, rest: seq<seq<int>>)
    requires IsRecord(r) && i + |r| <= |bytes| && bytes[i..i + |r|] == r
    requires WellFormed(bytes, i + |r|) && Records(bytes, i + |r|) == rest
    ensures WellFormed(bytes, i) && Records(bytes, i) == [r] + rest
  {
    assert bytes[i + 16] == r[16] && bytes[i + 17] == r[17];
  }

  lemma NoRecords(bytes: seq<int>, i: nat)
    requires i == |bytes|
    ensures WellFormed(bytes, i) && Records(bytes, i) == []
  {
  }

  lemma SplitOff(bytes: seq<int>, i: nat, r: seq<int>, rest: seq<int>)
    requires i <= |bytes| && bytes[i..] == r + rest
    ensures i + |r| <= |bytes| && bytes[i..i + |r|] == r && bytes[i + |r|..] == rest
  {
    assert bytes[i..][..|r|] == r && bytes[i..][|r|..] == rest;
  }

  lemma {:induction false} RecordsReadBack(bytes: seq<int>, i: nat, rs: seq<seq<int>>)
    requires AreRecords(rs) && i <= |bytes| && bytes[i..] == Concat(rs)
    ensures WellFormed(bytes, i) && Records(bytes, i) == rs
    decreases |rs|
  {
    if rs == [] {
      NoRecords(bytes, i);
    } else {
      var r, rest := rs[0], rs[1..];
      SplitOff(bytes, i, r, Concat(rest));
      RecordsReadBack(bytes, i + |r|, rest);
      RecordFits(bytes, i, r, rest);
      assert rs == [r] + rest;
    }
  }

  /** A buffer the kernel filled with entries, one after the other, is whole records, and they are
      exactly those entries. */
  lemma EntriesAreRecords(es: seq<Entry>)
    requires ValidEntries(es)
    ensures var bytes := Concat(Encoded(es));
            WellFormed(bytes, 0) && Records(bytes, 0) == Encoded(es)
  {
    var rs := Encoded(es);
    forall k | 0 <= k < |rs|
      ensures IsRecord(rs[k])
    {
      LengthField(es[k]);
    }
    RecordsReadBack(Concat(rs), 0, rs);
  }

  // ---------------------------------------------------------------- batches

  // One getdents call: a negative result, or that many bytes (none at the end of the directory).
  datatype Batch = Error(code: int) | Bytes(bytes: seq<int>)

  predicate ValidBatch(b: Batch) {
    match b
    case Error(code) => code < 0
    case Bytes(bytes) => |bytes| <= BUF_SIZE && WellFormed(bytes, 0)
  }

  predicate ValidFeed(feed: seq<Batch>) {
    forall i :: 0 <= i < |feed| ==> ValidBatch(feed[i])
  }

  // The directory has an end: past the last given result getdents reports it.
  function NextBatch(feed: seq<Batch>): Batch {
    if feed == [] then Bytes([]) else feed[0]
  }

  // All records, up to the first empty or failing batch.
  function AllRecords(feed: seq<Batch>): seq<seq<int>>
    requires ValidFeed(feed)
  {
    if feed == [] || feed[0].Error? || feed[0].bytes == [] then []
    else Records(feed[0].bytes, 0) + AllRecords(feed[1..])
  }

  function Filled(es: seq<Entry>): Batch
    requires ValidEntries(es)
  {
    Bytes(Concat(Encoded(es)))
  }

  function AllEncoded(batches: seq<seq<Entry>>): seq<seq<int>>
    requires forall k :: 0 <= k < |batches| ==> ValidEntries(batches[k])
  {
    if batches == [] then [] else Encoded(batches[0]) + AllEncoded(batches[1..])
  }

  function Feed(batches: seq<seq<Entry>>): (feed: seq<Batch>)
    requires forall k :: 0 <= k < |batches| ==> ValidEntries(batches[k])
    ensures |feed| == |batches| && forall k :: 0 <= k < |feed| ==> feed[k] == Filled(batches[k])
  {
    if batches == [] then [] else [Filled(batches[0])] + Feed(batches[1..])
  }

  /** A directory whose entries come in such batches has exactly those entries as its records, in order. */
  lemma {:induction false} ListingIsTheEntries(batches: seq<seq<Entry>>)
    requires forall k :: 0 <= k < |batches| ==>
               batches[k] != [] && ValidEntries(batches[k]) && |Concat(Encoded(batches[k]))| <= BUF_SIZE
    ensures ValidFeed(Feed(batches)) && AllRecords(Feed(batches)) == AllEncoded(batches)
  {
    if batches != [] {
      ListingIsTheEntries(batches[1..]);
      EntriesAreRecords(batches[0]);
      assert Records(Concat(Encoded(batches[0])), 0) != [];
      assert Feed(batches)[1..] == Feed(batches[1..]);
    }
  }

  // What is left to hand out: the records from offset i on, one by one, then those of later batches.
  ghost predicate Owes(bytes: seq<int>, i: nat, atEnd: bool, feed: seq<Batch>, left: seq<seq<int>>)
    decreases |feed|, |bytes| - i
  {
    && i <= |bytes| && ValidFeed(feed)
    && if i < |bytes| then
         && i + MIN_RECLEN <= |bytes| && MIN_RECLEN <= RecLen(bytes, i) <= |bytes| - i
         && left != [] && left[0] == bytes[i..i + RecLen(bytes, i)]
         && Owes(bytes, i + RecLen(bytes, i), atEnd, feed, left[1..])
       else if atEnd || NextBatch(feed).Error? || NextBatch(feed).bytes == [] then left == []
       else Owes(NextBatch(feed).bytes, 0, false, feed[1..], left)
  }

  lemma OwesOneLess(bytes: seq<int>, i: nat, atEnd: bool, feed: seq<Batch>, left: seq<seq<int>>)
    requires Owes(bytes, i, atEnd, feed, left) && i < |bytes|
    ensures i + MIN_RECLEN <= |bytes|
    ensures var n := RecLen(bytes, i);
            && MIN_RECLEN <= n <= |bytes| - i
            && left != [] && left[0] == bytes[i..i + n] && Owes(bytes, i + n, atEnd, feed, left[1..])
  {
  }

  lemma OwesNextBatch(bytes: seq<int>, feed: seq<Batch>, left: seq<seq<int>>)
    requires Owes(bytes, |bytes|, false, feed, left)
    ensures NextBatch(feed).Error? || NextBatch(feed).bytes == [] ==> left == []
    ensures NextBatch(feed).Bytes? && NextBatch(feed).bytes != [] ==>
              Owes(NextBatch(feed).bytes, 0, false, feed[1..], left)
  {
  }

  // Whole records, and whatever is owed after them.
  lemma {:induction false} OwesRecords(bytes: seq<int>, i: nat, atEnd: bool, feed: seq<Batch>, rest: seq<seq<int>>)
    requires i <= |bytes| && WellFormed(bytes, i) && Owes(bytes, |bytes|, atEnd, feed, rest)
    ensures Owes(bytes, i, atEnd, feed, Records(bytes, i) + rest)
    decreases |bytes| - i
  {
    if i < |bytes| {
      var n := RecLen(bytes, i);
      OwesRecords(bytes, i + n, atEnd, feed, rest);
      assert (Records(bytes, i) + rest)[1..] == Records(bytes, i + n) + rest;
    } else {
      assert Records(bytes, i) + rest == rest;
    }
  }

  lemma {:induction false} OwesFeed(bytes: seq<int>, feed: seq<Batch>)
    requires ValidFeed(feed)
    ensures Owes(bytes, |bytes|, false, feed, AllRecords(feed))
    decreases |feed|
  {
    if feed != [] && feed[0].Bytes? && feed[0].bytes != [] {
      assert ValidBatch(feed[0]);
      OwesFeed(feed[0].bytes, feed[1..]);
      OwesRecords(feed[0].bytes, 0, false, feed[1..], AllRecords(feed[1..]));
    }
  }

  /** What opendir finds: after the first batch is in the buffer, the directory owes the records of all
      batches up to the first empty or failing one, in order. */
  lemma OwesAllRecords(feed: seq<Batch>)
    requires ValidFeed(feed) && NextBatch(feed).Bytes?
    ensures var bytes, rest := NextBatch(feed).bytes, if feed == [] then [] else feed[1..];
            Owes(bytes, 0, bytes == [], rest, AllRecords(feed))
  {
    OwesFeed([], feed);
  }

  class Dir {
    var inUse: bool
    var fd: int
    const buf: array<int>
    var valid: int
    var next: int
    var atEnd: bool
    var feed: seq<Batch>
    ghost var left: seq<seq<int>>  // what readdir has yet to hand out

    constructor ()
      ensures Valid() && !inUse && fresh(buf)
    {
      inUse, fd, valid, next, atEnd, feed, left := false, -1, 0, 0, false, [], [];
      buf := new int[BUF_SIZE];
    }

    // The offset is at a record boundary or at the end of the valid bytes.
    ghost predicate Valid()
      reads this, buf
    {
      && buf.Length == BUF_SIZE && 0 <= next <= valid <= BUF_SIZE
      && (if inUse then Owes(buf[..valid], next, atEnd, feed, left) else left == [])
    }

    // getdents: the next result, its bytes written to the front of the buffer.
    method GetDents() returns (rc: int)
      requires buf.Length == BUF_SIZE && ValidFeed(feed)
      modifies this`feed, buf
      ensures feed == if old(feed) == [] then [] else old(feed)[1..]
      ensures NextBatch(old(feed)).Error? ==> rc == NextBatch(old(feed)).code && buf[..] == old(buf[..])
      ensures NextBatch(old(feed)).Bytes? ==>
                rc == |NextBatch(old(feed)).bytes| && buf[..rc] == NextBatch(old(feed)).bytes
    {
      var b := NextBatch(feed);
      feed := if feed == [] then [] else feed[1..];
      match b
      case Error(code) =>
        rc := code;
      case Bytes(bytes) =>
        rc := |bytes|;
        for i := 0 to rc
          invariant buf[..i] == bytes[..i]
          invariant feed == if old(feed) == [] then [] else old(feed)[1..]
        {
          buf[i] := bytes[i];
        }
        assert bytes[..rc] == bytes;
    }

    // The buffer is used up: fetch the next batch, or note that there is none.
    method Refill() returns (more: bool)
      requires Valid() && inUse && next >= valid && !atEnd
      modifies this`feed, this`valid, this`next, this`atEnd, buf
      ensures Valid()
      ensures more <==> next < valid
      ensures !more ==> left == []
    {
      OwesNextBatch(buf[..valid], feed, left);
      var rc := GetDents();
      if rc <= 0 {
        atEnd := true;
        return false;
      }
      valid := rc;
      next := 0;
      return true;
    }

    // The record at the offset, which moves past it.
    method HandOut() returns (off: int, len: int)
      requires Valid() && inUse && next < valid
      modifies this`next, this`left
      ensures Valid()
      ensures 0 <= off && 0 < len && off + len <= valid
      ensures old(left) != [] && buf[off..off + len] == old(left)[0] && left == old(left)[1..]
    {
      ghost var bytes := buf[..valid];
      OwesOneLess(bytes, next, atEnd, feed, left);
      off := next;
      len := buf[next + 16] + 256 * buf[next + 17];
      assert len == RecLen(bytes, off);
      assert forall k :: off <= k < off + len ==> buf[k] == bytes[k];
      assert buf[off..off + len] == bytes[off..off + len];
      next := next + len;
      left := left[1..];
      assert buf[..valid] == bytes;
    }

    // opendir on a free slot: the first batch is read at once, and a directory that cannot be read
    // is not opened.
    method Open(newFd: int, newFeed: seq<Batch>) returns (ok: bool)
      requires Valid() && !inUse && ValidFeed(newFeed)
      modifies this, buf
      ensures Valid() && inUse == ok == !NextBatch(newFeed).Error?
      ensures ok ==> fd == newFd && left == AllRecords(newFeed)
    {
      feed := newFeed;
      var rc := GetDents();
      if rc < 0 {
        return false;
      }
      OwesAllRecords(newFeed);
      inUse, fd, valid, next, atEnd, left := true, newFd, rc, 0, rc == 0, AllRecords(newFeed);
      return true;
    }

    // closedir, given what close returns.
    method Close(closed: int) returns (rc: int)
      requires Valid()
      modifies this
      ensures Valid() && !inUse && rc == if old(inUse) then closed else -EBADF
    {
      if !inUse {
        return -EBADF;
      }
      inUse, fd, valid, next, atEnd, left := false, -1, 0, 0, false, [];
      return closed;
    }

    /** Hands out the next record in place: its offset and length in the buffer. */
    method Readdir() returns (found: bool, off: int, len: int)
      requires Valid()
      modifies this, buf
      ensures Valid() && inUse == old(inUse) && fd == old(fd)
      ensures !old(inUse) ==> !found && left == old(left)
      ensures old(inUse) ==> found == (old(left) != [])
      ensures found ==> 0 <= off && 0 < len && off + len <= valid
      ensures found ==> buf[off..off + len] == old(left)[0] && left == old(left)[1..]
      ensures old(inUse) && !found ==> left == []
    {
      found, off, len := false, 0, 0;
      if !inUse {
        return;
      }
      if next >= valid {
        if atEnd {
          return;
        }
        var more := Refill();
        if !more {
          return;
        }
      }
      off, len := HandOut();
      found := true;
    }
  }

  /** The loop every listing is: it collects exactly the records the directory still has, in order,
      each once. */
  method ListAll(d: Dir) returns (listing: seq<seq<int>>)
    requires d.Valid() && d.inUse
    modifies d, d.buf
    ensures listing == old(d.left)
    ensures d.Valid() && d.left == []
  {
    listing := [];
    ghost var all := d.left;
    while true
      invariant d.Valid() && d.inUse && all == listing + d.left
      decreases |d.left|
    {
      ghost var left := d.left;
      var more, off, len := d.Readdir();
      if !more {
        break;
      }
      var entry := d.buf[off..off + len];
      Shift(listing, left);
      listing := listing + [entry];
    }
  }

  lemma Shift(done: seq<seq<int>>, left: seq<seq<int>>)
    requires left != []
    ensures done + left == done + [left[0]] + left[1..]
  {
  }

  // ---------------------------------------------------------------- the table of open directories

  class Table {
    const dirs: seq<Dir>

    ghost predicate Valid()
      reads this, dirs, set d | d in dirs :: d.buf
    {
      && |dirs| == MAX_OPEN_DIRS
      && (forall i, j :: 0 <= i < j < |dirs| ==> dirs[i] != dirs[j] && dirs[i].buf != dirs[j].buf)
      && (forall i :: 0 <= i < |dirs| ==> dirs[i].Valid())
    }

    // The table as the program starts: every slot free.
    constructor ()
      ensures Valid() && fresh(dirs) && |dirs| == 4
      ensures forall i :: 0 <= i < |dirs| ==> fresh(dirs[i].buf) && dirs[i].buf.Length == 512 && !dirs[i].inUse
    {
      var ds: seq<Dir> := [];
      while |ds| < MAX_OPEN_DIRS
        invariant |ds| <= MAX_OPEN_DIRS
        invariant forall i :: 0 <= i < |ds| ==> fresh(ds[i]) && fresh(ds[i].buf) && ds[i].Valid() && !ds[i].inUse
        invariant forall i, j :: 0 <= i < j < |ds| ==> ds[i] != ds[j] && ds[i].buf != ds[j].buf
      {
        var d := new Dir();
        ds := ds + [d];
      }
      dirs := ds;
    }

    method FindFree() returns (i: nat)
      requires Valid()
      ensures i <= |dirs| && (forall k :: 0 <= k < i ==> dirs[k].inUse) && (i < |dirs| ==> !dirs[i].inUse)
    {
      i := 0;
      while i < |dirs| && dirs[i].inUse
        invariant i <= |dirs| && forall k :: 0 <= k < i ==> dirs[k].inUse
      {
        i := i + 1;
      }
    }

    // Opening one slot leaves the others as they are.
    method OpenSlot(i: nat, fd: int, feed: seq<Batch>) returns (ok: bool)
      requires Valid() && ValidFeed(feed) && i < |dirs| && !dirs[i].inUse
      modifies dirs[i], dirs[i].buf
      ensures Valid() && dirs[i].inUse == ok == !NextBatch(feed).Error?
      ensures ok ==> dirs[i].fd == fd && dirs[i].left == AllRecords(feed)
    {
      ok := dirs[i].Open(fd, feed);
    }

    /** opendir, given what open returned and what getdents will give on that descriptor. A handle is
        given out only for a free slot and a directory that can be read; it then yields all of that
        directory's records, and the other open directories are not disturbed. */
    method Opendir(fd: int, feed: seq<Batch>) returns (i: int)
      requires Valid() && ValidFeed(feed)
      modifies dirs, set d | d in dirs :: d.buf
      ensures Valid()
      ensures i == -1 || 0 <= i < |dirs|
      ensures i == -1 <==> (forall k :: 0 <= k < |dirs| ==> old(dirs[k].inUse)) || fd < 0 || NextBatch(feed).Error?
      ensures i != -1 ==>
                && !old(dirs[i].inUse) && (forall k :: 0 <= k < i ==> old(dirs[k].inUse))
                && dirs[i].inUse && dirs[i].fd == fd && dirs[i].left == AllRecords(feed)
      ensures forall k :: 0 <= k < |dirs| && k != i && old(dirs[k].inUse) ==>
                dirs[k].inUse && dirs[k].fd == old(dirs[k].fd) && dirs[k].left == old(dirs[k].left)
    {
      i := FindFree();
      if i == |dirs| || fd < 0 {
        return -1;
      }
      var ok := OpenSlot(i, fd, feed);
      if !ok {
        return -1;
      }
    }

    /** closedir, given what close returns: -EBADF for no handle or one that is not open; otherwise the
        slot is free again, whatever close said, and nothing else changes. */
    method Closedir(i: int, closed: int) returns (rc: int)
      requires Valid() && (i == -1 || 0 <= i < |dirs|)
      modifies if i == -1 then {} else {dirs[i]}
      ensures Valid() && (i != -1 ==> !dirs[i].inUse)
      ensures rc == if i == -1 || !old(dirs[i].inUse) then -EBADF else closed
    {
      if i == -1 {
        return -EBADF;
      }
      rc := dirs[i].Close(closed);
    }
  }
}
