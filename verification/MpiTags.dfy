/**
 Message tags of src/mpi.c: the library's own tags, built from a collective's code and a 24-bit
 sequence number, and the tags clients may use.
 */
module MpiTags {
  import opened Words

  const TAG_UB := 0x3FFF_FFFF
  const TAG_HELLO := 0x7F00_0005
  const TAG_GO := 0x7F00_0006
  const ANY_SOURCE := -1
  const ANY_TAG := -1

  // The sequence numbers a tag can tell apart.
  const SEQ_SPAN: nat := 0x100_0000

  datatype Base = BarrierIn | BarrierOut | Bcast | Reduce

  function Code(b: Base): nat {
    match b
    case BarrierIn => 1
    case BarrierOut => 2
    case Bcast => 3
    case Reduce => 4
  }

  // coll_tag as the source computes it, on 32-bit words.
  function CollTagBits(code: bv32, seqno: bv32): bv32 {
    0x4000_0000 | (code << 24) | (seqno & 0x00FF_FFFF)
  }

  // The same tag on integers, for a counter that wraps at 2^32.
  function CollTag(b: Base, seqno: nat): int {
    0x4000_0000 + Code(b) * SEQ_SPAN + (seqno % 0x1_0000_0000) % SEQ_SPAN
  }

  /** The three fields of a tag do not overlap: or-ing them is adding them. */
  lemma TagFieldsAdd(code: bv32, seqno: bv32)
    requires code < 0x40
    ensures CollTagBits(code, seqno) == 0x4000_0000 + (code << 24) + (seqno & 0x00FF_FFFF)
  {
  }

  /** Code and sequence number can be read back from a tag, the latter modulo 2^24. */
  lemma TagBitsDecode(code: bv32, seqno: bv32)
    requires code < 0x40
    ensures (CollTagBits(code, seqno) >> 24) & 0x3F == code
    ensures CollTagBits(code, seqno) & 0x00FF_FFFF == seqno & 0x00FF_FFFF
  {
  }

  // The bits of a tag: those of the sequence number, then those of the code, then bit 30.
  lemma TagBits0(code: bv32, word: bv32)
    requires code < 0x40
    ensures (CollTagBits(code, word) & 0x1 != 0) == (word & 0x1 != 0)
    ensures (CollTagBits(code, word) & 0x2 != 0) == (word & 0x2 != 0)
    ensures (CollTagBits(code, word) & 0x4 != 0) == (word & 0x4 != 0)
    ensures (CollTagBits(code, word) & 0x8 != 0) == (word & 0x8 != 0)
    ensures (CollTagBits(code, word) & 0x10 != 0) == (word & 0x10 != 0)
    ensures (CollTagBits(code, word) & 0x20 != 0) == (word & 0x20 != 0)
    ensures (CollTagBits(code, word) & 0x40 != 0) == (word & 0x40 != 0)
    ensures (CollTagBits(code, word) & 0x80 != 0) == (word & 0x80 != 0)
  {
  }

  lemma TagBits1(code: bv32, word: bv32)
    requires code < 0x40
    ensures (CollTagBits(code, word) & 0x100 != 0) == (word & 0x100 != 0)
    ensures (CollTagBits(code, word) & 0x200 != 0) == (word & 0x200 != 0)
    ensures (CollTagBits(code, word) & 0x400 != 0) == (word & 0x400 != 0)
    ensures (CollTagBits(code, word) & 0x800 != 0) == (word & 0x800 != 0)
    ensures (CollTagBits(code, word) & 0x1000 != 0) == (word & 0x1000 != 0)
    ensures (CollTagBits(code, word) & 0x2000 != 0) == (word & 0x2000 != 0)
    ensures (CollTagBits(code, word) & 0x4000 != 0) == (word & 0x4000 != 0)
    ensures (CollTagBits(code, word) & 0x8000 != 0) == (word & 0x8000 != 0)
  {
  }

  lemma TagBits2(code: bv32, word: bv32)
    requires code < 0x40
    ensures (CollTagBits(code, word) & 0x1_0000 != 0) == (word & 0x1_0000 != 0)
    ensures (CollTagBits(code, word) & 0x2_0000 != 0) == (word & 0x2_0000 != 0)
    ensures (CollTagBits(code, word) & 0x4_0000 != 0) == (word & 0x4_0000 != 0)
    ensures (CollTagBits(code, word) & 0x8_0000 != 0) == (word & 0x8_0000 != 0)
    ensures (CollTagBits(code, word) & 0x10_0000 != 0) == (word & 0x10_0000 != 0)
    ensures (CollTagBits(code, word) & 0x20_0000 != 0) == (word & 0x20_0000 != 0)
    ensures (CollTagBits(code, word) & 0x40_0000 != 0) == (word & 0x40_0000 != 0)
    ensures (CollTagBits(code, word) & 0x80_0000 != 0) == (word & 0x80_0000 != 0)
  {
  }

  lemma TagBits3(code: bv32, word: bv32)
    requires code < 0x40
    ensures (CollTagBits(code, word) & 0x100_0000 != 0) == (code & 0x1 != 0)
    ensures (CollTagBits(code, word) & 0x200_0000 != 0) == (code & 0x2 != 0)
    ensures (CollTagBits(code, word) & 0x400_0000 != 0) == (code & 0x4 != 0)
    ensures (CollTagBits(code, word) & 0x800_0000 != 0) == (code & 0x8 != 0)
    ensures (CollTagBits(code, word) & 0x1000_0000 != 0) == (code & 0x10 != 0)
    ensures (CollTagBits(code, word) & 0x2000_0000 != 0) == (code & 0x20 != 0)
    ensures CollTagBits(code, word) & 0x4000_0000 != 0 && CollTagBits(code, word) & 0x8000_0000 == 0
  {
  }

  lemma SmallWord(code: bv32)
    requires code < 0x40
    ensures code & 0x40 == 0 && code & 0x80 == 0
    ensures Byte1(code) == 0 && Byte2(code) == 0 && Byte3(code) == 0
  {
    assert code & 0xFFFF_FFC0 == 0;
  }

  lemma LowBytesOfTag(code: bv32, word: bv32)
    requires code < 0x40
    ensures Byte0(CollTagBits(code, word)) == Byte0(word)
    ensures Byte1(CollTagBits(code, word)) == Byte1(word)
    ensures Byte2(CollTagBits(code, word)) == Byte2(word)
  {
    TagBits0(code, word);
    TagBits1(code, word);
    TagBits2(code, word);
  }

  lemma HighByteOfTag(code: bv32, word: bv32)
    requires code < 0x40
    ensures Byte3(CollTagBits(code, word)) == 64 + Byte0(code)
  {
    TagBits3(code, word);
    SmallWord(code);
  }

  lemma NumberOfTag(code: bv32, word: bv32)
    requires code < 0x40
    ensures Number(CollTagBits(code, word))
            == Byte0(word) + 0x100 * Byte1(word) + 0x1_0000 * Byte2(word) + 0x100_0000 * (64 + Number(code))
  {
    LowBytesOfTag(code, word);
    HighByteOfTag(code, word);
    SmallWord(code);
  }

  lemma LowThreeBytes(w0: nat, w1: nat, w2: nat, w3: nat, seqno: nat)
    requires w0 < 256 && w1 < 256 && w2 < 256
    requires w0 + 0x100 * w1 + 0x1_0000 * w2 + 0x100_0000 * w3 == seqno % 0x1_0000_0000
    ensures w0 + 0x100 * w1 + 0x1_0000 * w2 == (seqno % 0x1_0000_0000) % SEQ_SPAN
  {
  }

  /** The tag the source computes on words is the tag above on numbers. */
  lemma TagsAgree(b: Base, seqno: nat, code: bv32, word: bv32)
    requires code < 0x40 && Number(code) == Code(b) && Number(word) == seqno % 0x1_0000_0000
    ensures Number(CollTagBits(code, word)) == CollTag(b, seqno)
  {
    NumberOfTag(code, word);
    LowThreeBytes(Byte0(word), Byte1(word), Byte2(word), Byte3(word), seqno);
  }

  /** A collective's tag determines the operation and the sequence number modulo 2^24. */
  lemma CollTagInjective(b: Base, k: nat, b': Base, k': nat)
    ensures CollTag(b, k) == CollTag(b', k') <==> b == b' && k % SEQ_SPAN == k' % SEQ_SPAN
  {
    WrapKeepsLowBits(k);
    WrapKeepsLowBits(k');
  }

  lemma WrapKeepsLowBits(k: nat)
    ensures (k % 0x1_0000_0000) % SEQ_SPAN == k % SEQ_SPAN
  {
  }

  // Tags that are not a collective's: a client's, or the two of the startup rendezvous.
  predicate IsForeignTag(tag: int) {
    0 <= tag <= TAG_UB || tag == TAG_HELLO || tag == TAG_GO
  }

  lemma CollTagReserved(b: Base, k: nat)
    ensures !IsForeignTag(CollTag(b, k)) && TAG_UB < CollTag(b, k) < 0x8000_0000
    ensures CollTag(b, k) / 0x100_0000 ==
            match b case BarrierIn => 0x41 case BarrierOut => 0x42 case Bcast => 0x43 case Reduce => 0x44
  {
  }

  // MPI_Send's condition on a tag, as a 32-bit word. The sign bit is bit 31.
  predicate SendAccepts(tag: bv32) {
    !(tag >= 0x8000_0000 || (tag > 0x3FFF_FFFF && tag & 0x4000_0000 == 0))
  }

  /** MPI_Send refuses exactly the negative tags: every tag above the bound has bit 30 set, so the
      second half of its condition never applies and a client can send with a collective's own tag. */
  lemma SendRefusesOnlyNegativeTags(tag: bv32)
    ensures SendAccepts(tag) <==> tag < 0x8000_0000
    ensures SendAccepts(CollTagBits(4, 1))
  {
  }
}
