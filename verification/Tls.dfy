/**
 Thread-local storage setup of src/start.c: finding the PT_TLS template, placing a thread's block
 inside a fresh mapping, copying the initial image and writing the self-pointer.

 Addresses and sizes are 64-bit words. Clearing the low bits of a word with `& ~(a - 1)` is, for a
 power of two a, subtracting its remainder modulo a.
 */
module Tls {
  import opened Words

  const TWO64: nat := 0x1_0000_0000_0000_0000

  ghost predicate IsPow2(a: nat) {
    a == 1 || (a > 1 && a % 2 == 0 && IsPow2(a / 2))
  }

  // x & ~(a - 1)
  function Mask(x: nat, a: nat): nat
    requires a > 0
  {
    x - x % a
  }

  // align_up raises small alignments to 8.
  function Effective(a: nat): (b: nat)
    ensures b >= 8
  {
    if a < 8 then 8 else a
  }

  function AlignUp(v: nat, a: nat): nat {
    var b := Effective(a);
    Mask((v + b - 1) % TWO64, b)
  }

  // ---------------------------------------------------------------- multiples

  lemma AtLeastOnce(d: int, b: int)
    requires d >= 1 && b > 0
    ensures d * b >= b
  {
  }

  lemma MultipleOf(q: int, b: int)
    requires b > 0
    ensures (q * b) % b == 0
  {
    var p, r := (q * b) / b, (q * b) % b;
    assert (q - p) * b == r;
    if q > p {
      AtLeastOnce(q - p, b);
    } else if q < p {
      AtLeastOnce(p - q, b);
    }
  }

  lemma Quotient(x: int, b: int)
    requires b > 0 && x % b == 0
    ensures x == (x / b) * b
  {
  }

  lemma MultiplesAdd(x: int, y: int, b: int)
    requires b > 0 && x % b == 0 && y % b == 0
    ensures (x + y) % b == 0 && (x - y) % b == 0
  {
    Quotient(x, b);
    Quotient(y, b);
    assert x + y == (x / b + y / b) * b;
    assert x - y == (x / b - y / b) * b;
    MultipleOf(x / b + y / b, b);
    MultipleOf(x / b - y / b, b);
  }

  lemma MultiplesChain(x: int, b: int, a: int)
    requires a > 0 && b > 0 && x % b == 0 && b % a == 0
    ensures x % a == 0
  {
    Quotient(x, b);
    Quotient(b, a);
    assert x == ((x / b) * (b / a)) * a;
    MultipleOf((x / b) * (b / a), a);
  }

  lemma Pow2AndEight(a: nat)
    requires IsPow2(a)
    ensures a > 0
    ensures a < 8 ==> 8 % a == 0
    ensures a >= 8 ==> a % 8 == 0
  {
    if a > 1 {
      assert IsPow2(a / 2);
      if a > 2 {
        assert IsPow2(a / 4) by {
          assert a / 2 / 2 == a / 4;
        }
      }
    }
  }

  // ---------------------------------------------------------------- rounding

  // The least multiple of a that is at least v.
  function RoundUp(v: nat, a: nat): nat
    requires a > 0
  {
    Mask(v + a - 1, a)
  }

  lemma RoundUpBounds(v: nat, a: nat)
    requires a > 0
    ensures v <= RoundUp(v, a) <= v + a - 1 && RoundUp(v, a) % a == 0
  {
    var y := v + a - 1;
    assert RoundUp(v, a) == (y / a) * a;
    MultipleOf(y / a, a);
  }

  lemma RoundUpIsLeast(v: nat, a: nat, x: nat)
    requires a > 0 && x >= v && x % a == 0
    ensures x >= RoundUp(v, a)
  {
    RoundUpBounds(v, a);
    MultiplesAdd(RoundUp(v, a), x, a);
    SmallMultiple(RoundUp(v, a) - x, a);
  }

  lemma SmallMultiple(d: int, a: int)
    requires a > 0 && d % a == 0 && d < a
    ensures d <= 0
  {
    Quotient(d, a);
    if d / a >= 1 {
      AtLeastOnce(d / a, a);
    }
  }

  // align_up is rounding up to the alignment or to 8, whichever is larger, while nothing wraps. */
  lemma AlignUpRounds(v: nat, a: nat)
    requires v + Effective(a) - 1 < TWO64
    ensures AlignUp(v, a) == RoundUp(v, Effective(a))
  {
    var y := v + Effective(a) - 1;
    assert y % TWO64 == y;
  }

  /** While nothing wraps, align_up gives a multiple of the larger of alignment and 8 that is not below
      v, and no such multiple x is smaller. */
  lemma AlignUpIsLeastMultiple(v: nat, a: nat, x: nat)
    requires v + Effective(a) - 1 < TWO64
    ensures AlignUp(v, a) % Effective(a) == 0 && v <= AlignUp(v, a)
    ensures x >= v && x % Effective(a) == 0 ==> AlignUp(v, a) <= x
  {
    AlignUpRounds(v, a);
    RoundUpBounds(v, Effective(a));
    if x >= v && x % Effective(a) == 0 {
      RoundUpIsLeast(v, Effective(a), x);
    }
  }

  // ---------------------------------------------------------------- placement

  // What tls_find_template keeps of the PT_TLS header.
  datatype Template = Template(size: nat, align: nat, image: seq<int>)

  const NO_TEMPLATE := Template(0, 0, [])

  // The segment's own sizes: its image is no longer than the block, and nothing wraps.
  ghost predicate ValidSegment(memsz: nat, align: nat, filesz: nat) {
    IsPow2(align) && filesz <= memsz && memsz + Effective(align) - 1 < TWO64
  }

  function Need(size: nat, align: nat): nat {
    size + align + 64
  }

  function BlockBase(raw: nat, align: nat): nat {
    AlignUp(raw, align)
  }

  function ThreadPointer(raw: nat, size: nat, align: nat): nat {
    BlockBase(raw, align) + size
  }

  lemma AlignUpBounds(v: nat, a: nat)
    requires v + Effective(a) - 1 < TWO64
    ensures v <= AlignUp(v, a) <= v + Effective(a) - 1 && AlignUp(v, a) % Effective(a) == 0
  {
    AlignUpRounds(v, a);
    RoundUpBounds(v, Effective(a));
  }

  lemma EffectiveIsMultiple(x: nat, align: nat)
    requires IsPow2(align) && x % Effective(align) == 0
    ensures align > 0 && x % align == 0 && x % 8 == 0
  {
    Pow2AndEight(align);
    if align < 8 {
      MultiplesChain(x, 8, align);
    } else {
      MultiplesChain(x, align, 8);
    }
  }

  /** The image copy and the eight bytes of the self-pointer lie inside the mapping, in that order
      and without overlapping, and both the block and the thread pointer are aligned as the segment
      asks and for an 8-byte store. */
  lemma PlacementFits(raw: nat, memsz: nat, align: nat, filesz: nat)
    requires ValidSegment(memsz, align, filesz)
    requires raw + Need(AlignUp(memsz, align), align) <= TWO64
    ensures var size := AlignUp(memsz, align);
            var base, tp := BlockBase(raw, align), ThreadPointer(raw, size, align);
            && raw <= base && base + filesz <= base + memsz <= tp
            && tp + 8 <= raw + Need(size, align)
            && align > 0 && base % align == 0 && tp % align == 0
            && base % 8 == 0 && tp % 8 == 0
  {
    var size, base := AlignUp(memsz, align), BlockBase(raw, align);
    AlignUpBounds(memsz, align);
    AlignUpBounds(raw, align);
    MultiplesAdd(base, size, Effective(align));
    EffectiveIsMultiple(base, align);
    EffectiveIsMultiple(base + size, align);
  }

  /** Variant II of the ELF TLS layout puts the block at the thread pointer minus its size rounded up
      to the segment's alignment, which is where the linker's offsets point. The code does so if and
      only if that rounded size is a multiple of 8: always for an alignment of 8 or more. */
  lemma VariantTwoOffset(raw: nat, memsz: nat, align: nat)
    requires ValidSegment(memsz, align, 0)
    ensures var size := AlignUp(memsz, align);
            && (BlockBase(raw, align) == ThreadPointer(raw, size, align) - RoundUp(memsz, align) <==>
                RoundUp(memsz, align) % 8 == 0)
            && (align >= 8 ==> RoundUp(memsz, align) % 8 == 0)
  {
    Pow2AndEight(align);
    AlignUpRounds(memsz, align);
    RoundUpBounds(memsz, align);
    if align >= 8 {
      MultiplesChain(RoundUp(memsz, align), align, 8);
    } else {
      RoundUpBounds(memsz, 8);
      MultiplesChain(RoundUp(memsz, 8), 8, align);
      RoundUpIsLeast(memsz, align, RoundUp(memsz, 8));
      if RoundUp(memsz, align) % 8 == 0 {
        RoundUpIsLeast(memsz, 8, RoundUp(memsz, align));
      }
    }
  }

  /** One byte with alignment 1 is an instance that misses: the thread pointer is put eight bytes
      above the block, the linker expects it one byte above. */
  lemma ByteAlignedBlockMisses()
    ensures ValidSegment(1, 1, 1) && AlignUp(1, 1) == 8 && RoundUp(1, 1) == 1
  {
  }

  // ---------------------------------------------------------------- the self-pointer's bytes

  lemma WordBytes(x: nat)
    requires x < TWO64
    ensures FromLe(LeBytes(x, 8)) == x
  {
    assert Pow256(4) == 0x1_0000_0000;
    assert Pow256(8) == 0x1_0000 * Pow256(6) == 0x1_0000_0000 * Pow256(4);
    LeRoundTrip(x, 8);
  }

  // ---------------------------------------------------------------- the runtime's state

  const PT_TLS := 7

  // A program header, with the bytes the loaded image has at p_vaddr.
  datatype Phdr = Phdr(ptype: int, memsz: nat, align: nat, image: seq<int>)

  predicate IsFirstTls(headers: seq<Phdr>, i: int) {
    0 <= i < |headers| && headers[i].ptype == PT_TLS && forall j :: 0 <= j < i ==> headers[j].ptype != PT_TLS
  }

  function TemplateOf(ph: Phdr): Template {
    var align := if ph.align != 0 then ph.align else 8;
    Template(AlignUp(ph.memsz, align), align, ph.image)
  }

  // memcpy into the mapping.
  method CopyIn(mem: array<int>, at: nat, bytes: seq<int>)
    requires at + |bytes| <= mem.Length
    modifies mem
    ensures mem[at..at + |bytes|] == bytes
    ensures forall i :: 0 <= i < mem.Length && !(at <= i < at + |bytes|) ==> mem[i] == old(mem[i])
  {
    for i := 0 to |bytes|
      invariant forall k :: 0 <= k < i ==> mem[at + k] == bytes[k]
      invariant forall k :: 0 <= k < mem.Length && !(at <= k < at + i) ==> mem[k] == old(mem[k])
    {
      mem[at + i] := bytes[i];
    }
  }

  // The two writes of __tls_setup_self, at offsets into a zeroed mapping.
  method LayOut(mem: array<int>, at: nat, image: seq<int>, there: nat, tp: nat)
    requires at + |image| <= there && there + 8 <= mem.Length && tp < TWO64
    requires forall i :: 0 <= i < mem.Length ==> mem[i] == 0
    modifies mem
    ensures mem[at..at + |image|] == image
    ensures FromLe(mem[there..there + 8]) == tp
    ensures forall i :: 0 <= i < mem.Length && !(at <= i < at + |image|) && !(there <= i < there + 8) ==> mem[i] == 0
  {
    CopyIn(mem, at, image);
    label copied:
    CopyIn(mem, there, LeBytes(tp, 8));
    WordBytes(tp);
    assert mem[at..at + |image|] == old@copied(mem[at..at + |image|]);
  }

  class Runtime {
    var tls: Template

    constructor ()
      ensures tls == NO_TEMPLATE
    {
      tls := NO_TEMPLATE;
    }

    /** tls_find_template: the first PT_TLS header becomes the template; without one, or without
        program headers at all, the template stays as it was. */
    method FindTemplate(haveHeaders: bool, headers: seq<Phdr>)
      modifies this
      ensures (!haveHeaders || forall i :: 0 <= i < |headers| ==> headers[i].ptype != PT_TLS) ==> tls == old(tls)
      ensures forall i | haveHeaders && IsFirstTls(headers, i) :: tls == TemplateOf(headers[i])
    {
      if !haveHeaders {
        return;
      }
      for i := 0 to |headers|
        invariant tls == old(tls)
        invariant forall j :: 0 <= j < i ==> headers[j].ptype != PT_TLS
      {
        if headers[i].ptype == PT_TLS {
          tls := TemplateOf(headers[i]);
          return;
        }
      }
    }

    /** __tls_setup_self, given what mmap returned, the zeroed bytes of the mapping and what arch_prctl
        will return. Without a template, or without a mapping, nothing is written and the thread
        pointer is not set. Otherwise the block holds the image followed by zeros, the word at the
        thread pointer is the thread pointer, the rest of the mapping is left zero, and the result is
        that of arch_prctl, called with the thread pointer. */
    method SetupSelf(raw: int, mem: array<int>, prctl: int, ghost memsz: nat) returns (rc: int, done: bool, tp: nat)
      requires tls != NO_TEMPLATE ==>
                 ValidSegment(memsz, tls.align, |tls.image|) && tls.size == AlignUp(memsz, tls.align)
      requires raw >= 0 && tls.size != 0 ==> mem.Length == Need(tls.size, tls.align) && raw + mem.Length < TWO64
      requires forall i :: 0 <= i < mem.Length ==> mem[i] == 0
      modifies mem
      ensures done <==> tls.size != 0 && raw >= 0
      ensures rc == if tls.size == 0 then 0 else if raw < 0 then raw else prctl
      ensures !done ==> mem[..] == old(mem[..])
      ensures done ==>
                var base := BlockBase(raw, tls.align);
                && tp == ThreadPointer(raw, tls.size, tls.align)
                && raw <= base && base + |tls.image| <= tp && tp + 8 <= raw + mem.Length
                && mem[base - raw..base - raw + |tls.image|] == tls.image
                && FromLe(mem[tp - raw..tp - raw + 8]) == tp
                && forall i | 0 <= i < mem.Length ::
                     base - raw <= i < base - raw + |tls.image| || tp - raw <= i < tp - raw + 8 || mem[i] == 0
    {
      done, tp := false, 0;
      if tls.size == 0 {
        return 0, done, tp;
      }
      if raw < 0 {
        return raw, done, tp;
      }
      PlacementFits(raw, memsz, tls.align, |tls.image|);
      var base := BlockBase(raw, tls.align);
      tp := base + tls.size;
      LayOut(mem, base - raw, tls.image, tp - raw, tp);
      return prctl, true, tp;
    }

    /** Program start and every thread start after it, in terms of the program header alone: without a
        PT_TLS header, or with an empty one, nothing is set up. Otherwise the block, of as many bytes as
        the header asks for, begins with the image and goes on with zeros, ends below the thread pointer
        with less than one alignment to spare, and both it and the thread pointer are aligned as asked;
        the thread pointer points at itself. */
    method Start(haveHeaders: bool, headers: seq<Phdr>, ghost first: int, raw: int, mem: array<int>, prctl: int)
      returns (rc: int, done: bool, base: int, tp: int)
      requires tls == NO_TEMPLATE
      requires if haveHeaders && exists i :: IsFirstTls(headers, i) then IsFirstTls(headers, first) else first == -1
      requires first >= 0 ==> ValidHeader(headers[first])
      requires raw >= 0 && first >= 0 && headers[first].memsz > 0 ==>
                 mem.Length == MappedFor(headers[first]) && raw + mem.Length < TWO64
      requires forall i :: 0 <= i < mem.Length ==> mem[i] == 0
      modifies this, mem
      ensures done <==> first >= 0 && headers[first].memsz > 0 && raw >= 0
      ensures rc == if first < 0 || headers[first].memsz == 0 then 0 else if raw < 0 then raw else prctl
      ensures !done ==> mem[..] == old(mem[..])
      ensures done ==>
                var ph := headers[first];
                var align := if ph.align == 0 then 8 else ph.align;
                && raw <= base && base + ph.memsz <= tp < base + ph.memsz + Effective(align)
                && tp + 8 <= raw + mem.Length
                && align > 0 && base % align == 0 && tp % align == 0
                && mem[base - raw..base - raw + |ph.image|] == ph.image
                && (forall i :: base - raw + |ph.image| <= i < base - raw + ph.memsz ==> mem[i] == 0)
                && FromLe(mem[tp - raw..tp - raw + 8]) == tp
    {
      base := 0;
      FindTemplate(haveHeaders, headers);
      ghost var memsz := if first >= 0 then headers[first].memsz else 0;
      if first >= 0 {
        TemplateHolds(headers[first]);
      } else if haveHeaders {
        NoFirstTls(headers);
      }
      rc, done, tp := SetupSelf(raw, mem, prctl, memsz);
      if done {
        base := BlockBase(raw, tls.align);
        PlacementFits(raw, memsz, tls.align, |tls.image|);
      }
    }
  }

  // What the linker promises of a PT_TLS header: a power of two or 0, the image inside the block.
  ghost predicate ValidHeader(ph: Phdr) {
    ValidSegment(ph.memsz, if ph.align == 0 then 8 else ph.align, |ph.image|)
  }

  // The bytes asked of mmap: the block rounded up, its alignment, and 64 for the word above it.
  function MappedFor(ph: Phdr): nat {
    Need(TemplateOf(ph).size, TemplateOf(ph).align)
  }

  lemma TemplateHolds(ph: Phdr)
    requires ValidHeader(ph)
    ensures var tmpl, align := TemplateOf(ph), if ph.align == 0 then 8 else ph.align;
            && tmpl.align == align && tmpl.image == ph.image
            && ph.memsz <= tmpl.size < ph.memsz + Effective(align) && (tmpl.size == 0 <==> ph.memsz == 0)
  {
    var align := if ph.align == 0 then 8 else ph.align;
    AlignUpBounds(ph.memsz, align);
    if ph.memsz == 0 {
      AlignUpIsLeastMultiple(0, align, 0);
    }
  }

  lemma NoFirstTls(headers: seq<Phdr>)
    requires forall i :: !IsFirstTls(headers, i)
    ensures forall i :: 0 <= i < |headers| ==> headers[i].ptype != PT_TLS
  {
    forall i | 0 <= i < |headers|
      ensures headers[i].ptype != PT_TLS
    {
      NoneBefore(headers, i);
    }
  }

  lemma {:induction false} NoneBefore(headers: seq<Phdr>, i: nat)
    requires (forall k :: !IsFirstTls(headers, k)) && i < |headers|
    ensures forall j :: 0 <= j <= i ==> headers[j].ptype != PT_TLS
  {
    if i > 0 {
      NoneBefore(headers, i - 1);
    }
    assert !IsFirstTls(headers, i);
  }
}
