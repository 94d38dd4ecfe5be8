/**
 Addresses in src/socket.c: byte order, inet_addr and inet_ntoa_r. An address is a 32-bit word; a C
 string is the sequence of its characters before the terminating NUL.
 */
module DottedQuad {
  import opened Options
  import opened Words

  const TWO32: nat := 0x1_0000_0000
  const INADDR_NONE: nat := 0xFFFF_FFFF

  type Octet = x: nat | x < 256

  // ---------------------------------------------------------------- words and octets

  // The n low octets of a word, most significant first.
  function OctetsOf(v: nat, n: nat): (os: seq<Octet>)
    ensures |os| == n
  {
    if n == 0 then [] else OctetsOf(v / 256, n - 1) + [v % 256]
  }

  function WordOf(os: seq<Octet>): nat {
    if os == [] then 0 else WordOf(os[..|os| - 1]) * 256 + os[|os| - 1]
  }

  // v >> (8 * i)
  function Shifted(v: nat, i: nat): nat {
    if i == 0 then v else Shifted(v / 256, i - 1)
  }

  lemma {:induction false} WordOfOctets(v: nat, n: nat)
    requires v < Pow256(n)
    ensures WordOf(OctetsOf(v, n)) == v
  {
    if n > 0 {
      var os := OctetsOf(v, n);
      assert os[..|os| - 1] == OctetsOf(v / 256, n - 1);
      WordOfOctets(v / 256, n - 1);
    }
  }

  lemma {:induction false} OctetsOfWord(os: seq<Octet>)
    ensures WordOf(os) < Pow256(|os|) && OctetsOf(WordOf(os), |os|) == os
  {
    if os != [] {
      OctetsOfWord(os[..|os| - 1]);
      assert os == os[..|os| - 1] + [os[|os| - 1]];
    }
  }

  // An octet is what a shift and a mask give.
  lemma {:induction false} OctetAt(v: nat, n: nat, i: nat)
    requires i < n
    ensures OctetsOf(v, n)[n - 1 - i] == Shifted(v, i) % 256
  {
    if i > 0 {
      OctetAt(v / 256, n - 1, i - 1);
    }
  }

  // (a << 24) | (b << 16) | (c << 8) | d
  function Assembled(a: nat, b: nat, c: nat, d: nat): nat {
    a * 0x100_0000 + b * 0x1_0000 + c * 0x100 + d
  }

  lemma WordOfFour(os: seq<Octet>)
    requires |os| == 4
    ensures WordOf(os) == Assembled(os[0], os[1], os[2], os[3])
  {
    var a: nat, b: nat, c: nat := os[0], os[1], os[2];
    assert os[..3][..2] == os[..2] && os[..2][..1] == os[..1] && os[..1][..0] == [];
    assert WordOf(os[..1]) == a;
    assert WordOf(os[..2]) == a * 256 + b;
    assert WordOf(os[..3]) == (a * 256 + b) * 256 + c;
  }

  function Reversed(os: seq<Octet>): (r: seq<Octet>)
    ensures |r| == |os| && forall i :: 0 <= i < |os| ==> r[i] == os[|os| - 1 - i]
  {
    if os == [] then [] else Reversed(os[1..]) + [os[0]]
  }

  // htonl and ntohl: the same octets in the opposite order.
  function Htonl(v: nat): nat {
    WordOf(Reversed(OctetsOf(v, 4)))
  }

  lemma Below32(v: nat)
    ensures v < TWO32 <==> v < Pow256(4)
  {
    assert Pow256(1) == 256 && Pow256(2) == 0x1_0000 && Pow256(3) == 0x100_0000;
  }

  lemma HtonlReverses(v: nat)
    ensures Htonl(v) < TWO32 && OctetsOf(Htonl(v), 4) == Reversed(OctetsOf(v, 4))
  {
    OctetsOfWord(Reversed(OctetsOf(v, 4)));
    Below32(Htonl(v));
  }

  lemma HtonlInvolutive(v: nat)
    requires v < TWO32
    ensures Htonl(Htonl(v)) == v
  {
    HtonlReverses(v);
    assert Reversed(Reversed(OctetsOf(v, 4))) == OctetsOf(v, 4);
    Below32(v);
    WordOfOctets(v, 4);
  }

  // htonl as the source writes it, on bits.
  function HtonlBits(v: bv32): bv32 {
    ((v & 0x0000_00FF) << 24) | ((v & 0x0000_FF00) << 8) | ((v & 0x00FF_0000) >> 8) | ((v & 0xFF00_0000) >> 24)
  }

  lemma HtonlBitsInvolutive(v: bv32)
    ensures HtonlBits(HtonlBits(v)) == v
    ensures HtonlBits(v) >> 24 == v & 0xFF && (HtonlBits(v) >> 16) & 0xFF == (v >> 8) & 0xFF
    ensures (HtonlBits(v) >> 8) & 0xFF == (v >> 16) & 0xFF && HtonlBits(v) & 0xFF == v >> 24
  {
  }

  lemma FourOctets(a: Octet, b: Octet, c: Octet, d: Octet)
    ensures OctetsOf(Assembled(a, b, c, d), 4) == [a, b, c, d]
    ensures Htonl(Assembled(a, b, c, d)) == Assembled(d, c, b, a)
  {
    WordOfFour([a, b, c, d]);
    OctetsOfWord([a, b, c, d]);
    assert Reversed([a, b, c, d]) == [d, c, b, a];
    WordOfFour([d, c, b, a]);
  }

  // Where htonl puts each bit.
  lemma SwappedBits0(v: bv32)
    ensures (HtonlBits(v) & 0x1 != 0) == (v & 0x100_0000 != 0)
    ensures (HtonlBits(v) & 0x2 != 0) == (v & 0x200_0000 != 0)
    ensures (HtonlBits(v) & 0x4 != 0) == (v & 0x400_0000 != 0)
    ensures (HtonlBits(v) & 0x8 != 0) == (v & 0x800_0000 != 0)
    ensures (HtonlBits(v) & 0x10 != 0) == (v & 0x1000_0000 != 0)
    ensures (HtonlBits(v) & 0x20 != 0) == (v & 0x2000_0000 != 0)
    ensures (HtonlBits(v) & 0x40 != 0) == (v & 0x4000_0000 != 0)
    ensures (HtonlBits(v) & 0x80 != 0) == (v & 0x8000_0000 != 0)
  {
  }

  lemma SwappedBits1(v: bv32)
    ensures (HtonlBits(v) & 0x100 != 0) == (v & 0x1_0000 != 0)
    ensures (HtonlBits(v) & 0x200 != 0) == (v & 0x2_0000 != 0)
    ensures (HtonlBits(v) & 0x400 != 0) == (v & 0x4_0000 != 0)
    ensures (HtonlBits(v) & 0x800 != 0) == (v & 0x8_0000 != 0)
    ensures (HtonlBits(v) & 0x1000 != 0) == (v & 0x10_0000 != 0)
    ensures (HtonlBits(v) & 0x2000 != 0) == (v & 0x20_0000 != 0)
    ensures (HtonlBits(v) & 0x4000 != 0) == (v & 0x40_0000 != 0)
    ensures (HtonlBits(v) & 0x8000 != 0) == (v & 0x80_0000 != 0)
  {
  }

  lemma SwappedBits2(v: bv32)
    ensures (HtonlBits(v) & 0x1_0000 != 0) == (v & 0x100 != 0)
    ensures (HtonlBits(v) & 0x2_0000 != 0) == (v & 0x200 != 0)
    ensures (HtonlBits(v) & 0x4_0000 != 0) == (v & 0x400 != 0)
    ensures (HtonlBits(v) & 0x8_0000 != 0) == (v & 0x800 != 0)
    ensures (HtonlBits(v) & 0x10_0000 != 0) == (v & 0x1000 != 0)
    ensures (HtonlBits(v) & 0x20_0000 != 0) == (v & 0x2000 != 0)
    ensures (HtonlBits(v) & 0x40_0000 != 0) == (v & 0x4000 != 0)
    ensures (HtonlBits(v) & 0x80_0000 != 0) == (v & 0x8000 != 0)
  {
  }

  lemma SwappedBits3(v: bv32)
    ensures (HtonlBits(v) & 0x100_0000 != 0) == (v & 0x1 != 0)
    ensures (HtonlBits(v) & 0x200_0000 != 0) == (v & 0x2 != 0)
    ensures (HtonlBits(v) & 0x400_0000 != 0) == (v & 0x4 != 0)
    ensures (HtonlBits(v) & 0x800_0000 != 0) == (v & 0x8 != 0)
    ensures (HtonlBits(v) & 0x1000_0000 != 0) == (v & 0x10 != 0)
    ensures (HtonlBits(v) & 0x2000_0000 != 0) == (v & 0x20 != 0)
    ensures (HtonlBits(v) & 0x4000_0000 != 0) == (v & 0x40 != 0)
    ensures (HtonlBits(v) & 0x8000_0000 != 0) == (v & 0x80 != 0)
  {
  }

  lemma SwappedByte0(v: bv32)
    ensures Byte0(HtonlBits(v)) == Byte3(v)
  {
    SwappedBits0(v);
  }

  lemma SwappedByte1(v: bv32)
    ensures Byte1(HtonlBits(v)) == Byte2(v)
  {
    SwappedBits1(v);
  }

  lemma SwappedByte2(v: bv32)
    ensures Byte2(HtonlBits(v)) == Byte1(v)
  {
    SwappedBits2(v);
  }

  lemma SwappedByte3(v: bv32)
    ensures Byte3(HtonlBits(v)) == Byte0(v)
  {
    SwappedBits3(v);
  }

  lemma AssembledBytes(v: bv32)
    ensures Number(v) == Assembled(Byte3(v), Byte2(v), Byte1(v), Byte0(v))
  {
  }

  /** The shifts and masks of the source compute Htonl, on every word. */
  lemma HtonlAgrees(v: bv32)
    ensures Number(HtonlBits(v)) == Htonl(Number(v))
  {
    AssembledBytes(v);
    AssembledBytes(HtonlBits(v));
    SwappedByte0(v);
    SwappedByte1(v);
    SwappedByte2(v);
    SwappedByte3(v);
    FourOctets(Byte3(v), Byte2(v), Byte1(v), Byte0(v));
  }

  // ---------------------------------------------------------------- decimal octets

  predicate IsDigit(c: char) {
    '0' <= c <= '9'
  }

  function DigitValue(c: char): nat
    requires IsDigit(c)
  {
    c as int - '0' as int
  }

  function DigitChar(n: nat): (c: char)
    requires n < 10
    ensures IsDigit(c) && DigitValue(c) == n
  {
    ('0' as int + n) as char
  }

  predicate AllDigits(s: string) {
    forall i :: 0 <= i < |s| ==> IsDigit(s[i])
  }

  function Value(s: string): nat
    requires AllDigits(s)
  {
    if s == [] then 0 else Value(s[..|s| - 1]) * 10 + DigitValue(s[|s| - 1])
  }

  // One to three digits, at most 255.
  predicate IsOctetText(s: string) {
    1 <= |s| <= 3 && AllDigits(s) && Value(s) < 256
  }

  // Without redundant leading zeros.
  function Strip(s: string): string {
    if |s| > 1 && s[0] == '0' then Strip(s[1..]) else s
  }

  lemma ValueTo3(s: string)
    requires AllDigits(s)
    ensures |s| == 1 ==> Value(s) == DigitValue(s[0])
    ensures |s| == 2 ==> Value(s) == 10 * DigitValue(s[0]) + DigitValue(s[1])
    ensures |s| == 3 ==> Value(s) == 100 * DigitValue(s[0]) + 10 * DigitValue(s[1]) + DigitValue(s[2])
  {
    if 1 <= |s| <= 3 {
      var t := s[..|s| - 1];
      assert |t| > 0 ==> t[..|t| - 1] == s[..|s| - 2];
      assert |s| == 3 ==> s[..1][..0] == [];
    }
  }

  lemma DigitCharOf(c: char)
    requires IsDigit(c)
    ensures DigitChar(DigitValue(c)) == c
  {
  }

  lemma StripTo3(s: string)
    requires 1 <= |s| <= 3
    ensures |s| == 1 ==> Strip(s) == s
    ensures |s| == 2 ==> Strip(s) == if s[0] == '0' then [s[1]] else s
    ensures |s| == 3 ==> Strip(s) == if s[0] != '0' then s else if s[1] != '0' then [s[1], s[2]] else [s[2]]
  {
    if |s| == 3 {
      assert s[1..] == [s[1], s[2]] && s[1..][1..] == [s[2]];
      assert s[0] == '0' ==> Strip(s) == Strip([s[1], s[2]]);
    } else if |s| == 2 {
      assert s[1..] == [s[1]];
    }
  }

  // Three digits without redundant leading zeros.
  function Numeral(a: nat, b: nat, c: nat): (s: string)
    requires a < 10 && b < 10 && c < 10
    ensures 1 <= |s| <= 3 && AllDigits(s)
  {
    if a > 0 then [DigitChar(a), DigitChar(b), DigitChar(c)]
    else if b > 0 then [DigitChar(b), DigitChar(c)]
    else [DigitChar(c)]
  }

  function PrintOctet(o: Octet): (s: string)
    ensures 1 <= |s| <= 3 && AllDigits(s)
  {
    Numeral(o / 100, (o / 10) % 10, o % 10)
  }

  lemma NumeralValue(a: nat, b: nat, c: nat)
    requires a < 10 && b < 10 && c < 10
    ensures Value(Numeral(a, b, c)) == 100 * a + 10 * b + c
  {
    ValueTo3(Numeral(a, b, c));
  }

  lemma DigitsAreUnique(a: nat, b: nat, c: nat, o: nat)
    requires b < 10 && c < 10 && o == 100 * a + 10 * b + c
    ensures o / 100 == a && (o / 10) % 10 == b && o % 10 == c
  {
    assert o / 10 == 10 * a + b;
  }

  lemma DigitsAddUp(o: nat)
    ensures o / 100 * 100 + (o / 10) % 10 * 10 + o % 10 == o
  {
    var q := o / 10;
    DigitsAreUnique(q / 10, q % 10, o % 10, o);
  }

  lemma PrintedValue(o: Octet)
    ensures Value(PrintOctet(o)) == o
  {
    NumeralValue(o / 100, (o / 10) % 10, o % 10);
    DigitsAddUp(o);
  }

  lemma NumeralStrips(s: string)
    requires 1 <= |s| <= 3 && AllDigits(s)
    ensures |s| == 1 ==> Strip(s) == Numeral(0, 0, DigitValue(s[0]))
    ensures |s| == 2 ==> Strip(s) == Numeral(0, DigitValue(s[0]), DigitValue(s[1]))
    ensures |s| == 3 ==> Strip(s) == Numeral(DigitValue(s[0]), DigitValue(s[1]), DigitValue(s[2]))
  {
    StripTo3(s);
    forall i | 0 <= i < |s|
      ensures DigitChar(DigitValue(s[i])) == s[i]
    {
      DigitCharOf(s[i]);
    }
  }

  /** Printing the value of an octet's text gives that text without redundant leading zeros. */
  lemma PrintStrips(s: string)
    requires IsOctetText(s)
    ensures PrintOctet(Value(s)) == Strip(s)
  {
    ValueTo3(s);
    NumeralStrips(s);
    if |s| == 1 {
      DigitsAreUnique(0, 0, DigitValue(s[0]), Value(s));
    } else if |s| == 2 {
      DigitsAreUnique(0, DigitValue(s[0]), DigitValue(s[1]), Value(s));
    } else {
      DigitsAreUnique(DigitValue(s[0]), DigitValue(s[1]), DigitValue(s[2]), Value(s));
    }
  }

  // ---------------------------------------------------------------- parsing and printing

  // How many digits the string starts with.
  function DigitRun(s: string): (k: nat)
    ensures k <= |s|
  {
    if s == [] || !IsDigit(s[0]) then 0 else 1 + DigitRun(s[1..])
  }

  // n octets separated by dots, and nothing after them.
  function Parse(s: string, n: nat): (p: Option<seq<Octet>>)
    requires n > 0
    ensures p.Some? ==> |p.value| == n
    decreases n
  {
    var k := DigitRun(s);
    if !IsOctetText(s[..k]) then None
    else if n == 1 then if k == |s| then Some([Value(s[..k])]) else None
    else if k == |s| || s[k] != '.' then None
    else match Parse(s[k + 1..], n - 1)
         case None => None
         case Some(rest) => Some([Value(s[..k])] + rest)
  }

  predicate AllTexts(parts: seq<string>) {
    forall i :: 0 <= i < |parts| ==> IsOctetText(parts[i])
  }

  function Join(parts: seq<string>): string
    requires parts != []
  {
    if |parts| == 1 then parts[0] else parts[0] + "." + Join(parts[1..])
  }

  function Values(parts: seq<string>): (os: seq<Octet>)
    requires AllTexts(parts)
    ensures |os| == |parts| && forall i :: 0 <= i < |os| ==> os[i] == Value(parts[i])
  {
    if parts == [] then [] else [Value(parts[0])] + Values(parts[1..])
  }

  function Stripped(parts: seq<string>): (r: seq<string>)
    ensures |r| == |parts| && forall i :: 0 <= i < |r| ==> r[i] == Strip(parts[i])
  {
    if parts == [] then [] else [Strip(parts[0])] + Stripped(parts[1..])
  }

  function Texts(os: seq<Octet>): (parts: seq<string>)
    ensures |parts| == |os| && forall i :: 0 <= i < |parts| ==> parts[i] == PrintOctet(os[i])
  {
    if os == [] then [] else [PrintOctet(os[0])] + Texts(os[1..])
  }

  lemma {:induction false} RunIsUnique(s: string, k: nat)
    requires k <= |s| && AllDigits(s[..k]) && (k < |s| ==> !IsDigit(s[k]))
    ensures DigitRun(s) == k
    decreases k
  {
    if k > 0 {
      assert s[..k][0] == s[0];
      assert s[1..][..k - 1] == s[..k][1..];
      RunIsUnique(s[1..], k - 1);
    }
  }

  lemma OneParses(d: string)
    requires IsOctetText(d)
    ensures Parse(d, 1) == Some([Value(d)])
  {
    assert d[..|d|] == d;
    RunIsUnique(d, |d|);
  }

  lemma MoreParses(d: string, rest: string, n: nat, os: seq<Octet>)
    requires IsOctetText(d) && n > 0 && Parse(rest, n) == Some(os)
    ensures Parse(d + "." + rest, n + 1) == Some([Value(d)] + os)
  {
    var s := d + "." + rest;
    assert s[..|d|] == d && s[|d|] == '.' && s[|d| + 1..] == rest;
    RunIsUnique(s, |d|);
  }

  lemma OneMore(d: string, parts: seq<string>)
    requires parts != [] && IsOctetText(d) && AllTexts(parts)
    ensures AllTexts([d] + parts)
    ensures Join([d] + parts) == d + "." + Join(parts) && Values([d] + parts) == [Value(d)] + Values(parts)
  {
    assert ([d] + parts)[1..] == parts;
  }

  // `joined` is the string, so that only its first part is looked at.
  lemma OneMoreParses(parts: seq<string>, joined: string)
    requires |parts| > 1 && AllTexts(parts) && joined == Join(parts[1..])
    requires Parse(joined, |parts| - 1) == Some(Values(parts[1..]))
    ensures Parse(parts[0] + "." + joined, |parts|) == Some(Values(parts))
  {
    MoreParses(parts[0], joined, |parts| - 1, Values(parts[1..]));
  }

  /** Octet texts joined by dots parse to their values. */
  lemma {:induction false} JoinParses(parts: seq<string>)
    requires parts != [] && AllTexts(parts)
    ensures Parse(Join(parts), |parts|) == Some(Values(parts))
  {
    if |parts| == 1 {
      OneParses(parts[0]);
      assert Values(parts) == [Value(parts[0])];
    } else {
      JoinParses(parts[1..]);
      OneMoreParses(parts, Join(parts[1..]));
    }
  }

  lemma ParsedSplits(s: string, n: nat) returns (d: string, rest: string)
    requires n > 1 && Parse(s, n).Some?
    ensures IsOctetText(d) && s == d + "." + rest && Parse(rest, n - 1).Some?
    ensures Parse(s, n).value == [Value(d)] + Parse(rest, n - 1).value
  {
    var k := DigitRun(s);
    d, rest := s[..k], s[k + 1..];
  }

  lemma ParsedIsOne(s: string)
    requires Parse(s, 1).Some?
    ensures IsOctetText(s) && Parse(s, 1).value == [Value(s)]
  {
    assert s[..|s|] == s;
  }

  /** Whatever parses is that many octet texts joined by dots. */
  lemma {:induction false} ParsedIsJoin(s: string, n: nat) returns (parts: seq<string>)
    requires n > 0 && Parse(s, n).Some?
    ensures |parts| == n && AllTexts(parts) && s == Join(parts) && Parse(s, n).value == Values(parts)
    decreases n
  {
    if n == 1 {
      ParsedIsOne(s);
      parts := [s];
    } else {
      var d, rest := ParsedSplits(s, n);
      parts := ParsedIsJoin(rest, n - 1);
      OneMore(d, parts);
      parts := [d] + parts;
    }
  }

  lemma TextsAreTexts(os: seq<Octet>)
    ensures AllTexts(Texts(os)) && Values(Texts(os)) == os
  {
    forall i | 0 <= i < |os|
      ensures IsOctetText(Texts(os)[i]) && Value(Texts(os)[i]) == os[i]
    {
      PrintedValue(os[i]);
    }
  }

  lemma TextsStrip(parts: seq<string>)
    requires AllTexts(parts)
    ensures Texts(Values(parts)) == Stripped(parts)
  {
    forall i | 0 <= i < |parts|
      ensures Texts(Values(parts))[i] == Stripped(parts)[i]
    {
      PrintStrips(parts[i]);
    }
  }

  // ---------------------------------------------------------------- the two functions

  // What inet_addr returns.
  function InetAddrOf(s: string): nat {
    match Parse(s, 4)
    case None => INADDR_NONE
    case Some(os) => Htonl(WordOf(os))
  }

  // What inet_ntoa_r writes before the NUL.
  function InetNtoaOf(v: nat): string {
    Join(Texts(OctetsOf(Htonl(v), 4)))
  }

  /** Parsing a printed address gives the address back, for every address. */
  lemma PrintThenParse(v: nat)
    requires v < TWO32
    ensures Parse(InetNtoaOf(v), 4).Some? && InetAddrOf(InetNtoaOf(v)) == v
  {
    var os := OctetsOf(Htonl(v), 4);
    TextsAreTexts(os);
    JoinParses(Texts(os));
    HtonlReverses(v);
    Below32(Htonl(v));
    WordOfOctets(Htonl(v), 4);
    HtonlInvolutive(v);
  }

  /** Printing a parsed address gives the string back without redundant leading zeros, for every
      string that parses. */
  lemma ParseThenPrint(s: string) returns (parts: seq<string>)
    requires Parse(s, 4).Some?
    ensures |parts| == 4 && AllTexts(parts) && s == Join(parts)
    ensures InetNtoaOf(InetAddrOf(s)) == Join(Stripped(parts))
  {
    parts := ParsedIsJoin(s, 4);
    var os := Values(parts);
    OctetsOfWord(os);
    Below32(WordOf(os));
    HtonlInvolutive(WordOf(os));
    TextsStrip(parts);
  }

  lemma AllOnes(os: seq<Octet>)
    requires |os| == 4
    ensures Assembled(os[3], os[2], os[1], os[0]) == INADDR_NONE <==> os == [255, 255, 255, 255]
  {
    var ones: seq<Octet> := [255, 255, 255, 255];
    assert (forall i :: 0 <= i < 4 ==> os[i] == ones[i]) <==> os == ones;
  }

  /** INADDR_NONE is also the address of one dotted quad, and of no other that parses. */
  lemma NoneIsBroadcast(s: string)
    requires Parse(s, 4).Some?
    ensures InetAddrOf(s) == INADDR_NONE <==> Parse(s, 4).value == [255, 255, 255, 255]
  {
    var os := Parse(s, 4).value;
    AddressOf(s, os);
    FourOctets(os[0], os[1], os[2], os[3]);
    AllOnes(os);
  }

  // ---------------------------------------------------------------- the printing loop

  // The three conditional stores of one octet.
  method PutDigits(out: array<char>, at: nat, octet: Octet) returns (p: nat)
    requires at + 3 <= out.Length
    modifies out
    ensures p == at + |PrintOctet(octet)|
    ensures out[..p] == old(out[..at]) + PrintOctet(octet)
  {
    p := at;
    if octet >= 100 {
      out[p] := DigitChar(octet / 100);
      p := p + 1;
    }
    if octet >= 10 {
      out[p] := DigitChar((octet / 10) % 10);
      p := p + 1;
    }
    out[p] := DigitChar(octet % 10);
    p := p + 1;
  }

  // What is still to be written from part k on.
  function Pending(parts: seq<string>, k: nat): string
    requires k <= |parts|
  {
    if k == |parts| then "" else Join(parts[k..])
  }

  lemma PendingSteps(done: string, parts: seq<string>, k: nat)
    requires k < |parts|
    ensures done + Pending(parts, k) == done + parts[k] + (if k + 1 < |parts| then "." else "") + Pending(parts, k + 1)
  {
    assert parts[k..][1..] == parts[k + 1..];
  }

  // One pass of the loop.
  method PutOctet(out: array<char>, at: nat, h: nat, i: nat) returns (p: nat)
    requires i < 4 && at + 4 <= out.Length
    modifies out
    ensures at <= p <= at + 4 && (i == 0 ==> p < at + 4)
    ensures out[..p] == old(out[..at]) + Texts(OctetsOf(h, 4))[3 - i] + if i > 0 then "." else ""
  {
    OctetAt(h, 4, i);
    p := PutDigits(out, at, Shifted(h, i) % 256);
    if i > 0 {
      out[p] := '.';
      p := p + 1;
    }
  }

  /** inet_ntoa_r writes the printed address and its NUL, at most 16 characters in all. */
  method InetNtoaR(addr: nat, out: array<char>) returns (n: nat)
    requires addr < TWO32 && out.Length >= 16
    modifies out
    ensures n + 1 <= 16 && out[..n] == InetNtoaOf(addr) && out[n] == '\0'
  {
    var h := Htonl(addr);
    ghost var parts := Texts(OctetsOf(h, 4));
    var p, i := 0, 3;
    while i >= 0
      invariant -1 <= i <= 3 && p <= 4 * (3 - i) && (i < 0 ==> p < 16)
      invariant out[..p] + Pending(parts, 3 - i) == Join(parts)
    {
      PendingSteps(out[..p], parts, 3 - i);
      p := PutOctet(out, p, h, i);
      i := i - 1;
    }
    out[p] := '\0';
    n := p;
  }

  // ---------------------------------------------------------------- the parsing loop

  function Prepend(os: seq<Octet>, p: Option<seq<Octet>>): Option<seq<Octet>> {
    if p.None? then None else Some(os + p.value)
  }

  lemma {:induction false} RunReaches(t: string, j: nat)
    requires j <= |t| && AllDigits(t[..j])
    ensures DigitRun(t) >= j
    decreases j
  {
    if j > 0 {
      assert t[..j][0] == t[0] && t[1..][..j - 1] == t[..j][1..];
      RunReaches(t[1..], j - 1);
    }
  }

  lemma {:induction false} LongerIsLarger(t: string, j: nat, k: nat)
    requires j <= k <= |t| && AllDigits(t[..k])
    ensures AllDigits(t[..j]) && Value(t[..j]) <= Value(t[..k])
    decreases k
  {
    assert forall i :: 0 <= i < j ==> t[..j][i] == t[..k][i];
    if j < k {
      assert t[..k][..k - 1] == t[..k - 1];
      LongerIsLarger(t, j, k - 1);
    }
  }

  // Giving up in the middle of a number is right: the whole number is no octet.
  lemma TooLongFails(t: string, j: nat)
    requires j <= |t| && AllDigits(t[..j]) && (j > 3 || Value(t[..j]) > 255)
    ensures !IsOctetText(t[..DigitRun(t)])
  {
    RunReaches(t, j);
    if AllDigits(t[..DigitRun(t)]) {
      LongerIsLarger(t, j, DigitRun(t));
    }
  }

  lemma OneDigitMore(t: string, j: nat)
    requires j < |t| && AllDigits(t[..j]) && IsDigit(t[j])
    ensures AllDigits(t[..j + 1]) && Value(t[..j + 1]) == Value(t[..j]) * 10 + DigitValue(t[j])
  {
    assert t[..j + 1][..j] == t[..j];
  }

  // Reads one number starting at `start`, as the inner loop of inet_addr does.
  method ReadOctet(s: string, start: nat) returns (ok: bool, v: nat, pos: nat)
    requires start <= |s|
    ensures start <= pos <= |s|
    ensures var k := DigitRun(s[start..]);
            ok == IsOctetText(s[start..][..k]) && (ok ==> pos == start + k && v == Value(s[start..][..k]) < 256)
  {
    ghost var t := s[start..];
    pos, v, ok := start, 0, false;
    if pos == |s| || !IsDigit(s[pos]) {
      assert DigitRun(t) == 0;
      return;
    }
    var digits := 0;
    while pos < |s| && IsDigit(s[pos])
      invariant pos == start + digits <= |s| && digits <= 3
      invariant AllDigits(t[..digits]) && v == Value(t[..digits]) <= 255
      invariant digits == 0 ==> pos < |s| && IsDigit(s[pos])
    {
      OneDigitMore(t, digits);
      v := v * 10 + DigitValue(s[pos]);
      pos := pos + 1;
      digits := digits + 1;
      if digits > 3 || v > 255 {
        TooLongFails(t, digits);
        return;
      }
    }
    RunIsUnique(t, digits);
    ok := true;
  }

  // What is left to parse after n numbers.
  function Rest(s: string, pos: nat, n: nat): Option<seq<Octet>>
    requires pos <= |s| && n <= 4
  {
    if n < 4 then Parse(s[pos..], 4 - n) else if pos == |s| then Some([]) else None
  }

  lemma PrependTwice(os: seq<Octet>, x: Octet, p: Option<seq<Octet>>)
    ensures Prepend([], p) == p
    ensures Prepend(os, Prepend([x], p)) == Prepend(os + [x], p)
  {
    if p.Some? {
      assert [] + p.value == p.value;
      assert os + ([x] + p.value) == os + [x] + p.value;
    }
  }

  // One number read: what is left splits into it and what follows its dot.
  lemma RestSplits(s: string, pos: nat, n: nat, k: nat)
    requires pos <= |s| && n < 4 && k == DigitRun(s[pos..]) && IsOctetText(s[pos..][..k])
    ensures n == 3 ==> Rest(s, pos, n) == Prepend([Value(s[pos..][..k])], Rest(s, pos + k, 4))
    ensures n < 3 && pos + k < |s| && s[pos + k] == '.' ==>
              Rest(s, pos, n) == Prepend([Value(s[pos..][..k])], Rest(s, pos + k + 1, n + 1))
    ensures n < 3 && (pos + k == |s| || s[pos + k] != '.') ==> Rest(s, pos, n) == None
  {
    var t := s[pos..];
    if k < |t| {
      assert t[k] == s[pos + k] && t[k + 1..] == s[pos + k + 1..];
    }
    assert [Value(t[..k])] + [] == [Value(t[..k])];
  }

  // What reading one number means for the whole string.
  lemma OnePartMore(s: string, pos: nat, n: nat, k: nat, parts: seq<Octet>, whole: Option<seq<Octet>>)
    requires pos <= |s| && n < 4 && whole == Prepend(parts, Rest(s, pos, n))
    requires k == DigitRun(s[pos..]) && IsOctetText(s[pos..][..k])
    ensures n == 3 ==> whole == Prepend(parts + [Value(s[pos..][..k])], Rest(s, pos + k, 4))
    ensures n < 3 && pos + k < |s| && s[pos + k] == '.' ==>
              whole == Prepend(parts + [Value(s[pos..][..k])], Rest(s, pos + k + 1, n + 1))
    ensures n < 3 && (pos + k == |s| || s[pos + k] != '.') ==> whole == None
  {
    RestSplits(s, pos, n, k);
    if n == 3 {
      PrependTwice(parts, Value(s[pos..][..k]), Rest(s, pos + k, 4));
    } else if pos + k < |s| && s[pos + k] == '.' {
      PrependTwice(parts, Value(s[pos..][..k]), Rest(s, pos + k + 1, n + 1));
    }
  }

  lemma NoNumber(s: string, pos: nat, n: nat, parts: seq<Octet>)
    requires pos <= |s| && n < 4 && !IsOctetText(s[pos..][..DigitRun(s[pos..])])
    ensures Prepend(parts, Rest(s, pos, n)) == None
  {
  }

  // One pass of inet_addr's outer loop: a number and, unless it is the fourth, its dot.
  method ReadPart(s: string, pos: nat, n: nat, ghost parts: seq<Octet>, ghost whole: Option<seq<Octet>>)
    returns (ok: bool, x: nat, next: nat)
    requires pos <= |s| && n < 4 && whole == Prepend(parts, Rest(s, pos, n))
    ensures !ok ==> whole == None
    ensures ok ==> x < 256 && next <= |s| && whole == Prepend(parts + [x], Rest(s, next, n + 1))
  {
    ok, x, next := ReadOctet(s, pos);
    if !ok {
      NoNumber(s, pos, n, parts);
      return;
    }
    OnePartMore(s, pos, n, next - pos, parts, whole);
    if n + 1 < 4 {
      if next == |s| || s[next] != '.' {
        ok := false;
        return;
      }
      next := next + 1;
    }
  }

  lemma AddressOf(s: string, parts: seq<Octet>)
    requires |parts| == 4 && Parse(s, 4) == Some(parts)
    ensures InetAddrOf(s) == Htonl(Assembled(parts[0], parts[1], parts[2], parts[3]))
  {
    WordOfFour(parts);
  }

  /** inet_addr: the address if the string is a dotted quad, and INADDR_NONE otherwise. */
  method InetAddr(s: string) returns (v: nat)
    ensures v == InetAddrOf(s)
  {
    ghost var whole := Parse(s, 4);
    var parts: seq<Octet>, pos: nat, n: nat := [], 0, 0;
    assert s[0..] == s;
    PrependTwice([], 0, whole);
    while n < 4
      invariant n <= 4 && |parts| == n && pos <= |s|
      invariant whole == Prepend(parts, Rest(s, pos, n))
    {
      var ok, x, next := ReadPart(s, pos, n, parts, whole);
      if !ok {
        return INADDR_NONE;
      }
      parts, pos, n := parts + [x], next, n + 1;
    }
    if pos != |s| {
      return INADDR_NONE;
    }
    assert parts + [] == parts;
    AddressOf(s, parts);
    v := Htonl(Assembled(parts[0], parts[1], parts[2], parts[3]));
  }

  // ---------------------------------------------------------------- what the text looks like

  /** The characters are the decimal digits in their usual order. */
  lemma DigitsAreDecimal(n: nat)
    requires n < 10
    ensures DigitChar(n) == "0123456789"[n] && DigitValue("0123456789"[n]) == n
  {
  }

  lemma JoinFour(parts: seq<string>)
    requires |parts| == 4
    ensures Join(parts) == parts[0] + "." + (parts[1] + "." + (parts[2] + "." + parts[3]))
  {
    var p1, p2, p3 := parts[1..], parts[2..], parts[3..];
    assert p1[1..] == p2 && p2[1..] == p3;
    assert Join(p3) == parts[3];
    assert Join(p2) == parts[2] + "." + Join(p3);
    assert Join(p1) == parts[1] + "." + Join(p2);
  }

  /** An address prints as its four octets in decimal, the lowest byte of the word first, with dots
      between them. */
  lemma PrintsDotted(a: Octet, b: Octet, c: Octet, d: Octet)
    ensures InetNtoaOf(a + 0x100 * b + 0x1_0000 * c + 0x100_0000 * d)
            == PrintOctet(a) + "." + (PrintOctet(b) + "." + (PrintOctet(c) + "." + PrintOctet(d)))
    ensures Value(PrintOctet(a)) == a
  {
    var v := Assembled(d, c, b, a);
    FourOctets(d, c, b, a);
    FourOctets(a, b, c, d);
    assert OctetsOf(Htonl(v), 4) == [a, b, c, d];
    JoinFour(Texts([a, b, c, d]));
    PrintedValue(a);
  }
}
