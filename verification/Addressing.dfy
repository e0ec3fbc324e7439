/** The address plan of a site as text, and the 32-bit ranges and hardware addresses that text denotes. */
module Addressing {
  import opened Text
  import SiteIndex

  // ----- what the operator writes -----

  function Cidr(a: int, b: int, c: int, d: int, bits: int): string {
    PrintQuad(a, b, c, d) + "/" + Print(bits)
  }

  function PodCidr(idx: nat): string { Cidr(10, idx, 0, 0, 16) }
  function UePool(idx: nat): string { Cidr(172, idx, 0, 0, 16) }
  function AccessCidr(idx: nat): string { Cidr(10, 200, idx, 10, 24) }
  function CoreCidr(idx: nat): string { Cidr(10, 201, idx, 10, 24) }
  function AccessGateway(idx: nat): string { PrintQuad(10, 200, idx, 1) }
  function CoreGateway(idx: nat): string { PrintQuad(10, 201, idx, 1) }
  function CoreNextHop(idx: nat): string { PrintQuad(10, 201, idx, 10) }
  function GnbAddress(idx: nat): string { PrintQuad(10, 200, idx, 20) }

  // ----- what that text means -----

  predicate IsOctet(v: int) { 0 <= v < 256 }

  function Address(a: int, b: int, c: int, d: int): int {
    ((a * 256 + b) * 256 + c) * 256 + d
  }

  function ParseAddress(s: string): Option<int> {
    var q := ScanQuad(s);
    if |q| == 4 && IsOctet(q[0]) && IsOctet(q[1]) && IsOctet(q[2]) && IsOctet(q[3])
    then Some(Address(q[0], q[1], q[2], q[3])) else None
  }

  /** The addresses lo, lo + 1, ..., lo + size - 1. */
  datatype Range = Range(lo: int, size: nat) {
    predicate Holds(a: int) { lo <= a < lo + size }

    predicate Overlaps(other: Range) { lo < other.lo + other.size && other.lo < lo + size }
  }

  function BlockSize(bits: nat): (size: nat)
    requires bits <= 32
    ensures size > 0
    decreases 32 - bits
  {
    if bits == 32 then 1 else 2 * BlockSize(bits + 1)
  }

  lemma BlockSizes()
    ensures BlockSize(24) == 256 && BlockSize(16) == 65536
  {
    assert BlockSize(28) == 16;
    assert BlockSize(24) == 256;
    assert BlockSize(20) == 4096;
  }

  /** The block of 2^(32 - bits) addresses that `address` lies in. */
  function Network(address: int, bits: nat): Range
    requires bits <= 32
  {
    Range(address - address % BlockSize(bits), BlockSize(bits))
  }

  /** The network a CIDR text denotes: the block its address lies in. */
  function ParseCidr(s: string): Option<Range> {
    var parts := Split(s, '/');
    if |parts| != 2 then None
    else
      var address, bits := ParseAddress(parts[0]), ScanInt(parts[1]);
      if address.Some? && bits.Some? && bits.value.1 == "" && 0 <= bits.value.0 <= 32
      then
        Some(Network(address.value, bits.value.0))
      else None
  }

  lemma PrintedWithout(v: nat, sep: char)
    requires !IsDigit(sep)
    ensures sep !in Print(v)
  {
  }

  lemma QuadWithout(a: nat, b: nat, c: nat, d: nat, sep: char)
    requires !IsDigit(sep) && sep != '.'
    ensures sep !in PrintQuad(a, b, c, d)
  {
    PrintedWithout(a, sep);
    PrintedWithout(b, sep);
    PrintedWithout(c, sep);
    PrintedWithout(d, sep);
  }

  lemma AddressOfPrinted(a: nat, b: nat, c: nat, d: nat)
    requires IsOctet(a) && IsOctet(b) && IsOctet(c) && IsOctet(d)
    ensures ParseAddress(PrintQuad(a, b, c, d)) == Some(Address(a, b, c, d))
  {
    ScanPrintedQuad(a, b, c, d, "");
    assert PrintQuad(a, b, c, d) + "" == PrintQuad(a, b, c, d);
  }

  lemma ParseParts(s: string, quad: string, tail: string, address: int, bits: nat)
    requires Split(s, '/') == [quad, tail] && bits <= 32
    requires ParseAddress(quad) == Some(address) && ScanInt(tail) == Some((bits, ""))
    ensures ParseCidr(s) == Some(Network(address, bits))
  {
  }

  /** A printed CIDR denotes the block its address lies in. */
  lemma RangeOfPrinted(a: nat, b: nat, c: nat, d: nat, bits: nat)
    requires IsOctet(a) && IsOctet(b) && IsOctet(c) && IsOctet(d) && bits <= 32
    ensures ParseCidr(Cidr(a, b, c, d, bits)) == Some(Network(Address(a, b, c, d), bits))
  {
    AddressOfPrinted(a, b, c, d);
    ScanPrinted(bits, "");
    assert Print(bits) + "" == Print(bits);
    CidrParts(a, b, c, d, bits);
    ParseParts(Cidr(a, b, c, d, bits), PrintQuad(a, b, c, d), Print(bits), Address(a, b, c, d), bits);
  }

  lemma CidrParts(a: nat, b: nat, c: nat, d: nat, bits: nat)
    ensures Split(Cidr(a, b, c, d, bits), '/') == [PrintQuad(a, b, c, d), Print(bits)]
  {
    QuadWithout(a, b, c, d, '/');
    PrintedWithout(bits, '/');
    SplitHead(PrintQuad(a, b, c, d), Print(bits), '/');
    SplitHead(Print(bits), "", '/');
    assert Cidr(a, b, c, d, bits) == PrintQuad(a, b, c, d) + ['/'] + Print(bits);
  }

  /** The four ranges of a site: pods, UE pool, N3 and N6. */
  function Ranges(idx: nat): seq<Range> {
    [Range(Address(10, idx, 0, 0), 65536), Range(Address(172, idx, 0, 0), 65536),
     Range(Address(10, 200, idx, 0), 256), Range(Address(10, 201, idx, 0), 256)]
  }

  /** The derived texts, in the order of `Ranges`. */
  function Cidrs(idx: nat): seq<string> {
    [PodCidr(idx), UePool(idx), AccessCidr(idx), CoreCidr(idx)]
  }

  /** Each derived text denotes exactly its range. */
  lemma DerivedRanges(idx: nat, i: nat)
    requires idx < 256 && i < 4
    ensures ParseCidr(Cidrs(idx)[i]) == Some(Ranges(idx)[i])
  {
    if i == 0 {
      WideRange(10, idx);
    } else if i == 1 {
      WideRange(172, idx);
    } else if i == 2 {
      NarrowRange(200, idx);
    } else {
      NarrowRange(201, idx);
    }
  }

  lemma WideRange(a: nat, b: nat)
    requires a < 256 && b < 256
    ensures ParseCidr(Cidr(a, b, 0, 0, 16)) == Some(Range(Address(a, b, 0, 0), 65536))
  {
    RangeOfPrinted(a, b, 0, 0, 16);
    SlashSixteen(a, b);
  }

  lemma NarrowRange(b: nat, c: nat)
    requires b < 256 && c < 256
    ensures ParseCidr(Cidr(10, b, c, 10, 24)) == Some(Range(Address(10, b, c, 0), 256))
  {
    RangeOfPrinted(10, b, c, 10, 24);
    SlashTwentyFour(10, b, c, 10);
  }

  lemma SlashSixteen(a: nat, b: nat)
    ensures Network(Address(a, b, 0, 0), 16) == Range(Address(a, b, 0, 0), 65536)
  {
    BlockSizes();
  }

  lemma SlashTwentyFour(a: nat, b: nat, c: nat, d: nat)
    requires d < 256
    ensures Network(Address(a, b, c, d), 24) == Range(Address(a, b, c, 0), 256)
  {
    BlockSizes();
  }

  ghost predicate SomeOverlap(x: seq<Range>, y: seq<Range>) {
    exists i, j :: 0 <= i < |x| && 0 <= j < |y| && x[i].Overlaps(y[j])
  }

  /** Two sites share an address in some derived range exactly when their names have the same index. */
  lemma OverlapIffSameIndex(name: string, other: string)
    ensures SomeOverlap(Ranges(SiteIndex.Index(name)), Ranges(SiteIndex.Index(other)))
       <==> SiteIndex.Index(name) == SiteIndex.Index(other)
  {
    var m, n := SiteIndex.Index(name), SiteIndex.Index(other);
    if m == n {
      assert Ranges(m)[0].Overlaps(Ranges(n)[0]);
    }
  }

  /** Within one site the ranges are pairwise disjoint. */
  lemma RangesDisjoint(name: string, i: nat, j: nat)
    requires i < j < 4
    ensures !Ranges(SiteIndex.Index(name))[i].Overlaps(Ranges(SiteIndex.Index(name))[j])
  {
  }

  /** Gateway, UPF and gNB are three different hosts of the N3 range, and gateway and UPF two of the N6 range. */
  lemma HostsDistinct(name: string)
    ensures var idx := SiteIndex.Index(name);
      var n3, n6 := ParseCidr(AccessCidr(idx)), ParseCidr(CoreCidr(idx));
      var gw, upf, gnb := ParseAddress(AccessGateway(idx)), ParseAddress(Split(AccessCidr(idx), '/')[0]),
        ParseAddress(GnbAddress(idx));
      var coreGw, nextHop := ParseAddress(CoreGateway(idx)), ParseAddress(CoreNextHop(idx));
      && n3.Some? && n6.Some? && gw.Some? && upf.Some? && gnb.Some? && coreGw.Some? && nextHop.Some?
      && n3.value.Holds(gw.value) && n3.value.Holds(upf.value) && n3.value.Holds(gnb.value)
      && gw != upf && upf != gnb && gw != gnb
      && n6.value.Holds(coreGw.value) && n6.value.Holds(nextHop.value) && coreGw != nextHop
      && ParseAddress(Split(CoreCidr(idx), '/')[0]) == nextHop
  {
    var idx := SiteIndex.Index(name);
    DerivedRanges(idx, 2);
    DerivedRanges(idx, 3);
    assert Some(Ranges(idx)[2]) == ParseCidr(AccessCidr(idx)) && Some(Ranges(idx)[3]) == ParseCidr(CoreCidr(idx));
    AddressOfPrinted(10, 200, idx, 1);
    AddressOfPrinted(10, 200, idx, 10);
    AddressOfPrinted(10, 200, idx, 20);
    AddressOfPrinted(10, 201, idx, 1);
    AddressOfPrinted(10, 201, idx, 10);
    CidrParts(10, 200, idx, 10, 24);
    CidrParts(10, 201, idx, 10, 24);
  }

  // ----- the pinned hardware address of the gNB -----

  function HexDigit(d: nat): char
    requires d < 16
  {
    "0123456789abcdef"[d]
  }

  /** `%02x` of one byte. */
  function Hex2(v: int): (s: string)
    requires IsOctet(v)
    ensures |s| == 2
  {
    [HexDigit(v / 16), HexDigit(v % 16)]
  }

  /** The low byte of a whole text read as a number, or of `fallback` when it is none. */
  function LowByte(s: string, fallback: int): (v: int)
    requires IsOctet(fallback)
    ensures IsOctet(v)
  {
    var n := ScanInt(s);
    if n.Some? && n.value.1 == "" && (s == "" || (s[0] != ' ' && s[0] != '\t')) then n.value.0 % 256 else fallback
  }

  function GnbMac(gnbAddress: string): string {
    var o := Split(gnbAddress, '.');
    if |o| == 4
    then "02:00:" + Hex2(LowByte(o[0], 10)) + ":" + Hex2(LowByte(o[1], 200)) + ":"
         + Hex2(LowByte(o[2], 193)) + ":" + Hex2(LowByte(o[3], 20))
    else "02:00:00:00:00:01"
  }

  lemma QuadParts(a: nat, b: nat, c: nat, d: nat)
    ensures Split(PrintQuad(a, b, c, d), '.') == [Print(a), Print(b), Print(c), Print(d)]
  {
    var parts := [Print(a), Print(b), Print(c), Print(d)];
    forall p | p in parts ensures '.' !in p {
      PrintedWithout(a, '.');
      PrintedWithout(b, '.');
      PrintedWithout(c, '.');
      PrintedWithout(d, '.');
    }
    SplitJoin(parts, '.');
    assert parts[1..] == [Print(b), Print(c), Print(d)];
    assert parts[1..][1..] == [Print(c), Print(d)];
    assert parts[1..][1..][1..] == [Print(d)];
    assert Join(parts[1..][1..][1..], '.') == Print(d);
    assert Join(parts[1..][1..], '.') == Print(c) + ['.'] + Print(d);
    assert Join(parts[1..], '.') == Print(b) + ['.'] + (Print(c) + ['.'] + Print(d));
    assert Join(parts, '.') == PrintQuad(a, b, c, d);
  }

  lemma LowByteOfPrinted(v: nat, fallback: int)
    requires IsOctet(v) && IsOctet(fallback)
    ensures LowByte(Print(v), fallback) == v
  {
    ScanPrinted(v, "");
    assert Print(v) + "" == Print(v);
    assert IsDigit(Print(v)[0]);
  }

  lemma MacOfPrinted(a: nat, b: nat, c: nat, d: nat)
    requires IsOctet(a) && IsOctet(b) && IsOctet(c) && IsOctet(d)
    ensures GnbMac(PrintQuad(a, b, c, d)) ==
            "02:00:" + Hex2(a) + ":" + Hex2(b) + ":" + Hex2(c) + ":" + Hex2(d)
  {
    QuadParts(a, b, c, d);
    LowByteOfPrinted(a, 10);
    LowByteOfPrinted(b, 200);
    LowByteOfPrinted(c, 193);
    LowByteOfPrinted(d, 20);
  }

  lemma Hex2Injective(v: int, w: int)
    requires IsOctet(v) && IsOctet(w) && v != w
    ensures Hex2(v) != Hex2(w)
  {
    HexDigitInjective(v / 16, w / 16);
    HexDigitInjective(v % 16, w % 16);
    assert Hex2(v)[0] == HexDigit(v / 16) && Hex2(w)[0] == HexDigit(w / 16);
    assert Hex2(v)[1] == HexDigit(v % 16) && Hex2(w)[1] == HexDigit(w % 16);
  }

  lemma HexDigitInjective(d: nat, e: nat)
    requires d < 16 && e < 16
    ensures HexDigit(d) == HexDigit(e) ==> d == e
  {
  }

  /** The radio of a gNB: whether it is an SDR, and where a networked one is reached. */
  datatype Radio = Radio(uhd: bool, nic: string, address: string) {
    predicate Networked() { uhd && nic != "" && '.' in address }
  }

  /** The hardware address on the N3 interface of the pod; a gNB with a networked SDR is given none. */
  function PinnedMac(gnbAddress: string, radio: Radio): Option<string> {
    if radio.Networked() then None else Some(GnbMac(gnbAddress))
  }

  /**
   * Two sites have the same gNB address exactly when their indices are equal. Their gNBs are pinned to the same
   * hardware address exactly when they are pinned at all and their indices are equal.
   */
  lemma MacsDiffer(name: string, other: string, radio: Radio, otherRadio: Radio)
    ensures var g, h := GnbAddress(SiteIndex.Index(name)), GnbAddress(SiteIndex.Index(other));
      && (g == h <==> SiteIndex.Index(name) == SiteIndex.Index(other))
      && ((exists mac :: PinnedMac(g, radio) == Some(mac) && PinnedMac(h, otherRadio) == Some(mac)) <==>
            !radio.Networked() && !otherRadio.Networked() && SiteIndex.Index(name) == SiteIndex.Index(other))
  {
    var m, n := SiteIndex.Index(name), SiteIndex.Index(other);
    if m != n {
      MacsOfIndices(m, n);
      GnbsDiffer(m, n);
    } else if !radio.Networked() && !otherRadio.Networked() {
      assert PinnedMac(GnbAddress(m), radio) == Some(GnbMac(GnbAddress(m)));
    }
  }

  lemma MacsOfIndices(m: nat, n: nat)
    requires m < 256 && n < 256 && m != n
    ensures GnbMac(GnbAddress(m)) != GnbMac(GnbAddress(n))
  {
    MacOfPrinted(10, 200, m, 20);
    MacOfPrinted(10, 200, n, 20);
    Hex2Injective(m, n);
    MacText("02:00:" + Hex2(10) + ":" + Hex2(200) + ":", Hex2(m), Hex2(n), ":" + Hex2(20));
    MacGrouping(Hex2(10), Hex2(200), Hex2(m), Hex2(20));
    MacGrouping(Hex2(10), Hex2(200), Hex2(n), Hex2(20));
  }

  lemma MacText(head: string, x: string, y: string, tail: string)
    requires |x| == |y| && x != y
    ensures head + x + tail != head + y + tail
  {
    assert (head + x + tail)[|head|..|head| + |x|] == x;
    assert (head + y + tail)[|head|..|head| + |y|] == y;
  }

  lemma MacGrouping(a: string, b: string, c: string, d: string)
    ensures "02:00:" + a + ":" + b + ":" + c + ":" + d == "02:00:" + a + ":" + b + ":" + c + (":" + d)
  {
  }

  lemma GnbsDiffer(m: nat, n: nat)
    requires m < 256 && n < 256 && m != n
    ensures GnbAddress(m) != GnbAddress(n)
  {
    AddressOfPrinted(10, 200, m, 20);
    AddressOfPrinted(10, 200, n, 20);
  }
}
