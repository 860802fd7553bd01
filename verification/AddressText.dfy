/**
 * Addresses as text: dotted quads with the prefix notation of section 3.1 of RFC 4632 where the mask is a prefix,
 * and with a dotted mask otherwise.
 */
module AddressText {
  import opened Common
  import opened Decimal
  import opened IptablesDef
  import opened TextBuffer
  import opened TextSplit

  // ----- byte order -----

  function Quad(a: nat, b: nat, c: nat, d: nat): (n: u32)
    requires a < 256 && b < 256 && c < 256 && d < 256
  {
    a * 0x1000000 + b * 0x10000 + c * 0x100 + d
  }

  /** The byte that counts `weight` times. */
  function Byte(n: u32, weight: int): (b: nat)
    requires weight == 1 || weight == 0x100 || weight == 0x10000 || weight == 0x1000000
    ensures b < 256
  {
    n / weight % 256
  }

  lemma QuadOfBytes(n: u32)
    ensures Quad(Byte(n, 0x1000000), Byte(n, 0x10000), Byte(n, 0x100), Byte(n, 1)) == n
  {
    var m := n / 0x100;
    var k := m / 0x100;
    hide Byte;
    NextByte(n, 1, n);
    NextByte(n, 0x100, m);
    NextByte(n, 0x10000, k);
  }

  /** A quotient by 256 times the weight is taken in two steps, and what goes over is the byte at the weight. */
  lemma NextByte(n: u32, weight: nat, high: nat)
    requires weight == 1 || weight == 0x100 || weight == 0x10000
    requires high == n / weight
    ensures n / (weight * 0x100) == high / 0x100 && Byte(n, weight) == high % 0x100
    ensures high == high / 0x100 * 0x100 + Byte(n, weight)
  {
    var upper, byte := high / 0x100, high % 0x100;
    assert high == upper * 0x100 + byte;
    assert n == high * weight + n % weight;
    if weight == 0x100 {
      Quotient(n, 0x10000, upper, byte * 0x100 + n % 0x100);
    } else if weight == 0x10000 {
      Quotient(n, 0x1000000, upper, byte * 0x10000 + n % 0x10000);
    }
  }

  /** Network to host byte order on a little-endian machine: the four bytes reversed. */
  function Ntohl(n: u32): u32 {
    Quad(Byte(n, 1), Byte(n, 0x100), Byte(n, 0x10000), Byte(n, 0x1000000))
  }

  lemma NtohlInvolution(n: u32)
    ensures Ntohl(Ntohl(n)) == n
  {
    var m := Ntohl(n);
    QuadOfBytes(n);
    BytesOfQuad(Byte(n, 1), Byte(n, 0x100), Byte(n, 0x10000), Byte(n, 0x1000000));
  }

  lemma BytesOfQuad(a: nat, b: nat, c: nat, d: nat)
    requires a < 256 && b < 256 && c < 256 && d < 256
    ensures var n := Quad(a, b, c, d);
            Byte(n, 0x1000000) == a && Byte(n, 0x10000) == b && Byte(n, 0x100) == c && Byte(n, 1) == d
  {
    LastByte(0, a);
    LastByte(a, b);
    LastByte(a * 256 + b, c);
    LastByte(a * 0x10000 + b * 256 + c, d);
    Quotient(Quad(a, b, c, d), 0x1000000, a, b * 0x10000 + c * 0x100 + d);
    Quotient(Quad(a, b, c, d), 0x10000, a * 256 + b, c * 0x100 + d);
    Quotient(Quad(a, b, c, d), 0x100, a * 0x10000 + b * 256 + c, d);
  }

  lemma LastByte(high: nat, low: nat)
    requires low < 256
    ensures (high * 256 + low) % 256 == low
  {
  }

  lemma Quotient(n: nat, weight: nat, high: nat, low: nat)
    requires weight == 0x100 || weight == 0x10000 || weight == 0x1000000
    requires n == high * weight + low && low < weight
    ensures n / weight == high
  {
  }

  // ----- prefix masks -----

  function Power2(k: nat): nat {
    if k == 0 then 1 else 2 * Power2(k - 1)
  }

  function Bit(n: nat, k: nat): nat {
    if k == 0 then n % 2 else Bit(n / 2, k - 1)
  }

  /** The highest `ones` of 32 bits are set and the others are not. */
  ghost predicate LeadingOnes(mask: u32, ones: nat) {
    forall k | 0 <= k < 32 :: Bit(mask, k) == if k >= 32 - ones then 1 else 0
  }

  lemma {:induction false} BitsOfMask(width: nat, zeros: nat, k: nat)
    requires zeros <= width && k < width
    ensures Power2(zeros) <= Power2(width) && Bit(Power2(width) - Power2(zeros), k) == if k >= zeros then 1 else 0
  {
    PowerMonotone(zeros, width);
    if zeros > 0 {
      PowerMonotone(zeros - 1, width - 1);
      assert Power2(width) - Power2(zeros) == 2 * (Power2(width - 1) - Power2(zeros - 1));
      if k > 0 {
        BitsOfMask(width - 1, zeros - 1, k - 1);
      }
    } else {
      PowerMonotone(0, width - 1);
      assert Power2(width) - 1 == 2 * (Power2(width - 1) - 1) + 1;
      if k > 0 {
        BitsOfMask(width - 1, 0, k - 1);
      }
    }
  }

  lemma {:induction false} PowerMonotone(a: nat, b: nat)
    requires a <= b
    ensures 0 < Power2(a) <= Power2(b)
  {
    if b > 0 {
      if a == b {
        PowerMonotone(a - 1, b - 1);
      } else {
        PowerMonotone(a, b - 1);
      }
    }
  }

  lemma {:induction false} BitsDetermine(a: nat, b: nat, width: nat)
    requires a < Power2(width) && b < Power2(width) && forall k: nat | k < width :: Bit(a, k) == Bit(b, k)
    ensures a == b
  {
    if width > 0 {
      assert Bit(a, 0) == Bit(b, 0);
      forall k: nat | k < width - 1 ensures Bit(a / 2, k) == Bit(b / 2, k) {
        assert Bit(a, k + 1) == Bit(b, k + 1);
      }
      BitsDetermine(a / 2, b / 2, width - 1);
    }
  }

  lemma Power32()
    ensures Power2(32) == U32_MODULUS
  {
    assert Power2(8) == 256;
    assert Power2(16) == 65536;
    assert Power2(24) == 16777216;
  }

  /** Exactly the numbers 2^32 - 2^i have 32 - i leading ones and then zeros. */
  lemma LeadingOnesIff(mask: u32, i: nat)
    requires i <= 32
    ensures LeadingOnes(mask, 32 - i) <==> mask == U32_MODULUS - Power2(i)
  {
    Power32();
    PowerMonotone(i, 32);
    var prefix := U32_MODULUS - Power2(i);
    forall k: nat | k < 32 ensures Bit(prefix, k) == if k >= i then 1 else 0 {
      BitsOfMask(32, i, k);
    }
    if LeadingOnes(mask, 32 - i) {
      PowerMonotone(0, i);
      BitsDetermine(mask, prefix, 32);
    }
  }

  /** The number of zeros found by the search, from i on; 32 if the mask is no prefix mask. */
  function SearchMask(hostMask: u32, i: nat): (zeros: nat)
    requires i <= 32
    ensures i <= zeros <= 32
    decreases 32 - i
  {
    if i == 32 || hostMask == U32_MODULUS - Power2(i) then i else SearchMask(hostMask, i + 1)
  }

  lemma {:induction false} SearchFinds(hostMask: u32, i: nat)
    requires i <= 32
    ensures SearchMask(hostMask, i) < 32 ==> hostMask == U32_MODULUS - Power2(SearchMask(hostMask, i))
    ensures SearchMask(hostMask, i) == 32 ==> forall k | i <= k < 32 :: hostMask != U32_MODULUS - Power2(k)
    decreases 32 - i
  {
    if i < 32 && hostMask != U32_MODULUS - Power2(i) {
      SearchFinds(hostMask, i + 1);
    }
  }

  /** The search finds i if and only if the mask is 32 - i leading ones (1 to 32 of them) followed by zeros. */
  lemma SearchExact(hostMask: u32, i: nat)
    requires i < 32
    ensures SearchMask(hostMask, 0) == i <==> LeadingOnes(hostMask, 32 - i)
  {
    LeadingOnesIff(hostMask, i);
    SearchFinds(hostMask, 0);
    var j := SearchMask(hostMask, 0);
    if j < 32 && hostMask == U32_MODULUS - Power2(i) {
      PowerInjective(i, j);
    }
  }

  lemma PowerStrict(a: nat, b: nat)
    requires a < b
    ensures Power2(a) < Power2(b)
  {
    PowerMonotone(a, b - 1);
  }

  lemma PowerInjective(a: nat, b: nat)
    requires Power2(a) == Power2(b)
    ensures a == b
  {
    if a < b {
      PowerStrict(a, b);
    } else if b < a {
      PowerStrict(b, a);
    }
  }

  // ----- the text -----

  function Dotted(n: u32): string {
    Join([Numeral(Byte(n, 0x1000000)), Numeral(Byte(n, 0x10000)), Numeral(Byte(n, 0x100)), Numeral(Byte(n, 1))], '.')
  }

  /** What stands behind the address: a prefix length, nothing for the zero mask, or a dotted mask. */
  function MaskParts(mask: u32): seq<string> {
    var zeros := SearchMask(Ntohl(mask), 0);
    if zeros < 32 then [Numeral(32 - zeros)]
    else if mask == 0 then []
    else [Dotted(Ntohl(mask))]
  }

  /** The printed form of an address and mask in network byte order. */
  function AddressString(ip: u32, mask: u32, invert: bool): string {
    (if invert then "!" else "") + Join([Dotted(Ntohl(ip))] + MaskParts(mask), '/')
  }

  // ----- reading it back -----

  predicate IsByteText(s: string) {
    s != [] && AllDigits(s) && ValueOf(s) < 256
  }

  /** The four bytes, in the order of the text. */
  function ReadDotted(s: string): Option<seq<nat>> {
    var p := SplitOn(s, '.');
    if |p| == 4 && IsByteText(p[0]) && IsByteText(p[1]) && IsByteText(p[2]) && IsByteText(p[3])
    then Some([ValueOf(p[0]), ValueOf(p[1]), ValueOf(p[2]), ValueOf(p[3])])
    else None
  }

  /** A number's bytes, the most significant one first. */
  function BytesDown(n: u32): seq<nat> {
    [Byte(n, 0x1000000), Byte(n, 0x10000), Byte(n, 0x100), Byte(n, 1)]
  }

  /** A number's bytes as they lie in the memory of a little-endian machine. */
  function InMemory(n: u32): seq<nat> {
    [Byte(n, 1), Byte(n, 0x100), Byte(n, 0x10000), Byte(n, 0x1000000)]
  }

  /** What a little-endian machine holds when these four bytes lie in memory one after the other. */
  function Stored(a: nat, b: nat, c: nat, d: nat): (n: u32)
    requires a < 256 && b < 256 && c < 256 && d < 256
  {
    a + 0x100 * b + 0x10000 * c + 0x1000000 * d
  }

  lemma InMemoryOf(a: nat, b: nat, c: nat, d: nat)
    requires a < 256 && b < 256 && c < 256 && d < 256
    ensures InMemory(Stored(a, b, c, d)) == [a, b, c, d]
  {
    hide Byte;
    BytesOfQuad(d, c, b, a);
  }

  /** What is stored last is most significant after the conversion, and the other way round. */
  lemma NtohlBytes(n: u32)
    ensures BytesDown(Ntohl(n)) == InMemory(n)
  {
    hide Byte, Quad;
    BytesOfQuad(Byte(n, 1), Byte(n, 0x100), Byte(n, 0x10000), Byte(n, 0x1000000));
  }

  /** A mask as text: four bytes, or the bytes of as many leading ones as it says. */
  function ReadMask(s: string): Option<seq<nat>> {
    if '.' in s then ReadDotted(s)
    else if s != [] && AllDigits(s) && 1 <= ValueOf(s) <= 32 then
      PowerMonotone(0, 32 - ValueOf(s));
      PowerMonotone(32 - ValueOf(s), 32);
      Power32();
      Some(BytesDown(U32_MODULUS - Power2(32 - ValueOf(s))))
    else None
  }

  /** The bytes of address and mask in network order, which is their order in memory, and the negation. */
  function ReadAddress(s: string): Option<(seq<nat>, seq<nat>, bool)> {
    var invert := s != [] && s[0] == '!';
    var parts := SplitOn(if invert then s[1..] else s, '/');
    var ip := ReadDotted(parts[0]);
    var mask := if |parts| == 1 then Some([0, 0, 0, 0]) else ReadMask(parts[1]);
    if |parts| <= 2 && ip.Some? && mask.Some? then Some((ip.value, mask.value, invert)) else None
  }

  lemma DigitsAvoid(s: string, c: char)
    requires AllDigits(s) && !IsDigit(c)
    ensures c !in s
  {
  }

  lemma DottedReads(n: u32)
    ensures ReadDotted(Dotted(n)) == Some(BytesDown(n))
    ensures '/' !in Dotted(n) && '.' in Dotted(n) && Dotted(n) != [] && Dotted(n)[0] != '!'
  {
    var parts :=
      [Numeral(Byte(n, 0x1000000)), Numeral(Byte(n, 0x10000)), Numeral(Byte(n, 0x100)), Numeral(Byte(n, 1))];
    forall i | 0 <= i < 4 ensures '.' !in parts[i] && '/' !in parts[i] {
      DigitsAvoid(parts[i], '.');
      DigitsAvoid(parts[i], '/');
    }
    SplitJoin(parts, '.');
    JoinAvoids(parts, '.', '/');
    ValueOfNumeral(Byte(n, 0x1000000));
    ValueOfNumeral(Byte(n, 0x10000));
    ValueOfNumeral(Byte(n, 0x100));
    ValueOfNumeral(Byte(n, 1));
    assert Dotted(n) == parts[0] + ['.'] + Join(parts[1..], '.');
    assert Dotted(n)[|parts[0]|] == '.' && IsDigit(Dotted(n)[0]);
  }

  lemma MaskReads(mask: u32)
    requires MaskParts(mask) != []
    ensures ReadMask(MaskParts(mask)[0]) == Some(BytesDown(Ntohl(mask))) && '/' !in MaskParts(mask)[0]
  {
    hide SearchMask, BytesDown, Dotted, Ntohl, ReadDotted, Numeral, ValueOf, AllDigits, Power2;
    var zeros := SearchMask(Ntohl(mask), 0);
    if zeros < 32 {
      SearchFinds(Ntohl(mask), 0);
      ValueOfNumeral(32 - zeros);
      DigitsAvoid(Numeral(32 - zeros), '.');
      DigitsAvoid(Numeral(32 - zeros), '/');
    } else {
      DottedReads(Ntohl(mask));
    }
  }

  /** The printed text determines address, mask and negation: it reads back as what was printed. */
  lemma AddressReads(ip: u32, mask: u32, invert: bool)
    ensures ReadAddress(AddressString(ip, mask, invert)) == Some((InMemory(ip), InMemory(mask), invert))
  {
    hide Dotted, ReadDotted, MaskParts, ReadMask, Ntohl, BytesDown, InMemory;
    var parts := [Dotted(Ntohl(ip))] + MaskParts(mask);
    MaskPartsShape(mask);
    DottedReads(Ntohl(ip));
    if MaskParts(mask) != [] {
      MaskReads(mask);
    }
    SplitJoin(parts, '/');
    NtohlBytes(ip);
    NtohlBytes(mask);
    ZeroInMemory();
    var body := Join(parts, '/');
    assert Dotted(Ntohl(ip)) <= body;
    assert body[0] != '!';
    assert ("!" + body)[1..] == body && "" + body == body;
    assert parts[0] == Dotted(Ntohl(ip)) && (|parts| == 2 ==> parts[1] == MaskParts(mask)[0]);
  }

  lemma ZeroInMemory()
    ensures InMemory(0) == [0, 0, 0, 0]
  {
  }

  /** The four numbers between dots are the address's bytes in the order in which they lie in memory. */
  lemma DottedBytes(a: nat, b: nat, c: nat, d: nat)
    requires a < 256 && b < 256 && c < 256 && d < 256
    ensures Dotted(Ntohl(Stored(a, b, c, d)))
            == Numeral(a) + "." + Numeral(b) + "." + Numeral(c) + "." + Numeral(d)
  {
    hide Numeral, Ntohl, Byte, InMemory, Stored, BytesDown, Join;
    var ip := Stored(a, b, c, d);
    NtohlBytes(ip);
    InMemoryOf(a, b, c, d);
    JoinFour(Numeral(a), Numeral(b), Numeral(c), Numeral(d));
    var n := Ntohl(ip);
    BytesOf(n, a, b, c, d);
  }

  lemma BytesOf(n: u32, a: nat, b: nat, c: nat, d: nat)
    requires BytesDown(n) == [a, b, c, d]
    ensures Byte(n, 0x1000000) == a && Byte(n, 0x10000) == b && Byte(n, 0x100) == c && Byte(n, 1) == d
  {
    hide Byte;
    var bytes := BytesDown(n);
    assert bytes[0] == a && bytes[1] == b && bytes[2] == c && bytes[3] == d;
  }

  lemma JoinFour(a: string, b: string, c: string, d: string)
    ensures Join([a, b, c, d], '.') == a + "." + b + "." + c + "." + d
  {
    assert [a, b, c, d][1..] == [b, c, d] && [b, c, d][1..] == [c, d] && [c, d][1..] == [d];
    assert Join([c, d], '.') == c + "." + d;
    assert Join([b, c, d], '.') == b + "." + (c + "." + d);
  }

  /**
   * A mask stored as the bytes e, f, g, h prints as "/k" exactly if they are k leading ones followed by zeros, as
   * nothing if they are all zero, and byte by byte in every other case.
   */
  lemma MaskBytes(e: nat, f: nat, g: nat, h: nat, k: nat)
    requires e < 256 && f < 256 && g < 256 && h < 256 && 1 <= k <= 32
    ensures var mask, prefix := Stored(e, f, g, h), Quad(e, f, g, h);
            && (MaskParts(mask) == [Numeral(k)] <==> LeadingOnes(prefix, k))
            && (MaskParts(mask) == [] <==> e == f == g == h == 0)
            && (mask != 0 && (forall i | 1 <= i <= 32 :: !LeadingOnes(prefix, i)) ==>
                  MaskParts(mask) == [Numeral(e) + "." + Numeral(f) + "." + Numeral(g) + "." + Numeral(h)])
  {
    hide LeadingOnes, Numeral, Dotted, Quad, Ntohl, Stored, MaskParts;
    StoredQuad(e, f, g, h);
    DottedBytes(e, f, g, h);
    MaskPrefix(Stored(e, f, g, h), k);
    MaskOtherwise(Stored(e, f, g, h));
  }

  lemma MaskPrefix(mask: u32, k: nat)
    requires 1 <= k <= 32
    ensures MaskParts(mask) == [Numeral(k)] <==> LeadingOnes(Ntohl(mask), k)
  {
    hide SearchMask, LeadingOnes, Numeral, Dotted, Ntohl, MaskParts;
    MaskBranches(mask);
    var zeros := SearchMask(Ntohl(mask), 0);
    SearchExact(Ntohl(mask), 32 - k);
    if zeros < 32 {
      NumeralInjective(32 - zeros, k);
      assert [Numeral(32 - zeros)][0] == Numeral(32 - zeros);
    } else if mask != 0 {
      NumeralDotFree(k);
      DottedReads(Ntohl(mask));
      assert [Dotted(Ntohl(mask))][0] == Dotted(Ntohl(mask));
    }
  }

  lemma MaskOtherwise(mask: u32)
    ensures MaskParts(mask) == [] <==> mask == 0
    ensures mask != 0 && (forall i | 1 <= i <= 32 :: !LeadingOnes(Ntohl(mask), i)) ==>
              MaskParts(mask) == [Dotted(Ntohl(mask))]
  {
    hide SearchMask, LeadingOnes, Numeral, Dotted, Ntohl, MaskParts;
    MaskBranches(mask);
    NtohlZero();
    ZeroSearch();
    var zeros := SearchMask(Ntohl(mask), 0);
    if zeros < 32 {
      SearchExact(Ntohl(mask), zeros);
    }
  }

  lemma StoredQuad(e: nat, f: nat, g: nat, h: nat)
    requires e < 256 && f < 256 && g < 256 && h < 256
    ensures Ntohl(Stored(e, f, g, h)) == Quad(e, f, g, h)
    ensures Stored(e, f, g, h) == 0 <==> e == f == g == h == 0
  {
    StoredZero(e, f, g, h);
    hide Byte, Ntohl, InMemory, Stored, Quad, BytesDown;
    var n := Ntohl(Stored(e, f, g, h));
    NtohlBytes(Stored(e, f, g, h));
    InMemoryOf(e, f, g, h);
    QuadOfBytes(n);
    BytesOf(n, e, f, g, h);
  }

  lemma StoredZero(e: nat, f: nat, g: nat, h: nat)
    requires e < 256 && f < 256 && g < 256 && h < 256
    ensures Stored(e, f, g, h) == 0 <==> e == f == g == h == 0
  {
  }

  lemma NumeralInjective(a: nat, b: nat)
    ensures Numeral(a) == Numeral(b) <==> a == b
  {
    hide Numeral, ValueOf;
    ValueOfNumeral(a);
    ValueOfNumeral(b);
  }

  lemma NumeralDotFree(k: nat)
    ensures '.' !in Numeral(k)
  {
    hide Numeral;
    DigitsAvoid(Numeral(k), '.');
  }

  lemma ZeroSearch()
    ensures SearchMask(0, 0) == 32
  {
    hide Power2, SearchMask, Ntohl;
    SearchFinds(0, 0);
    var zeros := SearchMask(0, 0);
    if zeros < 32 {
      PowerBelow32(zeros);
    }
  }

  lemma MaskPartsShape(mask: u32)
    ensures |MaskParts(mask)| <= 1 && (MaskParts(mask) == [] ==> mask == 0) && Ntohl(0) == 0
  {
    hide SearchMask, Dotted, Ntohl;
    NtohlZero();
  }

  lemma NtohlZero()
    ensures Ntohl(0) == 0
  {
  }

  // ----- the program -----

  /** Shifts ones out to the left until the mask is met or no one is left. */
  method FindMask(hostMask: u32) returns (foundMask: bool, i: nat)
    ensures i == SearchMask(hostMask, 0) && foundMask == (i < 32)
  {
    hide Power2, SearchMask;
    SearchStep(hostMask, 0);
    PowerZero();
    var tmpMask: u32 := 0xFFFF_FFFF;
    foundMask := false;
    i := 0;
    while !foundMask && i < 32
      invariant 0 <= i <= 32 && tmpMask == Wrap(U32_MODULUS - Power2(i))
      invariant if foundMask then i < 32 && SearchMask(hostMask, 0) == i
                else SearchMask(hostMask, 0) == SearchMask(hostMask, i)
      decreases !foundMask, 32 - i
    {
      PowerBelow32(i);
      SearchStep(hostMask, i);
      if tmpMask == hostMask {
        foundMask := true;
      } else {
        tmpMask := Wrap(tmpMask * 2);
        i := i + 1;
      }
    }
  }

  /** Prints address and mask; a text that does not fit is refused. */
  method FormatIp(ip: u32, mask: u32, invert: bool, buffer: array<char>, bufferSize: u32)
    returns (result: IptablesResult)
    requires bufferSize <= buffer.Length
    modifies buffer
    ensures result == if ip == 0 && mask == 0 then IptablesNoData
                      else if |AddressString(ip, mask, invert)| < bufferSize then IptablesOk
                      else IptablesException
    ensures result == IptablesOk ==>
              var text := AddressString(ip, mask, invert);
              buffer[..|text|] == text && buffer[|text|] == '\0'
  {
    if ip == 0 && mask == 0 {
      return IptablesNoData;
    }
    hide Dotted, Ntohl, Join, MaskParts, AddressString;
    Printed(ip, mask, invert);
    var suffix := MaskSuffix(mask);
    var formatPrefix := if invert then "!" else "";
    var text := formatPrefix + Join([Dotted(Ntohl(ip))] + suffix, '/');
    var ok := PrintText(buffer, bufferSize, text);
    result := if ok then IptablesOk else IptablesException;
  }

  /** What stands behind the slash: the found prefix length, nothing for the zero mask, or the mask itself. */
  method MaskSuffix(mask: u32) returns (suffix: seq<string>)
    ensures suffix == MaskParts(mask)
  {
    hide Dotted, Ntohl, SearchMask, Numeral, AllDigits, MaskParts;
    MaskBranches(mask);
    var foundMask, i := FindMask(Ntohl(mask));
    if foundMask {
      suffix := [Numeral(32 - i)];
    } else if mask == 0 {
      suffix := [];
    } else {
      suffix := [Dotted(Ntohl(mask))];
    }
  }

  lemma MaskBranches(mask: u32)
    ensures var zeros := SearchMask(Ntohl(mask), 0);
            MaskParts(mask) == if zeros < 32 then [Numeral(32 - zeros)]
                               else if mask == 0 then [] else [Dotted(Ntohl(mask))]
  {
  }

  lemma Printed(ip: u32, mask: u32, invert: bool)
    ensures AddressString(ip, mask, invert)
            == (if invert then "!" else "") + Join([Dotted(Ntohl(ip))] + MaskParts(mask), '/')
  {
  }

  lemma PowerZero()
    ensures Power2(0) == 1
  {
  }

  lemma SearchStep(hostMask: u32, i: nat)
    requires i < 32
    ensures SearchMask(hostMask, i) == if hostMask == U32_MODULUS - Power2(i) then i else SearchMask(hostMask, i + 1)
    ensures SearchMask(hostMask, 32) == 32
  {
  }

  /** Shifting 2^32 - 2^i left by one bit gives 2^32 - 2^(i+1), wrapped. */
  lemma PowerBelow32(i: nat)
    requires i < 32
    ensures 0 < Power2(i) < U32_MODULUS && Power2(i + 1) == 2 * Power2(i) <= U32_MODULUS
    ensures Wrap(2 * (U32_MODULUS - Power2(i))) == Wrap(U32_MODULUS - Power2(i + 1))
  {
    PowerMonotone(0, i);
    PowerMonotone(i + 1, 32);
    Power32();
  }

  /** 127.0.0.1 with the mask 255.0.0.0, as a little-endian machine stores them. */
  method Loopback() returns (result: IptablesResult, text: string)
    ensures result == IptablesOk && text == "127.0.0.1/8"
  {
    hide Dotted, Ntohl, MaskParts, AddressString, Numeral;
    var buffer := new char[20];
    LoopbackText();
    result := FormatIp(0x0100007F, 0x000000FF, false, buffer, 20);
    text := buffer[..11];
  }

  lemma LoopbackText()
    ensures AddressString(0x0100007F, 0x000000FF, false) == "127.0.0.1/8"
  {
    hide Dotted, Ntohl, MaskParts, Numeral, LeadingOnes, Join;
    assert Stored(127, 0, 0, 1) == 0x0100007F && Stored(255, 0, 0, 0) == 0x000000FF;
    DottedBytes(127, 0, 0, 1);
    LeadingEight();
    MaskBytes(255, 0, 0, 0, 8);
    NumeralDigits(12, 7);
    NumeralDigits(1, 2);
    assert Numeral(127) == "127" && Numeral(0) == "0" && Numeral(1) == "1" && Numeral(8) == "8";
    assert "127" + "." + "0" + "." + "0" + "." + "1" == "127.0.0.1";
    assert Dotted(Ntohl(0x0100007F)) == "127.0.0.1" && MaskParts(0x000000FF) == ["8"];
    JoinTwo("127.0.0.1", "8");
    Printed(0x0100007F, 0x000000FF, false);
    assert "127.0.0.1" + "/" + "8" == "127.0.0.1/8";
  }

  lemma LeadingEight()
    ensures LeadingOnes(Quad(255, 0, 0, 0), 8)
  {
    hide LeadingOnes;
    assert Power2(8) == 256 && Power2(16) == 65536 && Power2(24) == 0x1000000;
    LeadingOnesIff(Quad(255, 0, 0, 0), 24);
  }

  lemma JoinTwo(a: string, b: string)
    ensures Join([a] + [b], '/') == a + "/" + b && "" + (a + "/" + b) == a + "/" + b
  {
    assert ([a] + [b])[1..] == [b];
  }
}
