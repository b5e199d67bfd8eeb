/** The Internet checksum (RFC 1071) over a VRRP packet and the pseudo-header of
    section 5.2.8 of RFC 5798. Values are in host order; the byte pair that is
    stored in the packet is their big-endian form. */
module Checksum {
  import opened Addresses

  // ------------------------------------------------------------ specification

  function Word(s: seq<Byte>, i: nat): nat
    requires 2 * i + 1 < |s|
  {
    256 * (s[2 * i] as int) + s[2 * i + 1]
  }

  /** Sum of the first n big-endian 16-bit words. */
  function WordSum(s: seq<Byte>, n: nat): nat
    requires 2 * n <= |s|
  {
    if n == 0 then 0 else WordSum(s, n - 1) + Word(s, n - 1)
  }

  function Sum(s: seq<Byte>): nat {
    WordSum(s, |s| / 2)
  }

  predicate SameFamily(src: IpAddress, dst: IpAddress) {
    src.family == dst.family && (src.family == AF_INET || src.family == AF_INET6)
  }

  function BigEndian16(n: nat): seq<Byte> {
    [(n / 256) % 256, n % 256]
  }

  function BigEndian32(n: nat): seq<Byte> {
    BigEndian16(n / 65536) + BigEndian16(n)
  }

  function PseudoHeader(size: nat, src: IpAddress, dst: IpAddress, protocol: Byte): (h: seq<Byte>)
    requires SameFamily(src, dst)
    ensures |h| == if src.family == AF_INET then 12 else 40
  {
    if src.family == AF_INET then
      src.data + dst.data + [0, protocol] + BigEndian16(size)
    else
      src.data + dst.data + BigEndian32(size) + BigEndian32(protocol)
  }

  /** The unbounded sum of all words of pseudo-header and packet. */
  function Total(packet: seq<Byte>, src: IpAddress, dst: IpAddress, protocol: Byte): nat
    requires SameFamily(src, dst)
  {
    Sum(PseudoHeader(|packet|, src, dst, protocol)) + Sum(packet)
  }

  /** One's-complement sum: the residue of n modulo 65535, where a multiple of
      65535 other than 0 is represented by 0xFFFF. */
  function OnesComplement(n: nat): nat {
    if n == 0 then 0 else (n - 1) % 65535 + 1
  }

  function ChecksumValue(packet: seq<Byte>, src: IpAddress, dst: IpAddress, protocol: Byte): nat {
    if SameFamily(src, dst) then 65535 - OnesComplement(Total(packet, src, dst, protocol)) else 0
  }

  // ------------------------------------------------------------------- method

  lemma WordSumBound(s: seq<Byte>, n: nat)
    requires 2 * n <= |s|
    ensures WordSum(s, n) <= 65535 * n
  {}

  /** One round of the fold loop keeps the one's-complement value. */
  lemma FoldStep(n: nat)
    ensures OnesComplement(n % 65536 + n / 65536) == OnesComplement(n)
  {}

  lemma ModuloUnique(n: nat, q: int, r: int)
    requires n == 65535 * q + r && 0 <= r < 65535
    ensures n % 65535 == r
  {}

  /** Adds 16-bit words to a 32-bit accumulator. The accumulator cannot wrap
      while no more than 65537 words have been added. */
  method AddWords(sum: nat, s: seq<Byte>, count: nat) returns (r: nat)
    requires 2 * count <= |s|
    ensures sum + 65535 * count <= 0xFFFF_FFFF ==> r == sum + WordSum(s, count)
  {
    r := sum;
    var i := 0;
    while i != count
      invariant i <= count
      invariant sum + 65535 * count <= 0xFFFF_FFFF ==> r == sum + WordSum(s, i)
      decreases count - i
    {
      WordSumBound(s, i);
      r := (r + Word(s, i)) % 0x1_0000_0000;
      i := i + 1;
    }
  }

  /** The fold loop ends with the one's-complement value of the accumulator. */
  method Fold(sum: nat) returns (r: nat)
    ensures r == OnesComplement(sum) < 65536
  {
    r := sum;
    while r / 65536 != 0
      invariant OnesComplement(r) == OnesComplement(sum)
      decreases r
    {
      FoldStep(r);
      r := r % 65536 + r / 65536;
    }
  }

  /** Util::checksum. No packet that an IP header can announce overflows the
      32-bit accumulator. */
  method Compute(packet: seq<Byte>, src: IpAddress, dst: IpAddress, protocol: Byte) returns (r: nat)
    ensures |packet| <= 65535 ==> r == ChecksumValue(packet, src, dst, protocol)
  {
    if !SameFamily(src, dst) {
      return 0;
    }
    var pseudoHeader := PseudoHeader(|packet|, src, dst, protocol);
    var sum := AddWords(0, pseudoHeader, |pseudoHeader| / 2);
    WordSumBound(pseudoHeader, |pseudoHeader| / 2);
    sum := AddWords(sum, packet, |packet| / 2);
    sum := Fold(sum);
    r := 0xFFFF - sum;
  }

  // ----------------------------------------------------------------- theorems

  ghost predicate Verifies(packet: seq<Byte>, src: IpAddress, dst: IpAddress, protocol: Byte) {
    ChecksumValue(packet, src, dst, protocol) == 0
  }

  // What is summed, told without the pseudo-header.

  lemma {:induction false} WordSumAppend(a: seq<Byte>, b: seq<Byte>, n: nat)
    requires |a| % 2 == 0 && 2 * n <= |b|
    ensures WordSum(a + b, |a| / 2 + n) == WordSum(a, |a| / 2) + WordSum(b, n)
  {
    if n == 0 {
      WordSumPrefix(a, b, |a| / 2);
    } else {
      WordSumAppend(a, b, n - 1);
      assert Word(a + b, |a| / 2 + n - 1) == Word(b, n - 1);
    }
  }

  lemma {:induction false} WordSumPrefix(a: seq<Byte>, b: seq<Byte>, n: nat)
    requires 2 * n <= |a|
    ensures WordSum(a + b, n) == WordSum(a, n)
  {
    if n > 0 {
      WordSumPrefix(a, b, n - 1);
      assert Word(a + b, n - 1) == Word(a, n - 1);
    }
  }

  lemma SumAppend(a: seq<Byte>, b: seq<Byte>)
    requires |a| % 2 == 0
    ensures Sum(a + b) == Sum(a) + Sum(b)
  {
    WordSumAppend(a, b, |b| / 2);
  }

  lemma SumOfTwo(s: seq<Byte>)
    requires |s| == 2
    ensures Sum(s) == 256 * (s[0] as int) + s[1]
  {
    assert WordSum(s, 1) == WordSum(s, 0) + Word(s, 0);
  }

  lemma SumOfFour(s: seq<Byte>)
    requires |s| == 4
    ensures Sum(s) == 256 * (s[0] as int) + s[1] + 256 * (s[2] as int) + s[3]
  {
    assert WordSum(s, 1) == WordSum(s, 0) + Word(s, 0);
    assert WordSum(s, 2) == WordSum(s, 1) + Word(s, 1);
  }

  lemma SumOfSixteen(s: seq<Byte>)
    requires |s| == 16
    ensures Sum(s) ==
      256 * ((s[0] as int) + s[2] + s[4] + s[6] + s[8] + s[10] + s[12] + s[14])
      + s[1] + s[3] + s[5] + s[7] + s[9] + s[11] + s[13] + s[15]
  {
    var a, b, c, d := s[..4], s[4..8], s[8..12], s[12..];
    SumOfFour(a);
    SumOfFour(b);
    SumOfFour(c);
    SumOfFour(d);
    SumAppend(a, b);
    SumAppend(a + b, c);
    SumAppend(a + b + c, d);
    assert s == a + b + c + d;
  }

  lemma BigEndianSums(n: nat)
    ensures Sum(BigEndian16(n)) == n % 65536
    ensures Sum(BigEndian32(n)) == n / 65536 % 65536 + n % 65536
  {
    hide Sum;
    SumOfTwo(BigEndian16(n));
    SumOfFour(BigEndian32(n));
    HighAndLow(n);
    HighAndLow(n / 65536);
  }

  lemma HighAndLow(n: nat)
    ensures 256 * (n / 256 % 256) + n % 256 == n % 65536
  {
    var q, r := n / 256, n % 256;
    Divided(n, q / 256, q % 256, r);
  }

  lemma Divided(n: nat, h: nat, l: nat, r: nat)
    requires l < 256 && r < 256 && n == 65536 * h + (256 * l + r)
    ensures n % 65536 == 256 * l + r
  {
  }

  /** For IPv4 the words of both addresses, the protocol and the size are added to
      those of the packet. */
  lemma TotalIPv4(packet: seq<Byte>, src: IpAddress, dst: IpAddress, protocol: Byte)
    requires src.family == AF_INET && dst.family == AF_INET
    ensures |src.data| == |dst.data| == 4
    ensures var a, b := src.data, dst.data;
      Total(packet, src, dst, protocol) ==
        256 * (a[0] as int) + a[1] + 256 * (a[2] as int) + a[3]
        + 256 * (b[0] as int) + b[1] + 256 * (b[2] as int) + b[3]
        + protocol + |packet| % 65536 + Sum(packet)
  {
    hide Sum;
    SumAppend(src.data, dst.data);
    SumAppend(src.data + dst.data, [0, protocol]);
    SumAppend(src.data + dst.data + [0, protocol], BigEndian16(|packet|));
    SumOfFour(src.data);
    SumOfFour(dst.data);
    SumOfTwo([0, protocol]);
    BigEndianSums(|packet|);
  }

  /** For IPv6 the size has 32 bits. */
  lemma TotalIPv6(packet: seq<Byte>, src: IpAddress, dst: IpAddress, protocol: Byte)
    requires src.family == AF_INET6 && dst.family == AF_INET6
    ensures |src.data| == |dst.data| == 16
    ensures Total(packet, src, dst, protocol) == Sum(src.data) + Sum(dst.data)
      + |packet| / 65536 % 65536 + |packet| % 65536 + protocol + Sum(packet)
  {
    hide Sum;
    SumAppend(src.data, dst.data);
    SumAppend(src.data + dst.data, BigEndian32(|packet|));
    SumAppend(src.data + dst.data + BigEndian32(|packet|), BigEndian32(protocol));
    BigEndianSums(|packet|);
    BigEndianSums(protocol);
  }

  // An advertisement of router 1 with priority 100 and interval 100, from 10.0.0.1
  // to 224.0.0.18 and from fe80::1 to ff12::12.

  const SAMPLE: seq<Byte> := [0x31, 1, 100, 0, 0, 100, 0, 0]

  lemma SampleSum()
    ensures Sum(SAMPLE) == 0x3101 + 0x6400 + 0x0064
  {
    hide Sum;
    assert SAMPLE == [0x31, 1, 100, 0] + [0, 100, 0, 0];
    SumAppend([0x31, 1, 100, 0], [0, 100, 0, 0]);
    SumOfFour([0x31, 1, 100, 0]);
    SumOfFour([0, 100, 0, 0]);
  }

  lemma KnownChecksumIPv4()
    ensures ChecksumValue(SAMPLE, IpAddress(AF_INET, [10, 0, 0, 1]), IpAddress(AF_INET, [224, 0, 0, 18]), 112)
         == 0x800E
  {
    hide Sum, Total;
    SampleSum();
    TotalIPv4(SAMPLE, IpAddress(AF_INET, [10, 0, 0, 1]), IpAddress(AF_INET, [224, 0, 0, 18]), 112);
  }

  lemma KnownChecksumIPv6()
    ensures ChecksumValue(SAMPLE,
      IpAddress(AF_INET6, [0xFE, 0x80, 0, 0, 0, 0, 0, 0, 0, 0, 0, 0, 0, 0, 0, 1]),
      IpAddress(AF_INET6, [0xFF, 0x12, 0, 0, 0, 0, 0, 0, 0, 0, 0, 0, 0, 0, 0, 0x12]), 112) == 0x6C7B
  {
    hide Sum, Total;
    var a: seq<Byte> := [0xFE, 0x80, 0, 0, 0, 0, 0, 0, 0, 0, 0, 0, 0, 0, 0, 1];
    var b: seq<Byte> := [0xFF, 0x12, 0, 0, 0, 0, 0, 0, 0, 0, 0, 0, 0, 0, 0, 0x12];
    SampleSum();
    SumOfSixteen(a);
    SumOfSixteen(b);
    TotalIPv6(SAMPLE, IpAddress(AF_INET6, a), IpAddress(AF_INET6, b), 112);
  }

  /** The protocol number alone makes the pseudo-header sum positive. */
  lemma TotalPositive(packet: seq<Byte>, src: IpAddress, dst: IpAddress, protocol: Byte)
    requires SameFamily(src, dst) && protocol > 0
    ensures Total(packet, src, dst, protocol) > 0
  {
    var h := PseudoHeader(|packet|, src, dst, protocol);
    if src.family == AF_INET {
      assert Word(h, 4) == protocol;
      WordAtMostSum(h, 6, 4);
    } else {
      assert Word(h, 19) == protocol;
      WordAtMostSum(h, 20, 19);
    }
  }

  lemma WordAtMostSum(s: seq<Byte>, n: nat, i: nat)
    requires 2 * n <= |s| && i < n
    ensures Word(s, i) <= WordSum(s, n)
  {}

  /** Verification gives 0 exactly when the full sum is a multiple of 65535. */
  lemma VerifiesIffDivisible(packet: seq<Byte>, src: IpAddress, dst: IpAddress, protocol: Byte)
    requires SameFamily(src, dst) && protocol > 0
    ensures Verifies(packet, src, dst, protocol) <==> Total(packet, src, dst, protocol) % 65535 == 0
  {
    TotalPositive(packet, src, dst, protocol);
    var n := Total(packet, src, dst, protocol);
    var q, r := n / 65535, n % 65535;
    if r == 0 {
      ModuloUnique(n - 1, q - 1, 65534);
    } else {
      ModuloUnique(n - 1, q, r - 1);
    }
  }

  /** The packet with its i-th word replaced. */
  function WithWord(packet: seq<Byte>, i: nat, word: nat): (r: seq<Byte>)
    requires 2 * i + 1 < |packet| && word < 65536
    ensures |r| == |packet|
  {
    packet[2 * i := word / 256][2 * i + 1 := word % 256]
  }

  lemma {:induction false} WordSumWithWord(packet: seq<Byte>, i: nat, word: nat, n: nat)
    requires 2 * i + 1 < |packet| && word < 65536 && 2 * n <= |packet|
    ensures WordSum(WithWord(packet, i, word), n) == WordSum(packet, n) + if i < n then word - Word(packet, i) else 0
  {
    if n > 0 {
      WordSumWithWord(packet, i, word, n - 1);
      var p := WithWord(packet, i, word);
      if i == n - 1 {
        assert Word(p, i) == word;
      } else {
        assert Word(p, n - 1) == Word(packet, n - 1);
      }
    }
  }

  lemma TotalWithWord(packet: seq<Byte>, i: nat, word: nat, src: IpAddress, dst: IpAddress, protocol: Byte)
    requires 2 * i + 1 < |packet| && word < 65536 && SameFamily(src, dst)
    ensures Total(WithWord(packet, i, word), src, dst, protocol)
         == Total(packet, src, dst, protocol) + word - Word(packet, i)
  {
    WordSumWithWord(packet, i, word, |packet| / 2);
  }

  /** Storing the computed value over a zero checksum field makes the packet
      verify. */
  lemma StoredChecksumVerifies(packet: seq<Byte>, src: IpAddress, dst: IpAddress, protocol: Byte)
    requires |packet| >= 8 && packet[6] == packet[7] == 0
    requires SameFamily(src, dst) && protocol > 0
    ensures Verifies(WithWord(packet, 3, ChecksumValue(packet, src, dst, protocol)), src, dst, protocol)
  {
    var c := ChecksumValue(packet, src, dst, protocol);
    var n := Total(packet, src, dst, protocol);
    TotalPositive(packet, src, dst, protocol);
    TotalWithWord(packet, 3, c, src, dst, protocol);
    assert n - 1 == 65535 * ((n - 1) / 65535) + (n - 1) % 65535;
    assert n + c == 65535 * ((n - 1) / 65535 + 1);
    ModuloUnique(n + c, (n - 1) / 65535 + 1, 0);
    VerifiesIffDivisible(WithWord(packet, 3, c), src, dst, protocol);
  }

  /** A verifying packet with one 16-bit word changed still verifies exactly
      when the change is between 0x0000 and 0xFFFF. */
  lemma ChangedWordIsDetected(packet: seq<Byte>, i: nat, word: nat, src: IpAddress, dst: IpAddress, protocol: Byte)
    requires 2 * i + 1 < |packet| && word < 65536 && word != Word(packet, i)
    requires SameFamily(src, dst) && protocol > 0
    requires Verifies(packet, src, dst, protocol)
    ensures Verifies(WithWord(packet, i, word), src, dst, protocol)
       <==> {word, Word(packet, i)} == {0, 0xFFFF}
  {
    var n, w := Total(packet, src, dst, protocol), Word(packet, i);
    TotalWithWord(packet, i, word, src, dst, protocol);
    VerifiesIffDivisible(packet, src, dst, protocol);
    VerifiesIffDivisible(WithWord(packet, i, word), src, dst, protocol);
    assert n == 65535 * (n / 65535);
    if w < word < w + 65535 {
      ModuloUnique(n + word - w, n / 65535, word - w);
    } else if word < w < word + 65535 {
      ModuloUnique(n + word - w, n / 65535 - 1, 65535 + word - w);
    } else if word > w {
      ModuloUnique(n + word - w, n / 65535 + 1, 0);
    } else {
      ModuloUnique(n + word - w, n / 65535 - 1, 0);
    }
    assert 0 in {0, 0xFFFF} && 0xFFFF in {0, 0xFFFF};
  }
}
