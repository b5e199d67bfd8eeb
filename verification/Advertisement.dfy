/** The VRRPv3 ADVERTISEMENT on the wire (section 5.2 of RFC 5798): what
    VrrpSocket::sendPacket writes and what VrrpSocket::onSocketPacket makes of a
    received payload. */
module Advertisement {
  import opened Addresses
  import opened Checksum

  const VRRP: Byte := 112
  const BUFFER_SIZE := 2048

  datatype Content = Content(vrid: Byte, priority: Byte, interval: nat, addresses: seq<IpAddress>)

  // ----------------------------------------------------------------- encoding

  function Header(vrid: Byte, priority: Byte, interval: nat, count: nat): (h: seq<Byte>)
    ensures |h| == 8
  {
    [0x31, vrid, priority, count % 256, (interval / 256) % 16, interval % 256, 0, 0]
  }

  function Flatten(addresses: seq<IpAddress>): seq<Byte> {
    if addresses == [] then [] else Flatten(addresses[..|addresses| - 1]) + addresses[|addresses| - 1].data
  }

  function Unsealed(c: Content): seq<Byte> {
    Header(c.vrid, c.priority, c.interval, |c.addresses|) + Flatten(c.addresses)
  }

  /** The datagram, with the checksum stored in the fourth word. */
  function Encode(c: Content, src: IpAddress, dst: IpAddress): seq<Byte> {
    var p := Unsealed(c);
    WithWord(p, 3, ChecksumValue(p, src, dst, VRRP))
  }

  predicate AllOfFamily(addresses: seq<IpAddress>, family: int) {
    forall a :: a in addresses ==> a.family == family
  }

  // ----------------------------------------------------------------- decoding

  function AddressAt(bytes: seq<Byte>, family: int, at: nat): IpAddress
    requires at + FamilySize(family) <= |bytes|
  {
    IpAddress(family, bytes[at..at + FamilySize(family)])
  }

  function DecodeAddresses(bytes: seq<Byte>, family: int, count: nat): (r: seq<IpAddress>)
    requires |bytes| >= count * FamilySize(family)
    ensures |r| == count
  {
    var size := FamilySize(family);
    seq(count, i requires 0 <= i < count =>
      AddressInRange(i, count, size);
      AddressAt(bytes, family, i * size))
  }

  lemma AddressInRange(i: nat, count: nat, size: nat)
    requires i < count
    ensures i * size + size <= count * size
  {
    assert (i + 1) * size <= count * size;
  }

  function Interval(packet: seq<Byte>): (n: nat)
    requires |packet| >= 8
    ensures n < 4096
  {
    256 * (packet[4] as int % 16) + packet[5]
  }

  /** The packet holds as many addresses as it announces. */
  predicate Complete(packet: seq<Byte>, family: int) {
    |packet| >= 8 && |packet| >= 8 + packet[3] * FamilySize(family)
  }

  function Decode(packet: seq<Byte>, family: int): (c: Content)
    requires Complete(packet, family)
    ensures c.interval < 4096
  {
    Content(packet[1], packet[2], Interval(packet), DecodeAddresses(packet[8..], family, packet[3]))
  }

  /** What happens to one datagram. */
  datatype Verdict =
    | NotMonitored | TooShort | BadVersion | BadChecksum | BadType
    | UnknownRouter | BadTtl | BadLength | Delivered

  datatype Datagram = Datagram(interface: int, ttl: Byte, src: IpAddress, dst: IpAddress, packet: seq<Byte>)

  /** The checks in the order in which they are made. */
  function Classify(d: Datagram, family: int, monitored: bool, routers: set<Byte>): Verdict {
    var p := d.packet;
    if !monitored then NotMonitored
    else if |p| < 8 then TooShort
    else if p[0] / 16 != 3 then BadVersion
    else if d.dst.family != AF_UNSPEC && ChecksumValue(p, d.src, d.dst, VRRP) != 0 then BadChecksum
    else if p[0] % 16 != 1 then BadType
    else if p[1] !in routers then UnknownRouter
    else if d.ttl != 255 then BadTtl
    else if !Complete(p, family) then BadLength
    else Delivered
  }

  // --------------------------------------------------------------- round trip

  lemma {:induction false} FlattenLength(addresses: seq<IpAddress>, family: int)
    requires AllOfFamily(addresses, family)
    ensures |Flatten(addresses)| == |addresses| * FamilySize(family)
  {
    if addresses != [] {
      FlattenLength(addresses[..|addresses| - 1], family);
      Distribute(|addresses| - 1, FamilySize(family));
    }
  }

  lemma Distribute(n: nat, size: nat)
    ensures (n + 1) * size == n * size + size
  {}

  /** The i-th address occupies the i-th slot. */
  lemma {:induction false} FlattenSlot(addresses: seq<IpAddress>, family: int, i: nat)
    requires AllOfFamily(addresses, family) && i < |addresses|
    ensures var size := FamilySize(family);
      0 <= i * size <= i * size + size <= |Flatten(addresses)| &&
      Flatten(addresses)[i * size..i * size + size] == addresses[i].data
  {
    var size, n := FamilySize(family), |addresses| - 1;
    FlattenLength(addresses, family);
    FlattenLength(addresses[..n], family);
    AddressInRange(i, |addresses|, size);
    if i < n {
      FlattenSlot(addresses[..n], family, i);
      AddressInRange(i, n, size);
    }
  }

  lemma DecodeFlatten(addresses: seq<IpAddress>, family: int, count: nat)
    requires AllOfFamily(addresses, family) && count <= |addresses|
    ensures |Flatten(addresses)| >= count * FamilySize(family)
    ensures DecodeAddresses(Flatten(addresses), family, count) == addresses[..count]
  {
    var size := FamilySize(family);
    FlattenLength(addresses, family);
    assert count * size <= |addresses| * size;
    var r := DecodeAddresses(Flatten(addresses), family, count);
    forall i | 0 <= i < count
      ensures r[i] == addresses[i]
    {
      AddressInRange(i, count, size);
      FlattenSlot(addresses, family, i);
    }
  }

  lemma EncodeShape(c: Content, src: IpAddress, dst: IpAddress)
    ensures var p := Encode(c, src, dst);
      |p| == 8 + |Flatten(c.addresses)| && p[8..] == Flatten(c.addresses) &&
      p[..6] == Header(c.vrid, c.priority, c.interval, |c.addresses|)[..6]
  {}

  lemma IntervalRoundTrip(n: nat)
    ensures 256 * ((n / 256) % 16 % 16) + n % 256 == n % 4096
  {
    var q := n / 256;
    assert n == 4096 * (q / 16) + (256 * (q % 16) + n % 256);
  }

  /** What the header fields can carry of a content. */
  function Announced(c: Content): Content {
    Content(c.vrid, c.priority, c.interval % 4096, c.addresses[..|c.addresses| % 256])
  }

  /** Which addresses of a set its datagram announces. */
  ghost function Carried(addresses: set<IpAddress>): set<IpAddress> {
    var order := InOrder(addresses);
    set a | a in order[..|order| % 256]
  }

  lemma {:induction false} NoMoreThan<T>(s: seq<T>)
    ensures |set x | x in s| <= |s|
  {
    if s != [] {
      var n := |s| - 1;
      NoMoreThan(s[..n]);
      assert s == s[..n] + [s[n]];
      assert (set x | x in s) == (set x | x in s[..n]) + {s[n]};
    }
  }

  /** All of them exactly up to 255. */
  lemma CarriedExact(addresses: set<IpAddress>)
    ensures Carried(addresses) == addresses <==> |addresses| <= 255
  {
    hide InOrder;
    var order := InOrder(addresses);
    InOrderVisitsEachOnce(addresses);
    if |addresses| <= 255 {
      assert order[..|order| % 256] == order;
      assert Carried(addresses) == set a | a in order;
    } else {
      NoMoreThan(order[..|order| % 256]);
      assert |order[..|order| % 256]| <= 255;
    }
  }

  lemma AnnouncedExact(c: Content)
    ensures Announced(c) == c <==> c.interval <= 4095 && |c.addresses| <= 255
  {}

  /** Any encoded advertisement passes every check of a listener for its router
      id, whatever its content, and is decoded field by field: the interval
      modulo 4096 and as many addresses as the count byte can announce. */
  lemma EncodedIsDelivered(c: Content, d: Datagram, family: int, routers: set<Byte>)
    requires AllOfFamily(c.addresses, family)
    requires SameFamily(d.src, d.dst) && d.ttl == 255 && c.vrid in routers
    requires d.packet == Encode(c, d.src, d.dst)
    ensures Classify(d, family, true, routers) == Delivered
    ensures Complete(d.packet, family)
    ensures Decode(d.packet, family) == Announced(c)
  {
    var p, n := d.packet, |c.addresses|;
    EncodeShape(c, d.src, d.dst);
    StoredChecksumVerifies(Unsealed(c), d.src, d.dst, VRRP);
    forall k | 0 <= k < 6
      ensures p[k] == Header(c.vrid, c.priority, c.interval, n)[k]
    {
      assert p[k] == p[..6][k];
    }
    DecodeFlatten(c.addresses, family, n % 256);
    IntervalRoundTrip(c.interval);
  }

  /** Sender and receiver agree exactly on the contents with a 12-bit interval
      and at most 255 addresses. */
  lemma RoundTripExact(c: Content, d: Datagram, family: int, routers: set<Byte>)
    requires AllOfFamily(c.addresses, family)
    requires SameFamily(d.src, d.dst) && d.ttl == 255 && c.vrid in routers
    requires d.packet == Encode(c, d.src, d.dst)
    ensures Classify(d, family, true, routers) == Delivered
    ensures Complete(d.packet, family)
    ensures Decode(d.packet, family) == c <==> c.interval <= 4095 && |c.addresses| <= 255
  {
    EncodedIsDelivered(c, d, family, routers);
    AnnouncedExact(c);
  }

  // ---------------------------------------------------------- byte by byte

  /** The bytes of section 5.2 of RFC 5798 for an advertisement from src to dst,
      with the checksum that makes the words of section 5.2.8 sum to a multiple of
      65535. */
  ghost predicate OnWire(p: seq<Byte>, vrid: Byte, priority: Byte, interval: nat, addresses: seq<IpAddress>,
                         src: IpAddress, dst: IpAddress)
    requires SameFamily(src, dst)
  {
    var size := if src.family == AF_INET then 4 else 16;
    && |p| == 8 + |addresses| * size
    && p[0] == 0x31
    && p[1] == vrid
    && p[2] == priority
    && p[3] == |addresses| % 256
    && p[4] == interval / 256 % 16
    && p[5] == interval % 256
    && 256 * (p[6] as int) + p[7] < 0xFFFF && Total(p, src, dst, 112) % 65535 == 0
    && (forall i :: 0 <= i < |addresses| ==> Slot(p, i, size) == addresses[i].data)
  }

  /** The bytes from 8 + i * size on; none if the packet ends before. */
  function Slot(p: seq<Byte>, i: nat, size: nat): seq<Byte> {
    if 8 + i * size + size <= |p| then p[8 + i * size..8 + i * size + size] else []
  }

  lemma TailSlice(s: seq<Byte>, a: nat, b: nat, size: nat)
    requires a + b + size <= |s|
    ensures s[a + b..a + b + size] == s[a..][b..b + size]
  {}

  lemma SlotIsFlattened(p: seq<Byte>, addresses: seq<IpAddress>, family: int, i: nat)
    requires AllOfFamily(addresses, family) && i < |addresses| && |p| >= 8 && p[8..] == Flatten(addresses)
    ensures Slot(p, i, FamilySize(family)) == addresses[i].data
  {
    hide Flatten, AllOfFamily;
    FlattenSlot(addresses, family, i);
    TailSlice(p, 8, i * FamilySize(family), FamilySize(family));
  }

  /** Whatever is encoded has these bytes. */
  lemma SentBytes(c: Content, src: IpAddress, dst: IpAddress)
    requires SameFamily(src, dst) && AllOfFamily(c.addresses, src.family)
    ensures OnWire(Encode(c, src, dst), c.vrid, c.priority, c.interval, c.addresses, src, dst)
  {
    hide Total, Flatten;
    var p := Encode(c, src, dst);
    EncodeShape(c, src, dst);
    FlattenLength(c.addresses, src.family);
    forall k | 0 <= k < 6
      ensures p[k] == Header(c.vrid, c.priority, c.interval, |c.addresses|)[k]
    {
      assert p[k] == p[..6][k];
    }
    StoredChecksumVerifies(Unsealed(c), src, dst, VRRP);
    VerifiesIffDivisible(p, src, dst, VRRP);
    ChecksumBytes(c, src, dst);
    forall i | 0 <= i < |c.addresses|
      ensures Slot(p, i, FamilySize(src.family)) == c.addresses[i].data
    {
      SlotIsFlattened(p, c.addresses, src.family, i);
    }
  }

  lemma ChecksumBytes(c: Content, src: IpAddress, dst: IpAddress)
    requires SameFamily(src, dst)
    ensures var p := Encode(c, src, dst);
      |p| >= 8 && 256 * (p[6] as int) + p[7] == ChecksumValue(Unsealed(c), src, dst, VRRP) < 0xFFFF
  {
    hide Total;
    TotalPositive(Unsealed(c), src, dst, VRRP);
  }

  /** Router 1 with priority 100, interval 100 and no addresses, from 10.0.0.1. */
  lemma KnownPacket()
    ensures Encode(Content(1, 100, 100, []), IpAddress(AF_INET, [10, 0, 0, 1]), IpAddress(AF_INET, [224, 0, 0, 18]))
         == [0x31, 1, 100, 0, 0, 100, 0x80, 0x0E]
  {
    hide ChecksumValue;
    assert Unsealed(Content(1, 100, 100, [])) == SAMPLE;
    KnownChecksumIPv4();
  }

  /** The checks of section 7.1 of RFC 5798, in no particular order. Without a
      known destination the checksum is not checked. */
  ghost predicate Acceptable(d: Datagram, family: int, routers: set<Byte>) {
    && |d.packet| >= 8
    && d.ttl == 255
    && d.packet[0] == 0x31
    && d.packet[1] in routers
    && (d.dst.family == AF_UNSPEC || Verifies(d.packet, d.src, d.dst, VRRP))
    && |d.packet| - 8 >= d.packet[3] * FamilySize(family)
  }

  /** A datagram on a monitored interface is delivered exactly when every check
      holds. */
  lemma DeliveredIffAcceptable(d: Datagram, family: int, routers: set<Byte>)
    ensures Classify(d, family, true, routers) == Delivered <==> Acceptable(d, family, routers)
  {}
}
