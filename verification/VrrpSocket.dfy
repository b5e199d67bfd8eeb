/** The raw socket shared by the services of one address family: interface
    reference counts, the listener table, sending and the receive pipeline. */
module Sockets {
  import opened Addresses
  import opened Checksum
  import opened Advertisement
  import opened Timers

  datatype ErrorKind =
    | ChecksumError | VersionError | VrIdError | AdvIntervalError
    | IpTtlError | InvalidTypeError | PacketLengthError

  /** A call to a listener; listeners are identified by number. */
  datatype Notice =
    | Error(listener: nat, interface: int, vrid: Byte, error: ErrorKind)
    | Packet(listener: nat, interface: int, source: IpAddress, content: Content)

  /** What identifies a virtual router service on this machine. */
  datatype Key = Key(interface: int, vrid: Byte, family: int)

  type Count = n: int | n >= 1 witness 1
  type Counts = map<int, Count>
  type Listeners = map<int, map<Byte, nat>>

  // -------------------------------------------------- registration, on values

  function Joined(counts: Counts, i: int): Counts {
    counts[i := if i in counts then counts[i] + 1 else 1]
  }

  function Left(counts: Counts, i: int): Counts {
    if i !in counts then counts
    else if counts[i] == 1 then counts - {i}
    else counts[i := counts[i] - 1]
  }

  function CountOf(counts: Counts, i: int): nat {
    if i in counts then counts[i] else 0
  }

  function Routers(listeners: Listeners, i: int): map<Byte, nat> {
    if i in listeners then listeners[i] else map[]
  }

  function Listening(listeners: Listeners, i: int, vrid: Byte, listener: nat): Listeners {
    listeners[i := Routers(listeners, i)[vrid := listener]]
  }

  function Silenced(listeners: Listeners, i: int, vrid: Byte): Listeners {
    if i !in listeners then listeners
    else if listeners[i] - {vrid} == map[] then listeners - {i}
    else listeners[i := listeners[i] - {vrid}]
  }

  // ------------------------------------------------------ reception, on values

  datatype Counters = Counters(version: nat, checksum: nat, vrId: nat)

  function Counted(c: Counters, v: Verdict): Counters {
    match v
    case BadVersion => c.(version := c.version + 1)
    case BadChecksum => c.(checksum := c.checksum + 1)
    case UnknownRouter => c.(vrId := c.vrId + 1)
    case _ => c
  }

  /** One error notice for each listener with router id less than below, in
      order of router id. */
  function Broadcast(m: map<Byte, nat>, i: int, error: ErrorKind, below: nat): seq<Notice>
    requires below <= 256
  {
    if below == 0 then [] else
      Broadcast(m, i, error, below - 1) +
      if below - 1 in m then [Error(m[below - 1], i, below - 1, error)] else []
  }

  function VerdictOn(listeners: Listeners, family: int, d: Datagram): Verdict {
    Classify(d, family, d.interface in listeners, Routers(listeners, d.interface).Keys)
  }

  /** The listener calls that one datagram causes. */
  function Reaction(listeners: Listeners, family: int, d: Datagram): seq<Notice> {
    var m, i, p := Routers(listeners, d.interface), d.interface, d.packet;
    match VerdictOn(listeners, family, d)
    case NotMonitored => []
    case TooShort => Broadcast(m, i, PacketLengthError, 256)
    case BadVersion => if p[0] == 0x21 && p[1] in m then [Error(m[p[1]], i, p[1], VersionError)] else []
    case BadChecksum => []
    case BadType => Broadcast(m, i, InvalidTypeError, 256)
    case UnknownRouter => Broadcast(m, i, VrIdError, 256)
    case BadTtl => [Error(m[p[1]], i, p[1], IpTtlError)]
    case BadLength => [Error(m[p[1]], i, p[1], PacketLengthError)]
    case Delivered => [Packet(m[p[1]], i, d.src, Decode(p, family))]
  }

  // -------------------------------------------------------- sending, on values

  /** What becomes of an advertisement: handed to the kernel, rejected, or
      written past the end of the buffer. */
  datatype Sending = Dispatched | Rejected | Overrun

  /** How many addresses come before the first one of another family. */
  function OwnPrefix(addresses: seq<IpAddress>, family: int): (n: nat)
    ensures n <= |addresses|
  {
    if addresses == [] || addresses[0].family != family then 0 else 1 + OwnPrefix(addresses[1..], family)
  }

  function Fate(addresses: seq<IpAddress>, family: int): Sending {
    var n := OwnPrefix(addresses, family);
    if 8 + n * FamilySize(family) > BUFFER_SIZE then Overrun
    else if n < |addresses| then Rejected
    else Dispatched
  }

  lemma {:induction false} OwnPrefixIs(addresses: seq<IpAddress>, family: int, n: nat)
    requires n <= |addresses| && AllOfFamily(addresses[..n], family)
    ensures OwnPrefix(addresses, family) >= n
    ensures n == |addresses| || addresses[n].family != family ==> OwnPrefix(addresses, family) == n
  {
    if n > 0 {
      assert addresses[0] in addresses[..n];
      assert addresses[1..][..n - 1] == addresses[..n][1..];
      OwnPrefixIs(addresses[1..], family, n - 1);
    }
  }

  lemma {:induction false} OwnPrefixIsOwn(addresses: seq<IpAddress>, family: int, k: nat)
    requires k < OwnPrefix(addresses, family)
    ensures addresses[k].family == family
  {
    if k > 0 {
      OwnPrefixIsOwn(addresses[1..], family, k - 1);
    }
  }

  lemma OwnPrefixWhole(addresses: seq<IpAddress>, family: int)
    ensures OwnPrefix(addresses, family) == |addresses| ==> AllOfFamily(addresses, family)
  {
    if OwnPrefix(addresses, family) == |addresses| {
      forall a | a in addresses
        ensures a.family == family
      {
        var k :| 0 <= k < |addresses| && addresses[k] == a;
        OwnPrefixIsOwn(addresses, family, k);
      }
    }
  }

  lemma NoAddresses(addresses: seq<IpAddress>, family: int)
    ensures AllOfFamily(addresses[..0], family) && Flatten(addresses[..0]) == []
  {}

  lemma OneMore(addresses: seq<IpAddress>, family: int, k: nat)
    requires k < |addresses| && AllOfFamily(addresses[..k], family) && addresses[k].family == family
    ensures addresses[..k + 1] == addresses[..k] + [addresses[k]]
    ensures AllOfFamily(addresses[..k + 1], family) && OwnPrefix(addresses, family) >= k + 1
    ensures |Flatten(addresses[..k + 1])| == (k + 1) * FamilySize(family) == k * FamilySize(family) + FamilySize(family)
  {
    OwnPrefixIs(addresses, family, k + 1);
    FlattenLength(addresses[..k + 1], family);
    Distribute(k, FamilySize(family));
  }

  lemma AtLeast(a: nat, b: nat, size: nat)
    requires a <= b
    ensures a * size <= b * size
  {}

  /** The number of addresses for which the buffer has room. */
  function Capacity(family: int): nat {
    if family == AF_INET then 510 else 127
  }

  /** An own list is sent exactly if there is room for it; otherwise the code
      overruns its buffer. */
  lemma FateExact(addresses: seq<IpAddress>, family: int)
    requires family == AF_INET || family == AF_INET6
    requires AllOfFamily(addresses, family)
    ensures Fate(addresses, family) == if |addresses| <= Capacity(family) then Dispatched else Overrun
  {
    assert addresses[..|addresses|] == addresses;
    OwnPrefixIs(addresses, family, |addresses|);
  }

  /** With an address of another family the attempt is rejected if the code gets
      as far as that address. */
  lemma ForeignFate(addresses: seq<IpAddress>, family: int, k: nat)
    requires family == AF_INET || family == AF_INET6
    requires k < |addresses| && AllOfFamily(addresses[..k], family) && addresses[k].family != family
    ensures Fate(addresses, family) == if k <= Capacity(family) then Rejected else Overrun
  {
    OwnPrefixIs(addresses, family, k);
  }

  // ------------------------------------------------------------------ classes

  /** The counters are static members, shared by the sockets of both families. */
  class Statistics {
    var versionErrors: nat
    var checksumErrors: nat
    var vrIdErrors: nat

    constructor ()
      ensures Value() == Counters(0, 0, 0)
    {
      versionErrors, checksumErrors, vrIdErrors := 0, 0, 0;
    }

    ghost function Value(): Counters
      reads this
    {
      Counters(versionErrors, checksumErrors, vrIdErrors)
    }
  }

  class VrrpSocket {
    const family: int
    const multicast: IpAddress
    const buffer: array<Byte>
    const statistics: Statistics
    var interfaceCount: Counts
    var listeners: Listeners
    ghost var notices: seq<Notice>   // every listener call so far
    ghost var datagrams: seq<seq<Byte>>  // every datagram handed to sendmsg so far

    ghost predicate Valid() {
      buffer.Length == BUFFER_SIZE && family == multicast.family && (family == AF_INET || family == AF_INET6)
    }

    constructor (multicast: IpAddress, statistics: Statistics)
      requires multicast.family == AF_INET || multicast.family == AF_INET6
      ensures Valid() && fresh(buffer)
      ensures this.multicast == multicast && this.statistics == statistics
      ensures interfaceCount == map[] && listeners == map[] && notices == [] && datagrams == []
    {
      this.family, this.multicast, this.statistics := multicast.family, multicast, statistics;
      buffer := new Byte[BUFFER_SIZE](_ => 0);
      interfaceCount, listeners, notices, datagrams := map[], map[], [], [];
    }

    /** joins says whether the kernel accepts the multicast membership. */
    method AddInterface(i: int, joins: bool) returns (ok: bool)
      modifies this`interfaceCount
      ensures ok <==> i in old(interfaceCount) || joins
      ensures interfaceCount == if ok then Joined(old(interfaceCount), i) else old(interfaceCount)
    {
      if i in interfaceCount {
        interfaceCount := interfaceCount[i := interfaceCount[i] + 1];
      } else if !joins {
        return false;
      } else {
        interfaceCount := interfaceCount[i := 1];
      }
      return true;
    }

    /** leaves says whether the kernel accepts dropping the membership. */
    method RemoveInterface(i: int, leaves: bool) returns (ok: bool)
      modifies this`interfaceCount
      ensures ok <==> i in old(interfaceCount) && (old(interfaceCount)[i] == 1 ==> leaves)
      ensures interfaceCount == if ok then Left(old(interfaceCount), i) else old(interfaceCount)
    {
      if i !in interfaceCount {
        return false;
      } else if interfaceCount[i] == 1 {
        if !leaves {
          return false;
        }
        interfaceCount := interfaceCount - {i};
        return true;
      } else {
        interfaceCount := interfaceCount[i := interfaceCount[i] - 1];
        return true;
      }
    }

    method AddEventListener(i: int, vrid: Byte, listener: nat)
      modifies this`listeners
      ensures listeners == Listening(old(listeners), i, vrid, listener)
    {
      if i !in listeners {
        listeners := listeners[i := map[]];
      }
      var routers: map<Byte, nat> := listeners[i];
      routers := routers[vrid := listener];
      listeners := listeners[i := routers];
    }

    method RemoveEventListener(i: int, vrid: Byte)
      modifies this`listeners
      ensures listeners == Silenced(old(listeners), i, vrid)
    {
      if i in listeners {
        if vrid in listeners[i] {
          listeners := listeners[i := listeners[i] - {vrid}];
        } else {
          assert listeners[i] - {vrid} == listeners[i];
          assert listeners[i := listeners[i]] == listeners;
        }
        if |listeners[i]| == 0 {
          assert listeners - {i} == old(listeners) - {i};
          listeners := listeners - {i};
        }
      }
    }

    /** Copies one address behind a header and the addresses done. */
    method WriteAddress(at: nat, a: IpAddress, ghost header: seq<Byte>, ghost done: seq<IpAddress>)
      requires at + |a.data| <= buffer.Length
      requires buffer[..at] == header + Flatten(done)
      modifies buffer
      ensures buffer[..at + |a.data|] == header + Flatten(done + [a])
    {
      hide Flatten;
      FlattenStep(header, done, a);
      forall k | 0 <= k < |a.data| {
        buffer[at + k] := a.data[k];
      }
      assert buffer[at..at + |a.data|] == a.data;
      assert buffer[..at + |a.data|] == buffer[..at] + buffer[at..at + |a.data|];
    }

    method WriteHeader(vrid: Byte, priority: Byte, interval: nat, count: nat)
      requires Valid()
      modifies buffer
      ensures buffer[..8] == Header(vrid, priority, interval, count)
    {
      buffer[0], buffer[1], buffer[2], buffer[3] := 0x31, vrid, priority, count % 256;
      buffer[4], buffer[5], buffer[6], buffer[7] := (interval / 256) % 16, interval % 256, 0, 0;
    }

    /** Writes the addresses in set order; stops at the first one of another
        family, and, in place of the code's write past the end of the buffer, at
        the first one that does not fit. */
    method WriteAddresses(addresses: seq<IpAddress>) returns (outcome: Sending, end: nat)
      requires Valid()
      modifies buffer
      ensures outcome == Fate(addresses, family)
      ensures outcome == Dispatched ==> end == 8 + |Flatten(addresses)| <= BUFFER_SIZE
      ensures outcome == Dispatched ==> buffer[..end] == old(buffer[..8]) + Flatten(addresses)
    {
      hide Flatten, AllOfFamily, OwnPrefix;
      ghost var header := buffer[..8];
      end := 8;
      var k := 0;
      NoAddresses(addresses, family);
      while k < |addresses|
        invariant k <= |addresses| && AllOfFamily(addresses[..k], family)
        invariant end == 8 + k * FamilySize(family) == 8 + |Flatten(addresses[..k])| <= BUFFER_SIZE
        invariant buffer[..end] == header + Flatten(addresses[..k])
      {
        if addresses[k].family != family {
          OwnPrefixIs(addresses, family, k);
          return Rejected, end;
        }
        OneMore(addresses, family, k);
        if end + FamilySize(family) > BUFFER_SIZE {
          AtLeast(k + 1, OwnPrefix(addresses, family), FamilySize(family));
          return Overrun, end;
        }
        WriteAddress(end, addresses[k], header, addresses[..k]);
        end, k := end + FamilySize(family), k + 1;
      }
      assert addresses[..k] == addresses;
      OwnPrefixIs(addresses, family, k);
      outcome := Dispatched;
    }

    /** VrrpSocket::sendPacket up to the call of sendmsg. After an overrun the
        code goes on, but what it sends then is anybody's guess. */
    method SendPacket(address: IpAddress, vrid: Byte, priority: Byte, interval: nat, addresses: set<IpAddress>)
      returns (outcome: Sending)
      requires Valid()
      modifies buffer, this`datagrams
      ensures outcome == if address.family != family then Rejected else Fate(InOrder(addresses), family)
      ensures var sent := Encode(Content(vrid, priority, interval, InOrder(addresses)), address, multicast);
        outcome == Dispatched ==> datagrams == old(datagrams) + [sent]
      ensures outcome == Dispatched ==>
        datagrams != [] && SameFamily(address, multicast) &&
        OnWire(datagrams[|datagrams| - 1], vrid, priority, interval, InOrder(addresses), address, multicast)
      ensures outcome == Rejected ==> datagrams == old(datagrams)
    {
      if address.family != family {
        return Rejected;
      }
      WriteHeader(vrid, priority, interval, |addresses|);
      var elements := Elements(addresses);
      InOrderVisitsEachOnce(addresses);
      var end;
      outcome, end := WriteAddresses(elements);
      if outcome == Overrun {
        datagrams := *;
        return;
      }
      if outcome == Rejected {
        return;
      }
      var checksum := Compute(buffer[..end], address, multicast, VRRP);
      assert buffer[..end] == Unsealed(Content(vrid, priority, interval, InOrder(addresses)));
      assert checksum < 65536;
      Seal(end, checksum);
      OwnPrefixWhole(elements, family);
      SentBytes(Content(vrid, priority, interval, elements), address, multicast);
      datagrams := datagrams + [buffer[..end]];
    }

    method Seal(end: nat, checksum: nat)
      requires 8 <= end <= buffer.Length && checksum < 65536
      modifies buffer
      ensures buffer[..end] == WithWord(old(buffer[..end]), 3, checksum)
    {
      buffer[6], buffer[7] := checksum / 256, checksum % 256;
    }

    /** Reports an error to every listener on an interface. */
    method NotifyAll(i: int, error: ErrorKind)
      modifies this`notices
      ensures notices == old(notices) + Broadcast(Routers(listeners, i), i, error, 256)
    {
      var m := if i in listeners then listeners[i] else map[];
      for v := 0 to 256
        invariant notices == old(notices) + Broadcast(m, i, error, v)
      {
        if v in m {
          notices := notices + [Error(m[v], i, v, error)];
        }
      }
    }

    method Notify(i: int, vrid: Byte, error: ErrorKind)
      requires vrid in Routers(listeners, i)
      modifies this`notices
      ensures notices == old(notices) + [Error(Routers(listeners, i)[vrid], i, vrid, error)]
    {
      notices := notices + [Error(Routers(listeners, i)[vrid], i, vrid, error)];
    }

    /** VrrpSocket::onSocketPacket from the point where interface, TTL, addresses
        and VRRP payload are known. */
    method OnSocketPacket(d: Datagram) returns (ok: bool)
      requires |d.packet| <= 65535
      modifies this`notices, statistics
      ensures ok <==> VerdictOn(listeners, family, d) == Delivered
      ensures notices == old(notices) + Reaction(listeners, family, d)
      ensures statistics.Value() == Counted(old(statistics.Value()), VerdictOn(listeners, family, d))
    {
      var i, packet := d.interface, d.packet;
      if i !in listeners {
        return false;
      }
      if |packet| < 8 {
        NotifyAll(i, PacketLengthError);
        return false;
      }
      if packet[0] / 16 != 3 {
        if packet[0] == 0x21 && packet[1] in listeners[i] {
          Notify(i, packet[1], VersionError);
        }
        statistics.versionErrors := statistics.versionErrors + 1;
        return false;
      }
      if d.dst.family != AF_UNSPEC {
        var checksum := Compute(packet, d.src, d.dst, VRRP);
        if checksum != 0 {
          statistics.checksumErrors := statistics.checksumErrors + 1;
          return false;
        }
      }
      ok := OnVerifiedPacket(d);
    }

    /** The rest of the pipeline, once version and checksum are accepted. */
    method OnVerifiedPacket(d: Datagram) returns (ok: bool)
      requires d.interface in listeners && |d.packet| >= 8
      requires VerdictOn(listeners, family, d) !in {TooShort, BadVersion, BadChecksum}
      modifies this`notices, statistics
      ensures ok <==> VerdictOn(listeners, family, d) == Delivered
      ensures notices == old(notices) + Reaction(listeners, family, d)
      ensures statistics.Value() == Counted(old(statistics.Value()), VerdictOn(listeners, family, d))
    {
      var i, packet := d.interface, d.packet;
      var routers := listeners[i];
      if packet[0] % 16 != 1 {
        NotifyAll(i, InvalidTypeError);
        return false;
      }
      var vrid := packet[1];
      if vrid !in routers {
        NotifyAll(i, VrIdError);
        statistics.vrIdErrors := statistics.vrIdErrors + 1;
        return false;
      }
      if d.ttl != 255 {
        Notify(i, vrid, IpTtlError);
        return false;
      }
      if !Complete(packet, family) {
        Notify(i, vrid, PacketLengthError);
        return false;
      }
      var addresses := ReadAddresses(packet);
      notices := notices + [Packet(routers[vrid], i, d.src, Content(vrid, packet[2], Interval(packet), addresses))];
      return true;
    }

    /** The loop that builds the address list from the packet. */
    method ReadAddresses(packet: seq<Byte>) returns (addresses: seq<IpAddress>)
      requires Complete(packet, family)
      ensures addresses == DecodeAddresses(packet[8..], family, packet[3])
    {
      var size, n := FamilySize(family), packet[3];
      addresses := [];
      var i, at := 0, 8;
      ghost var all := DecodeAddresses(packet[8..], family, n);
      while i != n
        invariant i <= n && at == 8 + i * size
        invariant addresses == all[..i]
        decreases n - i
      {
        AddressInRange(i, n, size);
        Distribute(i, size);
        TailSlice(packet, 8, i * size, size);
        addresses := addresses + [IpAddress(family, packet[at..at + size])];
        i, at := i + 1, at + size;
      }
    }
  }

  lemma FlattenStep(header: seq<Byte>, done: seq<IpAddress>, x: IpAddress)
    ensures header + Flatten(done + [x]) == (header + Flatten(done)) + x.data
  {}

  // ----------------------------------------------------------------- theorems

  lemma {:induction false} BroadcastOnlyListeners(m: map<Byte, nat>, i: int, error: ErrorKind, below: nat, n: Notice)
    requires below <= 256 && n in Broadcast(m, i, error, below)
    ensures n.Error? && n.vrid < below && n.vrid in m && n == Error(m[n.vrid], i, n.vrid, error)
  {
    if n in Broadcast(m, i, error, below - 1) {
      BroadcastOnlyListeners(m, i, error, below - 1, n);
    }
  }

  lemma CountLast<T>(s: seq<T>, last: T, x: T)
    ensures multiset(s + [last])[x] == multiset(s)[x] + if x == last then 1 else 0
  {}

  /** A broadcast calls each listener on the interface exactly once and nobody
      else. */
  lemma {:induction false} BroadcastReachesEachOnce(m: map<Byte, nat>, i: int, error: ErrorKind, below: nat, n: Notice)
    requires below <= 256
    ensures multiset(Broadcast(m, i, error, below))[n]
         == if n.Error? && n.vrid < below && n.vrid in m && n == Error(m[n.vrid], i, n.vrid, error) then 1 else 0
  {
    if below > 0 {
      var rest := Broadcast(m, i, error, below - 1);
      BroadcastReachesEachOnce(m, i, error, below - 1, n);
      if below - 1 in m {
        CountLast(rest, Error(m[below - 1], i, below - 1, error), n);
      }
    }
  }

  /** One datagram, the socket it comes in at and the listeners there. */
  datatype Arrival = Arrival(family: int, listeners: Listeners, datagram: Datagram)

  function VerdictOf(a: Arrival): Verdict {
    VerdictOn(a.listeners, a.family, a.datagram)
  }

  ghost function Tally(arrivals: seq<Arrival>, v: Verdict): nat {
    if arrivals == [] then 0
    else Tally(arrivals[..|arrivals| - 1], v) + if VerdictOf(arrivals[|arrivals| - 1]) == v then 1 else 0
  }

  /** The counters after a run of arrivals at both sockets. */
  ghost function CountedAll(c: Counters, arrivals: seq<Arrival>): Counters {
    if arrivals == [] then c
    else Counted(CountedAll(c, arrivals[..|arrivals| - 1]), VerdictOf(arrivals[|arrivals| - 1]))
  }

  /** Packets among the calls to listeners. */
  ghost function Packets(notices: seq<Notice>): nat {
    if notices == [] then 0
    else Packets(notices[..|notices| - 1]) + if notices[|notices| - 1].Packet? then 1 else 0
  }

  ghost function Calls(arrivals: seq<Arrival>): seq<Notice> {
    if arrivals == [] then []
    else
      var last := arrivals[|arrivals| - 1];
      Calls(arrivals[..|arrivals| - 1]) + Reaction(last.listeners, last.family, last.datagram)
  }

  lemma {:induction false} PacketsAppend(a: seq<Notice>, b: seq<Notice>)
    ensures Packets(a + b) == Packets(a) + Packets(b)
  {
    if b == [] {
      assert a + b == a;
    } else {
      PacketsAppend(a, b[..|b| - 1]);
      assert (a + b)[..|a + b| - 1] == a + b[..|b| - 1];
    }
  }

  lemma {:induction false} ErrorsAreNoPackets(notices: seq<Notice>)
    requires forall n :: n in notices ==> n.Error?
    ensures Packets(notices) == 0
  {
    if notices != [] {
      ErrorsAreNoPackets(notices[..|notices| - 1]);
      assert notices[|notices| - 1] in notices;
    }
  }

  lemma BroadcastIsErrors(m: map<Byte, nat>, i: int, error: ErrorKind)
    ensures Packets(Broadcast(m, i, error, 256)) == 0
  {
    forall n | n in Broadcast(m, i, error, 256)
      ensures n.Error?
    {
      BroadcastOnlyListeners(m, i, error, 256, n);
    }
    ErrorsAreNoPackets(Broadcast(m, i, error, 256));
  }

  lemma PacketsOfReaction(a: Arrival)
    ensures Packets(Reaction(a.listeners, a.family, a.datagram)) == if VerdictOf(a) == Delivered then 1 else 0
  {
    hide Classify, Broadcast, DecodeAddresses;
    forall n: Notice
      ensures Packets([n]) == if n.Packet? then 1 else 0
    {
      assert [n][..0] == [];
    }
    var m, i := Routers(a.listeners, a.datagram.interface), a.datagram.interface;
    BroadcastIsErrors(m, i, PacketLengthError);
    BroadcastIsErrors(m, i, InvalidTypeError);
    BroadcastIsErrors(m, i, VrIdError);
  }

  /** Over any run of datagrams, at any sockets and with any listeners, the
      shared counters are the numbers of datagrams dropped for version, checksum
      and router id, and listeners are handed a packet once for each one
      delivered. */
  lemma {:induction false} CountersAreTallies(c: Counters, arrivals: seq<Arrival>)
    ensures CountedAll(c, arrivals) == Counters(
      c.version + Tally(arrivals, BadVersion),
      c.checksum + Tally(arrivals, BadChecksum),
      c.vrId + Tally(arrivals, UnknownRouter))
    ensures Packets(Calls(arrivals)) == Tally(arrivals, Delivered)
  {
    hide VerdictOf, Reaction;
    if arrivals != [] {
      var before, last := arrivals[..|arrivals| - 1], arrivals[|arrivals| - 1];
      CountersAreTallies(c, before);
      PacketsOfReaction(last);
      PacketsAppend(Calls(before), Reaction(last.listeners, last.family, last.datagram));
    }
  }

  lemma DeliveredReaction(listeners: Listeners, family: int, d: Datagram)
    requires VerdictOn(listeners, family, d) == Delivered
    ensures d.interface in listeners && Complete(d.packet, family)
    ensures var c := Decode(d.packet, family);
      c.vrid in listeners[d.interface] &&
      Reaction(listeners, family, d) == [Packet(listeners[d.interface][c.vrid], d.interface, d.src, c)]
  {}

  /** What a listener is given, byte by byte. */
  ghost predicate ReadsAs(p: seq<Byte>, family: int, c: Content)
    requires |p| >= 8
  {
    var size := if family == AF_INET then 4 else if family == AF_INET6 then 16 else 0;
    && c.vrid == p[1] && c.priority == p[2] && c.interval == 256 * (p[4] as int % 16) + p[5]
    && |c.addresses| == p[3]
    && forall i :: 0 <= i < |c.addresses| ==> c.addresses[i].family == family && Slot(p, i, size) == c.addresses[i].data
  }

  lemma SlotIsDecoded(p: seq<Byte>, family: int, i: nat)
    requires Complete(p, family) && i < p[3]
    ensures var a := DecodeAddresses(p[8..], family, p[3])[i];
      a.family == family && Slot(p, i, FamilySize(family)) == a.data
  {
    AddressInRange(i, p[3], FamilySize(family));
    TailSlice(p, 8, i * FamilySize(family), FamilySize(family));
  }

  /** A delivered datagram leads to one call, to the listener of the router id in
      its second byte, with what its bytes say. */
  lemma DeliveredBytes(listeners: Listeners, family: int, d: Datagram)
    requires VerdictOn(listeners, family, d) == Delivered
    ensures |d.packet| >= 8 && d.interface in listeners && d.packet[1] in listeners[d.interface]
    ensures exists c ::
      ReadsAs(d.packet, family, c) &&
      Reaction(listeners, family, d) == [Packet(listeners[d.interface][d.packet[1]], d.interface, d.src, c)]
  {
    hide DecodeAddresses, Slot, Classify;
    DeliveredReaction(listeners, family, d);
    var c := Decode(d.packet, family);
    forall i | 0 <= i < |c.addresses|
      ensures c.addresses[i].family == family && Slot(d.packet, i, FamilySize(family)) == c.addresses[i].data
    {
      SlotIsDecoded(d.packet, family, i);
    }
    assert ReadsAs(d.packet, family, c);
  }

  // ------------------------------------------------------------------- errors

  /** Whether the checksum of a datagram is checked and fails: the words of
      pseudo-header and packet do not sum to a multiple of 65535. */
  ghost predicate Corrupt(d: Datagram) {
    SameFamily(d.src, d.dst) && Total(d.packet, d.src, d.dst, 112) % 65535 != 0
  }

  /** Which error the listener of a router id is told of, from its own point of
      view: a packet too short and one of another type concern everybody, and so
      does a router id that nobody has; a VRRPv2 packet, a wrong TTL and missing
      addresses only the router that they name; a wrong checksum nobody. */
  ghost function ErrorFor(d: Datagram, family: int, routers: set<Byte>, v: Byte): Option<ErrorKind> {
    var p := d.packet;
    if |p| < 8 then Some(PacketLengthError)
    else if !(0x30 <= p[0] <= 0x3F) then (if p[0] == 0x21 && p[1] == v then Some(VersionError) else None)
    else if Corrupt(d) then None
    else if p[0] != 0x31 then Some(InvalidTypeError)
    else if p[1] !in routers then Some(VrIdError)
    else if p[1] != v then None
    else if d.ttl != 255 then Some(IpTtlError)
    else if |p| < 8 + p[3] * FamilySize(family) then Some(PacketLengthError)
    else None
  }

  lemma CorruptIs(d: Datagram)
    ensures Corrupt(d) <==> d.dst.family != AF_UNSPEC && ChecksumValue(d.packet, d.src, d.dst, VRRP) != 0
  {
    if SameFamily(d.src, d.dst) {
      VerifiesIffDivisible(d.packet, d.src, d.dst, VRRP);
    }
  }

  /** A listener is told of an error once, if that is its error, and otherwise not
      at all; nobody else is told of any. */
  lemma ErrorsExact(listeners: Listeners, family: int, d: Datagram, n: Notice)
    requires n.Error?
    ensures multiset(Reaction(listeners, family, d))[n] ==
      var m := Routers(listeners, d.interface);
      if d.interface in listeners && n.interface == d.interface && n.vrid in m && n.listener == m[n.vrid] &&
         ErrorFor(d, family, m.Keys, n.vrid) == Some(n.error) then 1 else 0
  {
    hide Total, ChecksumValue, Broadcast;
    var m, i, v := Routers(listeners, d.interface), d.interface, n.vrid;
    CorruptIs(d);
    BroadcastReachesEachOnce(m, i, PacketLengthError, 256, n);
    BroadcastReachesEachOnce(m, i, InvalidTypeError, 256, n);
    BroadcastReachesEachOnce(m, i, VrIdError, 256, n);
  }

  /** Which datagrams the three shared counters count. */
  lemma CountedExact(listeners: Listeners, family: int, d: Datagram)
    ensures var p, v := d.packet, VerdictOn(listeners, family, d);
      && (v == BadVersion <==> d.interface in listeners && |p| >= 8 && !(0x30 <= p[0] <= 0x3F))
      && (v == BadChecksum <==> d.interface in listeners && |p| >= 8 && 0x30 <= p[0] <= 0x3F && Corrupt(d))
      && (v == UnknownRouter <==>
            d.interface in listeners && |p| >= 8 && p[0] == 0x31 && !Corrupt(d) && p[1] !in listeners[d.interface])
  {
    hide Total, ChecksumValue;
    CorruptIs(d);
  }

  /** What one router sends is what a listener for its router id is given: the
      datagram built from at most 255 addresses of the family causes a single
      call with the same fields and the addresses in the order sent. */
  lemma SentIsReceived(listeners: Listeners, d: Datagram, c: Content, family: int)
    requires AllOfFamily(c.addresses, family) && |c.addresses| <= 255 && c.interval <= 4095
    requires SameFamily(d.src, d.dst) && d.ttl == 255
    requires d.interface in listeners && c.vrid in listeners[d.interface]
    requires d.packet == Encode(c, d.src, d.dst)
    ensures Reaction(listeners, family, d) == [Packet(listeners[d.interface][c.vrid], d.interface, d.src, c)]
  {
    RoundTripExact(c, d, family, listeners[d.interface].Keys);
    DeliveredReaction(listeners, family, d);
  }
}
