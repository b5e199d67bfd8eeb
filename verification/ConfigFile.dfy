/** The Configurator methods over streams. Every method is proved against the
    functions of ConfigFormat and Configurators; that the read methods verify is
    also the proof that they terminate on every file. */
module ConfigFile {
  import opened Addresses
  import opened ConfigFormat
  import opened Configurators
  import Spec = RouterSpec
  import opened Sockets

  /** An input file; readsome finds all of what is left available. */
  class InputStream {
    const file: Bytes
    var pos: nat

    constructor (file: Bytes)
      ensures this.file == file && pos == 0 && Valid()
    {
      this.file, pos := file, 0;
    }

    ghost predicate Valid()
      reads this
    {
      pos <= |file|
    }

    method ReadSome(n: nat) returns (got: Bytes)
      requires Valid()
      modifies this
      ensures pos == if old(pos) + n <= |file| then old(pos) + n else |file|
      ensures Valid() && got == file[old(pos)..pos]
    {
      var end := if pos + n <= |file| then pos + n else |file|;
      got := file[pos..end];
      pos := end;
    }
  }

  class OutputStream {
    var written: Bytes

    constructor ()
      ensures written == []
    {
      written := [];
    }

    method Write(b: Bytes)
      modifies this
      ensures written == old(written) + b
    {
      written := written + b;
    }
  }

  /** What a read method promises: the parser's verdict, and on success its value
      and position. */
  ghost predicate Agrees<T>(parsed: Parsed<T>, ok: bool, value: T, pos: nat) {
    (ok <==> parsed.Ok?) && (ok ==> parsed == Ok(value, pos))
  }

  // ------------------------------------------------------------------ reading

  method ReadInt(s: InputStream) returns (ok: bool, value: int)
    requires s.Valid()
    modifies s
    ensures s.Valid() && Agrees(ParseInt(s.file, old(s.pos)), ok, value, s.pos)
  {
    var buffer := s.ReadSome(4);
    if |buffer| != 4 {
      return false, 0;
    }
    return true, ToInt(buffer);
  }

  method ReadBoolean(s: InputStream) returns (ok: bool, value: bool)
    requires s.Valid()
    modifies s
    ensures s.Valid() && Agrees(ParseBoolean(s.file, old(s.pos)), ok, value, s.pos)
  {
    var buffer := s.ReadSome(1);
    if |buffer| != 1 {
      return false, false;
    }
    return true, buffer[0] != 0;
  }

  method ReadString(s: InputStream) returns (ok: bool, value: Bytes)
    requires s.Valid()
    modifies s
    ensures s.Valid() && Agrees(ParseString(s.file, old(s.pos)), ok, value, s.pos)
  {
    var size := s.ReadSome(1);
    if |size| != 1 {
      return false, [];
    }
    var buffer := s.ReadSome(size[0]);
    if |buffer| != size[0] {
      return false, [];
    }
    return true, buffer;
  }

  method ReadIp(s: InputStream) returns (ok: bool, address: IpAddress)
    requires s.Valid()
    modifies s
    ensures s.Valid() && Agrees(ParseIp(s.file, old(s.pos)), ok, address, s.pos)
  {
    address := IpAddress(AF_UNSPEC, []);
    var family;
    ok, family := ReadInt(s);
    if !ok {
      return;
    }
    var size := FamilySize(family);
    if size > 0 {
      var buffer := s.ReadSome(size);
      if |buffer| != size {
        return false, address;
      }
      address := IpAddress(family, buffer);
    }
  }

  method ReadSubnet(s: InputStream) returns (ok: bool, subnet: IpSubnet)
    requires s.Valid()
    modifies s
    ensures s.Valid() && Agrees(ParseSubnet(s.file, old(s.pos)), ok, subnet, s.pos)
  {
    var address, cidr;
    subnet := IpSubnet(IpAddress(AF_UNSPEC, []), 0);
    ok, address := ReadIp(s);
    if !ok {
      return;
    }
    ok, cidr := ReadInt(s);
    if !ok {
      return;
    }
    subnet := IpSubnet(address, cidr % WORD);
  }

  /** The loop over the subnets. Its test is j != addressCount, so with a
      negative count only the end of the file stops it. */
  method ReadSubnets(s: InputStream, addressCount: int) returns (ok: bool, subnets: set<IpSubnet>)
    requires s.Valid()
    modifies s
    ensures s.Valid() && Agrees(ParseSubnets(s.file, old(s.pos), addressCount, {}), ok, subnets, s.pos)
    ensures addressCount < 0 ==> !ok
  {
    subnets := {};
    var j := 0;
    while j != addressCount
      invariant s.Valid()
      invariant addressCount < 0 || j <= addressCount
      invariant ParseSubnets(s.file, old(s.pos), addressCount, {})
             == ParseSubnets(s.file, s.pos, addressCount - j, subnets)
      decreases |s.file| - s.pos
    {
      var subnet;
      ok, subnet := ReadSubnet(s);
      if !ok {
        return;
      }
      subnets := subnets + {subnet};
      j := j + 1;
    }
    ok := true;
  }

  method ReadHead(s: InputStream) returns (ok: bool, h: Head)
    requires s.Valid()
    modifies s
    ensures s.Valid() && Agrees(ParseHead(s.file, old(s.pos)), ok, h, s.pos)
  {
    h := Head([], 0, 0, 0, 0, false, false, false, 0);
    var interface, vrid, family, priority, interval, accept, preempt, enabled, flags;
    ok, interface := ReadString(s);
    if !ok { return; }
    ok, vrid := ReadInt(s);
    if !ok { return; }
    ok, family := ReadInt(s);
    if !ok { return; }
    ok, priority := ReadInt(s);
    if !ok { return; }
    ok, interval := ReadInt(s);
    if !ok { return; }
    ok, accept := ReadBoolean(s);
    if !ok { return; }
    ok, preempt := ReadBoolean(s);
    if !ok { return; }
    ok, enabled := ReadBoolean(s);
    if !ok { return; }
    ok, flags := ReadInt(s);
    if !ok { return; }
    h := Head(interface, vrid, family, priority, interval, accept, preempt, enabled, flags);
  }

  method ReadPrimary(s: InputStream, flags: int) returns (ok: bool, address: IpAddress)
    requires s.Valid()
    modifies s
    ensures s.Valid() && Agrees(ParsePrimary(s.file, old(s.pos), flags), ok, address, s.pos)
  {
    if HasPrimary(flags) {
      ok, address := ReadIp(s);
    } else {
      ok, address := true, IpAddress(AF_UNSPEC, []);
    }
  }

  method ReadCommand(s: InputStream, version: int) returns (ok: bool, command: Bytes)
    requires s.Valid()
    modifies s
    ensures s.Valid() && Agrees(ParseCommand(s.file, old(s.pos), version), ok, command, s.pos)
  {
    if version > 1 {
      ok, command := ReadString(s);
    } else {
      ok, command := true, [];
    }
  }

  /** stale is what the uninitialised variable happens to hold. */
  method ReadVlan(s: InputStream, version: int, stale: int) returns (ok: bool, vlanId: int)
    requires s.Valid()
    modifies s
    ensures s.Valid() && Agrees(ParseVlan(s.file, old(s.pos), version, stale), ok, vlanId, s.pos)
  {
    if version > 2 {
      ok, vlanId := ReadInt(s);
    } else {
      ok, vlanId := true, stale;
    }
  }

  method ReadRecord(s: InputStream, version: int, stale: int) returns (ok: bool, r: Record)
    requires s.Valid()
    modifies s
    ensures s.Valid() && Agrees(ParseRecord(s.file, old(s.pos), version, stale), ok, r, s.pos)
  {
    var head, primary, masterCommand, backupCommand, vlanId, count, subnets;
    ok, head := ReadHead(s);
    r := Record(head, IpAddress(AF_UNSPEC, []), [], [], 0, {});
    if !ok { return; }
    ok, primary := ReadPrimary(s, head.flags);
    if !ok { return; }
    ok, masterCommand := ReadCommand(s, version);
    if !ok { return; }
    ok, backupCommand := ReadCommand(s, version);
    if !ok { return; }
    ok, vlanId := ReadVlan(s, version, stale);
    if !ok { return; }
    ok, count := ReadInt(s);
    if !ok { return; }
    ok, subnets := ReadSubnets(s, count);
    if !ok { return; }
    r := Record(head, primary, masterCommand, backupCommand, vlanId, subnets);
  }

  /** The loop over addIpAddress. */
  method AddSubnets(r: Spec.Router, subnets: set<IpSubnet>) returns (after: Spec.Router)
    ensures after == WithSubnets(r, subnets)
  {
    hide WithSubnets, Spec.AddIpAddress;
    after := r;
    var rest := subnets;
    NoSubnets(r);
    assert subnets - rest == {};
    while rest != {}
      invariant rest <= subnets && after == WithSubnets(r, subnets - rest)
    {
      var subnet :| subnet in rest;
      OneMoreSubnet(r, subnets - rest, subnet);
      assert subnets - (rest - {subnet}) == (subnets - rest) + {subnet};
      after := Spec.AddIpAddress(after, subnet);
      rest := rest - {subnet};
    }
    assert subnets - rest == subnets;
  }

  /** The setter calls on the service of a record. */
  method Load(r: Record, s: Service, linkUp: bool) returns (after: Service)
    requires Sane(r.head)
    ensures after == Loaded(r, s, linkUp)
  {
    var router := Spec.SetPriority(s.router, r.head.priority);
    router := Spec.SetInterval(router, r.head.interval / 10);
    router := Spec.SetAccept(router, r.head.accept);
    router := Spec.SetPreempt(router, r.head.preempt);
    var autoPrimary := s.autoPrimary;
    if HasPrimary(r.head.flags) {
      autoPrimary := autoPrimary && r.primary.family != router.config.family;
      router := Spec.SetPrimary(router, r.primary);
    }
    router := AddSubnets(router, r.subnets);
    router := if r.head.enabled then Spec.Enable(router, linkUp) else Spec.Disable(router);
    after := Service(router, autoPrimary, r.masterCommand, r.backupCommand);
  }

  /** Sanitises a record, gets its service and configures it. */
  method Admit(r: Record, env: Environment, services: Services) returns (after: Services)
    ensures after == Admitted(r, env, services)
  {
    if !Sane(r.head) {
      return services;
    }
    var ifIndex := env.index(r.head.interface);
    if ifIndex <= 0 {
      return services;
    }
    var key := Key(ifIndex, r.head.vrid, r.head.family);
    if key !in services && !env.makes(key, Unsigned(r.vlanId)) {
      return services;
    }
    var service := if key in services then services[key] else Fresh(key, Unsigned(r.vlanId), env);
    var loaded := Load(r, service, env.linkUp(ifIndex));
    after := services[key := loaded];
  }

  /** Configurator::readConfiguration */
  method ReadConfiguration(s: InputStream, stale: int, env: Environment, services: Services)
    returns (ok: bool, after: Services)
    requires s.pos == 0
    modifies s
    ensures s.Valid()
    ensures var o := ReadFile(s.file, stale, env, services);
      ok == o.ok && after == o.services && (ok ==> s.pos == o.pos)
  {
    after := services;
    var version, routerCount;
    ok, version := ReadInt(s);
    if !ok || (version != 1 && version != 2 && version != 3) {
      return false, after;
    }
    ok, routerCount := ReadInt(s);
    if !ok || routerCount < 0 {
      return false, after;
    }
    ok, after := ReadRecordsFrom(s, routerCount, version, stale, env, services);
  }

  /** Reads one record and admits it. */
  method ReadService(s: InputStream, version: int, stale: int, env: Environment, services: Services)
    returns (ok: bool, after: Services)
    requires s.Valid()
    modifies s
    ensures s.Valid()
    ensures match Parser(s.file, version, stale)(old(s.pos))
      case Fail => !ok && after == services
      case Ok(r, q) => ok && s.pos == q && after == Admitter(env)(r, services)
  {
    var r;
    ok, r := ReadRecord(s, version, stale);
    if !ok {
      return false, services;
    }
    after := Admit(r, env, services);
  }

  /** The loop over the records. */
  method ReadRecordsFrom(s: InputStream, routerCount: nat, version: int, stale: int, env: Environment,
                         services: Services)
    returns (ok: bool, after: Services)
    requires s.Valid()
    modifies s
    ensures s.Valid()
    ensures var o := ReadRecords(Parser(s.file, version, stale), Admitter(env), old(s.pos), routerCount, services);
      ok == o.ok && after == o.services && (ok ==> s.pos == o.pos)
  {
    hide Parser, Admitter;
    ghost var parse, admit := Parser(s.file, version, stale), Admitter(env);
    ghost var outcome := ReadRecords(parse, admit, s.pos, routerCount, services);
    after := services;
    var i := 0;
    while i != routerCount
      invariant s.Valid() && i <= routerCount
      invariant outcome == ReadRecords(parse, admit, s.pos, routerCount - i, after)
      decreases routerCount - i
    {
      RecordStep(parse, admit, s.pos, routerCount - i, after);
      ok, after := ReadService(s, version, stale, env, after);
      if !ok {
        return;
      }
      i := i + 1;
    }
    ok := true;
  }

  lemma RecordStep(parse: nat -> Parsed<Record>, admit: (Record, Services) -> Services, p: nat, count: nat,
                   services: Services)
    requires count > 0
    ensures ReadRecords(parse, admit, p, count, services) ==
      match parse(p)
      case Fail => Outcome(false, services, p)
      case Ok(r, q) => ReadRecords(parse, admit, q, count - 1, admit(r, services))
  {}

  // ------------------------------------------------------------------ writing

  method WriteInt(s: OutputStream, v: int)
    modifies s
    ensures s.written == PutInt(old(s.written), v)
  {
    s.Write(IntBytes(v));
  }

  method WriteBoolean(s: OutputStream, v: bool)
    modifies s
    ensures s.written == PutBoolean(old(s.written), v)
  {
    s.Write([if v then 0xFF else 0]);
  }

  method WriteString(s: OutputStream, v: Bytes)
    modifies s
    ensures s.written == PutString(old(s.written), v)
  {
    var size := |v|;
    if size > 255 {
      size := 255;
    }
    ghost var before := s.written;
    s.Write([size] + v[..size]);
    assert v[..size] == Cut(v);
    assert before + ([size] + v[..size]) == (before + [size]) + v[..size];
  }

  method WriteIp(s: OutputStream, a: IpAddress)
    modifies s
    ensures s.written == PutIp(old(s.written), a)
  {
    WriteInt(s, a.family);
    s.Write(a.data);
  }

  method WriteSubnet(s: OutputStream, n: IpSubnet)
    modifies s
    ensures s.written == PutSubnet(old(s.written), n)
  {
    WriteIp(s, n.address);
    WriteInt(s, n.cidr);
  }

  lemma EnumeratesStep(order: seq<IpSubnet>, rest: set<IpSubnet>, all: set<IpSubnet>, x: IpSubnet)
    requires rest <= all && Enumerates(order, all - rest) && x in rest
    ensures Enumerates(order + [x], all - (rest - {x}))
  {
    assert all - (rest - {x}) == (all - rest) + {x};
    assert SetOf(order + [x]) == SetOf(order) + {x};
  }

  /** The loop over the subnets of a service, in whatever order it visits them. */
  method WriteSubnets(s: OutputStream, subnets: set<IpSubnet>) returns (ghost order: seq<IpSubnet>)
    modifies s
    ensures Enumerates(order, subnets)
    ensures s.written == PutSubnets(old(s.written), order)
  {
    order := [];
    var rest := subnets;
    while rest != {}
      invariant rest <= subnets && Enumerates(order, subnets - rest)
      invariant s.written == PutSubnets(old(s.written), order)
    {
      var subnet :| subnet in rest;
      WriteSubnet(s, subnet);
      EnumeratesStep(order, rest, subnets, subnet);
      assert (order + [subnet])[..|order|] == order;
      order, rest := order + [subnet], rest - {subnet};
    }
    assert subnets - rest == subnets;
  }

  method WriteHead(s: OutputStream, h: Head)
    modifies s
    ensures s.written == PutHead(old(s.written), h)
  {
    WriteString(s, h.interface);
    WriteInt(s, h.vrid);
    WriteInt(s, h.family);
    WriteInt(s, h.priority);
    WriteInt(s, h.interval);
    WriteBoolean(s, h.accept);
    WriteBoolean(s, h.preempt);
    WriteBoolean(s, h.enabled);
    WriteInt(s, h.flags);
  }

  method WriteRecord(s: OutputStream, r: Record) returns (ghost order: seq<IpSubnet>)
    modifies s
    ensures Enumerates(order, r.subnets)
    ensures s.written == PutRecord(old(s.written), r, order)
  {
    WriteHead(s, r.head);
    if HasPrimary(r.head.flags) {
      WriteIp(s, r.primary);
    }
    WriteString(s, r.masterCommand);
    WriteString(s, r.backupCommand);
    WriteInt(s, r.vlanId);
    WriteInt(s, |r.subnets|);
    order := WriteSubnets(s, r.subnets);
  }

  /** Configurator::writeConfiguration */
  method WriteConfiguration(s: OutputStream, services: seq<Service>, env: Environment)
    returns (ghost orders: seq<seq<IpSubnet>>)
    requires s.written == []
    modifies s
    ensures |orders| == |services|
    ensures forall i :: 0 <= i < |services| ==> Enumerates(orders[i], services[i].router.config.subnets)
    ensures s.written == PutFile(services, orders, env)
  {
    hide PutRecord, Enumerates, PutInt;
    WriteInt(s, 3);
    WriteInt(s, |services|);
    ghost var start := s.written;
    orders := [];
    var i := 0;
    while i < |services|
      invariant i == |orders| <= |services|
      invariant forall k :: 0 <= k < i ==> Enumerates(orders[k], services[k].router.config.subnets)
      invariant s.written == PutServices(start, services, orders, i, env)
    {
      ghost var order := WriteRecord(s, RecordOf(services[i], env));
      PutServicesExtend(start, services, orders, order, i, env);
      orders, i := orders + [order], i + 1;
    }
  }

  lemma {:induction false} PutServicesExtend(w: Bytes, services: seq<Service>, orders: seq<seq<IpSubnet>>,
                                             order: seq<IpSubnet>, k: nat, env: Environment)
    requires k <= |services| && k <= |orders|
    ensures PutServices(w, services, orders + [order], k, env) == PutServices(w, services, orders, k, env)
  {
    hide PutRecord, RecordOf;
    if k > 0 {
      PutServicesExtend(w, services, orders, order, k - 1, env);
    }
  }
}
