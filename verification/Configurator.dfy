/** Reading and writing the configuration file: records, the sanitiser, and the
    services that are rebuilt from them. Services are values here. */
module Configurators {
  import opened Addresses
  import opened ConfigFormat
  import opened RouterSpec
  import opened RouterSteps
  import opened Sockets

  /** A service together with what only the configuration needs of it. */
  datatype Service = Service(router: Router, autoPrimary: bool, masterCommand: Bytes, backupCommand: Bytes)

  /** if_nametoindex and if_indextoname, whether a new service can be made, what
      its constructor finds out about the output interface and the primary
      address, and the link states. */
  datatype Environment = Environment(
    index: Bytes -> int, name: int -> Bytes, makes: (Key, nat) -> bool,
    output: (Key, nat) -> int, primary: (int, int) -> IpAddress, linkUp: int -> bool, now: nat)

  // ------------------------------------------------------------------ records

  datatype Head = Head(
    interface: Bytes, vrid: int, family: int, priority: int, interval: int,
    accept: bool, preempt: bool, enabled: bool, flags: int)

  datatype Record = Record(
    head: Head, primary: IpAddress, masterCommand: Bytes, backupCommand: Bytes, vlanId: int, subnets: set<IpSubnet>)

  predicate HasPrimary(flags: int) {
    flags % 2 == 1
  }

  function PutHead(w: Bytes, h: Head): Bytes {
    var w1 := PutInt(PutInt(PutInt(PutInt(PutString(w, h.interface), h.vrid), h.family), h.priority), h.interval);
    PutInt(PutBoolean(PutBoolean(PutBoolean(w1, h.accept), h.preempt), h.enabled), h.flags)
  }

  function PutBody(w: Bytes, r: Record): Bytes {
    var w1 := if HasPrimary(r.head.flags) then PutIp(w, r.primary) else w;
    PutInt(PutString(PutString(w1, r.masterCommand), r.backupCommand), r.vlanId)
  }

  /** A record of version 3, its subnets in the order of iteration. */
  function PutRecord(w: Bytes, r: Record, order: seq<IpSubnet>): Bytes {
    PutSubnets(PutInt(PutBody(PutHead(w, r.head), r), |order|), order)
  }

  function ParseHead(f: Bytes, p: nat): (r: Parsed<Head>)
    ensures r.Ok? ==> p < r.pos <= |f|
  {
    var (interface, p1) :- ParseString(f, p);
    var (vrid, p2) :- ParseInt(f, p1);
    var (family, p3) :- ParseInt(f, p2);
    var (priority, p4) :- ParseInt(f, p3);
    var (interval, p5) :- ParseInt(f, p4);
    var (accept, p6) :- ParseBoolean(f, p5);
    var (preempt, p7) :- ParseBoolean(f, p6);
    var (enabled, p8) :- ParseBoolean(f, p7);
    var (flags, p9) :- ParseInt(f, p8);
    Ok(Head(interface, vrid, family, priority, interval, accept, preempt, enabled, flags), p9)
  }

  function ParsePrimary(f: Bytes, p: nat, flags: int): (r: Parsed<IpAddress>)
    ensures r.Ok? && p <= |f| ==> p <= r.pos <= |f|
  {
    if HasPrimary(flags) then ParseIp(f, p) else Ok(IpAddress(AF_UNSPEC, []), p)
  }

  /** Commands came with version 2. */
  function ParseCommand(f: Bytes, p: nat, version: int): (r: Parsed<Bytes>)
    ensures r.Ok? && p <= |f| ==> p <= r.pos <= |f|
  {
    if version > 1 then ParseString(f, p) else Ok([], p)
  }

  /** The VLAN id came with version 3; before that the variable keeps whatever
      value it has. */
  function ParseVlan(f: Bytes, p: nat, version: int, stale: int): (r: Parsed<int>)
    ensures r.Ok? && p <= |f| ==> p <= r.pos <= |f|
  {
    if version > 2 then ParseInt(f, p) else Ok(stale, p)
  }

  function ParseRecord(f: Bytes, p: nat, version: int, stale: int): (r: Parsed<Record>)
    ensures r.Ok? ==> p < r.pos <= |f|
  {
    var (head, p1) :- ParseHead(f, p);
    var (primary, p2) :- ParsePrimary(f, p1, head.flags);
    var (masterCommand, p3) :- ParseCommand(f, p2, version);
    var (backupCommand, p4) :- ParseCommand(f, p3, version);
    var (vlanId, p5) :- ParseVlan(f, p4, version, stale);
    var (count, p6) :- ParseInt(f, p5);
    var (subnets, p7) :- ParseSubnets(f, p6, count, {});
    Ok(Record(head, primary, masterCommand, backupCommand, vlanId, subnets), p7)
  }

  // --------------------------------------------------------- rebuilding services

  predicate Sane(h: Head) {
    && 1 <= h.vrid <= 255
    && 1 <= h.priority <= 255
    && (h.family == AF_INET || h.family == AF_INET6)
    && h.interval % 10 == 0 && 10 <= h.interval <= 40950
  }

  function OfFamily(subnets: set<IpSubnet>, family: int): set<IpSubnet> {
    set s | s in subnets && s.address.family == family
  }

  function AddressesIn(subnets: set<IpSubnet>): set<IpAddress> {
    set s | s in subnets :: s.address
  }

  /** The loop over addIpAddress. */
  function WithSubnets(r: Router, subnets: set<IpSubnet>): Router {
    var c, p := r.config, r.placed;
    var added := OfFamily(subnets, c.family);
    var placed :=
      if r.state != Master then p
      else if HoldsAddresses(c) then p.(onInterface := p.onInterface + SubnetsOn(c.outputInterface, added))
      else p.(inArp := p.inArp + EntriesOn(c.outputInterface, added));
    r.(config := c.(subnets := c.subnets + added, addresses := c.addresses + AddressesIn(added)), placed := placed)
  }

  lemma NoSubnets(r: Router)
    ensures WithSubnets(r, {}) == r
  {
    assert OfFamily({}, r.config.family) == {} && AddressesIn({}) == {};
  }

  lemma OneMore(subnets: set<IpSubnet>, s: IpSubnet, i: int)
    ensures SubnetsOn(i, subnets + {s}) == SubnetsOn(i, subnets) + {(i, s)}
    ensures EntriesOn(i, subnets + {s}) == EntriesOn(i, subnets) + {(i, s.address)}
    ensures AddressesIn(subnets + {s}) == AddressesIn(subnets) + {s.address}
  {}

  lemma OneMoreOfFamily(subnets: set<IpSubnet>, s: IpSubnet, family: int)
    ensures OfFamily(subnets + {s}, family)
         == if s.address.family == family then OfFamily(subnets, family) + {s} else OfFamily(subnets, family)
  {}

  lemma UnionAssociates<T>(a: set<T>, b: set<T>, c: set<T>)
    ensures (a + b) + c == a + (b + c)
  {}

  /** The closed form is the repeated addIpAddress. */
  lemma OneMoreSubnet(r: Router, subnets: set<IpSubnet>, s: IpSubnet)
    ensures WithSubnets(r, subnets + {s}) == AddIpAddress(WithSubnets(r, subnets), s)
  {
    hide OfFamily, AddressesIn, SubnetsOn, EntriesOn, HoldsAddresses;
    var c, p := r.config, r.placed;
    var added, i := OfFamily(subnets, c.family), c.outputInterface;
    OneMoreOfFamily(subnets, s, c.family);
    OneMore(added, s, i);
    SameMode(c, added);
    UnionAssociates(c.subnets, added, {s});
    UnionAssociates(c.addresses, AddressesIn(added), {s.address});
    UnionAssociates(p.onInterface, SubnetsOn(i, added), {(i, s)});
    UnionAssociates(p.inArp, EntriesOn(i, added), {(i, s.address)});
  }

  lemma SameMode(c: Config, added: set<IpSubnet>)
    ensures HoldsAddresses(c.(subnets := c.subnets + added, addresses := c.addresses + AddressesIn(added)))
         == HoldsAddresses(c)
  {}

  function Configured(h: Head, r: Router): Router
    requires Sane(h)
  {
    SetPreempt(SetAccept(SetInterval(SetPriority(r, h.priority), h.interval / 10), h.accept), h.preempt)
  }

  /** All setter calls for one record, in order. */
  function Loaded(r: Record, s: Service, linkUp: bool): Service
    requires Sane(r.head)
  {
    var a := Configured(r.head, s.router);
    var named := HasPrimary(r.head.flags) && r.primary.family == a.config.family;
    var b := if HasPrimary(r.head.flags) then SetPrimary(a, r.primary) else a;
    var c := WithSubnets(b, r.subnets);
    var d := if r.head.enabled then Enable(c, linkUp) else Disable(c);
    Service(d, s.autoPrimary && !named, r.masterCommand, r.backupCommand)
  }

  /** A negative VLAN id becomes a large unsigned one; uint_fast16_t has 64 bits. */
  function Unsigned(v: int): nat {
    v % 0x1_0000_0000_0000_0000
  }

  function Fresh(k: Key, vlanId: nat, env: Environment): Service {
    var c := Defaults(k.family, k.interface, env.output(k, vlanId), vlanId, k.vrid, env.primary(k.interface, k.family));
    Service(Created(c, env.now), true, [], [])
  }

  type Services = map<Key, Service>

  /** The effect of one parsed record. */
  function Admitted(r: Record, env: Environment, services: Services): Services {
    var i := env.index(r.head.interface);
    if !Sane(r.head) || i <= 0 then services
    else
      var k := Key(i, r.head.vrid, r.head.family);
      if k !in services && !env.makes(k, Unsigned(r.vlanId)) then services else
      var s := if k in services then services[k] else Fresh(k, Unsigned(r.vlanId), env);
      services[k := Loaded(r, s, env.linkUp(i))]
  }

  datatype Outcome = Outcome(ok: bool, services: Services, pos: nat)

  /** The loop over the records, for a way to parse one at a position and a way
      to admit it. */
  function ReadRecords(parse: nat -> Parsed<Record>, admit: (Record, Services) -> Services, p: nat, count: nat,
                       services: Services): Outcome
    decreases count
  {
    if count == 0 then Outcome(true, services, p)
    else match parse(p)
      case Fail => Outcome(false, services, p)
      case Ok(r, q) => ReadRecords(parse, admit, q, count - 1, admit(r, services))
  }

  function Parser(f: Bytes, version: int, stale: int): nat -> Parsed<Record> {
    (p: nat) => ParseRecord(f, p, version, stale)
  }

  function Admitter(env: Environment): (Record, Services) -> Services {
    (r, services) => Admitted(r, env, services)
  }

  function ReadFile(f: Bytes, stale: int, env: Environment, services: Services): Outcome {
    match ParseInt(f, 0)
    case Fail => Outcome(false, services, 0)
    case Ok(version, p) =>
      if version != 1 && version != 2 && version != 3 then Outcome(false, services, p)
      else match ParseInt(f, p)
        case Fail => Outcome(false, services, p)
        case Ok(count, q) =>
          if count < 0 then Outcome(false, services, q)
          else ReadRecords(Parser(f, version, stale), Admitter(env), q, count, services)
  }

  // ------------------------------------------------------------------- writing

  function RecordOf(s: Service, env: Environment): Record {
    var c := s.router.config;
    Record(Head(env.name(c.interface), c.vrid, c.family, c.priority, c.interval * 10, c.accept, c.preempt,
                s.router.state != Disabled, if s.autoPrimary then 0 else 1),
           c.primary, s.masterCommand, s.backupCommand, c.vlanId, c.subnets)
  }

  ghost predicate Enumerates(order: seq<IpSubnet>, subnets: set<IpSubnet>) {
    SetOf(order) == subnets && |order| == |subnets|
  }

  /** The first k services. */
  function PutServices(w: Bytes, services: seq<Service>, orders: seq<seq<IpSubnet>>, k: nat, env: Environment): Bytes
    requires k <= |services| && k <= |orders|
  {
    if k == 0 then w
    else PutRecord(PutServices(w, services, orders, k - 1, env), RecordOf(services[k - 1], env), orders[k - 1])
  }

  function PutFile(services: seq<Service>, orders: seq<seq<IpSubnet>>, env: Environment): Bytes
    requires |services| == |orders|
  {
    PutServices(PutInt(PutInt([], 3), |services|), services, orders, |services|, env)
  }

  // --------------------------------------------------- reading undoes writing

  predicate WritableHead(h: Head) {
    IsInt32(h.vrid) && IsInt32(h.family) && IsInt32(h.priority) && IsInt32(h.interval) && IsInt32(h.flags)
  }

  lemma ReadsHead(w: Bytes, h: Head, f: Bytes)
    requires WritableHead(h) && PutHead(w, h) <= f
    ensures ParseHead(f, |w|) == Ok(h.(interface := Cut(h.interface)), |PutHead(w, h)|) && w <= f
  {
    var w1 := PutString(w, h.interface);
    var w2 := PutInt(w1, h.vrid);
    var w3 := PutInt(w2, h.family);
    var w4 := PutInt(w3, h.priority);
    var w5 := PutInt(w4, h.interval);
    var w6 := PutBoolean(w5, h.accept);
    var w7 := PutBoolean(w6, h.preempt);
    var w8 := PutBoolean(w7, h.enabled);
    ReadsInt(w8, h.flags, f);
    ReadsBoolean(w7, h.enabled, f);
    ReadsBoolean(w6, h.preempt, f);
    ReadsBoolean(w5, h.accept, f);
    ReadsInt(w4, h.interval, f);
    ReadsInt(w3, h.priority, f);
    ReadsInt(w2, h.family, f);
    ReadsInt(w1, h.vrid, f);
    ReadsString(w, h.interface, f);
  }

  predicate Writable(r: Record) {
    && WritableHead(r.head) && IsInt32(r.vlanId)
    && (HasPrimary(r.head.flags) ==> Storable(r.primary))
    && (forall s :: s in r.subnets ==> StorableSubnet(s))
    && |r.subnets| < 0x8000_0000
  }

  /** What a record comes back as. */
  function Stored(r: Record): Record {
    Record(r.head.(interface := Cut(r.head.interface)),
           if HasPrimary(r.head.flags) then r.primary else IpAddress(AF_UNSPEC, []),
           Cut(r.masterCommand), Cut(r.backupCommand), r.vlanId, r.subnets)
  }

  lemma ReadsBody(w: Bytes, r: Record, f: Bytes, stale: int)
    requires Writable(r) && PutBody(w, r) <= f
    ensures w <= f
    ensures var w1 := if HasPrimary(r.head.flags) then PutIp(w, r.primary) else w;
      var w2 := PutString(w1, r.masterCommand);
      var w3 := PutString(w2, r.backupCommand);
      ParsePrimary(f, |w|, r.head.flags) == Ok(Stored(r).primary, |w1|) &&
      ParseCommand(f, |w1|, 3) == Ok(Cut(r.masterCommand), |w2|) &&
      ParseCommand(f, |w2|, 3) == Ok(Cut(r.backupCommand), |w3|) &&
      ParseVlan(f, |w3|, 3, stale) == Ok(r.vlanId, |PutBody(w, r)|)
  {
    var w1 := if HasPrimary(r.head.flags) then PutIp(w, r.primary) else w;
    var w2 := PutString(w1, r.masterCommand);
    var w3 := PutString(w2, r.backupCommand);
    ReadsInt(w3, r.vlanId, f);
    ReadsString(w2, r.backupCommand, f);
    ReadsString(w1, r.masterCommand, f);
    if HasPrimary(r.head.flags) {
      ReadsIp(w, r.primary, f);
    }
  }

  /** A record written in any order of its subnets is read back whole. */
  lemma ReadsRecord(w: Bytes, r: Record, order: seq<IpSubnet>, f: Bytes, stale: int)
    requires Writable(r) && Enumerates(order, r.subnets) && PutRecord(w, r, order) <= f
    ensures ParseRecord(f, |w|, 3, stale) == Ok(Stored(r), |PutRecord(w, r, order)|) && w <= f
  {
    var w1 := PutHead(w, r.head);
    var w2 := PutBody(w1, r);
    var w3 := PutInt(w2, |order|);
    PutSubnetsPrefix(w3, order);
    forall s | s in order
      ensures StorableSubnet(s)
    {
      assert s in SetOf(order);
    }
    ReadsSubnets(w3, order, f, {});
    ReadsInt(w2, |order|, f);
    ReadsBody(w1, r, f, stale);
    ReadsHead(w, r.head, f);
    assert {} + SetOf(order) == r.subnets;
  }

  // ------------------------------------------------------------- round trip

  /** What the configuration file is meant to preserve of a service. */
  datatype Settings = Settings(
    key: Key, vlanId: nat, priority: Byte, interval: nat, accept: bool, preempt: bool, enabled: bool,
    primary: seq<IpAddress>,  // empty when found automatically
    masterCommand: Bytes, backupCommand: Bytes, subnets: set<IpSubnet>)

  function KeyOf(s: Service): Key {
    Key(s.router.config.interface, s.router.config.vrid, s.router.config.family)
  }

  function SettingsOf(s: Service): Settings {
    var c := s.router.config;
    Settings(KeyOf(s), c.vlanId, c.priority, c.interval, c.accept, c.preempt, s.router.state != Disabled,
             if s.autoPrimary then [] else [c.primary], s.masterCommand, s.backupCommand, c.subnets)
  }

  function Shortened(x: Settings): Settings {
    x.(masterCommand := Cut(x.masterCommand), backupCommand := Cut(x.backupCommand))
  }

  /** What every reachable service satisfies, the sizes of its fields, and what
      the kernel guarantees of interface names. */
  ghost predicate WellFormed(s: Service, env: Environment) {
    var c := s.router.config;
    && Ranges(s.router)
    && c.vrid >= 1 && c.vlanId < 0x8000_0000
    && (c.family == AF_INET || c.family == AF_INET6)
    && (!s.autoPrimary ==> c.primary.family == c.family)
    && (forall x :: x in c.subnets ==> x.cidr < WORD)
    && |c.subnets| < 0x8000_0000
    && |env.name(c.interface)| <= 255 && env.index(env.name(c.interface)) == c.interface > 0
  }

  lemma WellFormedIsWritable(s: Service, env: Environment)
    requires WellFormed(s, env)
    ensures Writable(RecordOf(s, env)) && Sane(Stored(RecordOf(s, env)).head)
    ensures Stored(RecordOf(s, env)).head.interface == env.name(s.router.config.interface)
  {}

  lemma EnabledState(r: Router, enabled: bool, linkUp: bool)
    requires r.state == Disabled
    ensures var d := if enabled then Enable(r, linkUp) else Disable(r);
      d.config == r.config && (d.state != Disabled <==> enabled)
  {}

  lemma ConfiguredFresh(h: Head, r: Router)
    requires Sane(h) && r.state == Disabled
    requires h.family == r.config.family
    requires r.config.accept <==> r.config.family == AF_INET6 || r.config.vlanId != 0
    requires r.config.accept ==> h.accept
    ensures Configured(h, r) == r.(config := r.config.(
      priority := h.priority, interval := h.interval / 10, accept := h.accept, preempt := h.preempt))
  {}

  /** The settings that the setters leave on a new service. */
  function ExpectedSettings(r: Record, k: Key, vlanId: nat): Settings
    requires Sane(r.head)
  {
    Settings(k, vlanId, r.head.priority, r.head.interval / 10, r.head.accept, r.head.preempt, r.head.enabled,
             if HasPrimary(r.head.flags) then [r.primary] else [], r.masterCommand, r.backupCommand, r.subnets)
  }

  lemma LoadedFresh(r: Record, s: Service, linkUp: bool)
    requires Sane(r.head)
    requires s.router.state == Disabled && s.router.config.subnets == {} && s.autoPrimary
    requires r.head.family == s.router.config.family
    requires s.router.config.accept <==> s.router.config.family == AF_INET6 || s.router.config.vlanId != 0
    requires s.router.config.accept ==> r.head.accept
    requires HasPrimary(r.head.flags) ==> r.primary.family == r.head.family
    requires forall x :: x in r.subnets ==> x.address.family == r.head.family
    ensures SettingsOf(Loaded(r, s, linkUp)) == ExpectedSettings(r, KeyOf(s), s.router.config.vlanId)
  {
    hide Configured, Enable, Disable, HoldsAddresses, SubnetsOn, EntriesOn, Sane;
    ConfiguredFresh(r.head, s.router);
    var a := Configured(r.head, s.router);
    var b := if HasPrimary(r.head.flags) then SetPrimary(a, r.primary) else a;
    assert OfFamily(r.subnets, b.config.family) == r.subnets;
    EnabledState(WithSubnets(b, r.subnets), r.head.enabled, linkUp);
  }

  lemma ExpectedIsShortened(s: Service, env: Environment)
    requires WellFormed(s, env)
    ensures Sane(Stored(RecordOf(s, env)).head)
    ensures ExpectedSettings(Stored(RecordOf(s, env)), KeyOf(s), s.router.config.vlanId) == Shortened(SettingsOf(s))
  {}

  /** The service that the record of s makes when its key is new. */
  function RebuiltService(s: Service, env: Environment): Service
    requires Sane(Stored(RecordOf(s, env)).head)
  {
    var r := Stored(RecordOf(s, env));
    Loaded(r, Fresh(KeyOf(s), Unsigned(r.vlanId), env), env.linkUp(s.router.config.interface))
  }

  lemma FreshFacts(s: Service, env: Environment)
    requires WellFormed(s, env)
    ensures var r := Stored(RecordOf(s, env));
      var base := Fresh(KeyOf(s), Unsigned(r.vlanId), env);
      && base.router.state == Disabled && base.router.config.subnets == {} && base.autoPrimary
      && r.head.family == base.router.config.family
      && KeyOf(base) == KeyOf(s) && base.router.config.vlanId == s.router.config.vlanId
      && (base.router.config.accept <==> base.router.config.family == AF_INET6 || base.router.config.vlanId != 0)
      && (base.router.config.accept ==> r.head.accept)
      && (HasPrimary(r.head.flags) ==> r.primary.family == r.head.family)
      && (forall x :: x in r.subnets ==> x.address.family == r.head.family)
  {}

  /** A service rebuilt from its own record has the same settings. */
  lemma Rebuilds(s: Service, env: Environment)
    requires WellFormed(s, env)
    ensures Sane(Stored(RecordOf(s, env)).head)
    ensures SettingsOf(RebuiltService(s, env)) == Shortened(SettingsOf(s))
  {
    ExpectedIsShortened(s, env);
    FreshFacts(s, env);
    var r := Stored(RecordOf(s, env));
    LoadedFresh(r, Fresh(KeyOf(s), Unsigned(r.vlanId), env), env.linkUp(s.router.config.interface));
  }

  /** A service and an enumeration of its subnets, ready to be written. */
  ghost predicate Ready(s: Service, order: seq<IpSubnet>, env: Environment) {
    WellFormed(s, env) && Enumerates(order, s.router.config.subnets)
  }

  ghost predicate AllReady(services: seq<Service>, orders: seq<seq<IpSubnet>>, env: Environment) {
    |services| == |orders| && forall i :: 0 <= i < |services| ==> Ready(services[i], orders[i], env)
  }

  lemma ReadyAt(services: seq<Service>, orders: seq<seq<IpSubnet>>, i: nat, env: Environment)
    requires AllReady(services, orders, env) && i < |services|
    ensures Ready(services[i], orders[i], env)
  {}

  /** The k-th record is read at the position where it was written. */
  lemma NextRecord(w: Bytes, services: seq<Service>, orders: seq<seq<IpSubnet>>, k: nat, env: Environment,
                   f: Bytes, stale: int)
    requires k < |services| == |orders| && Ready(services[k], orders[k], env)
    requires PutServices(w, services, orders, k + 1, env) <= f
    ensures var before := PutServices(w, services, orders, k, env);
      before <= f &&
      Parser(f, 3, stale)(|before|)
        == Ok(Stored(RecordOf(services[k], env)), |PutServices(w, services, orders, k + 1, env)|)
  {
    WellFormedIsWritable(services[k], env);
    ReadsRecord(PutServices(w, services, orders, k, env), RecordOf(services[k], env), orders[k], f, stale);
  }

  lemma PutHeadPrefix(w: Bytes, h: Head)
    ensures w <= PutHead(w, h)
  {}

  lemma PutBodyPrefix(w: Bytes, r: Record)
    ensures w <= PutBody(w, r)
  {}

  lemma PutRecordPrefix(w: Bytes, r: Record, order: seq<IpSubnet>)
    ensures w <= PutRecord(w, r, order)
  {
    PutHeadPrefix(w, r.head);
    PutBodyPrefix(PutHead(w, r.head), r);
    PutSubnetsPrefix(PutInt(PutBody(PutHead(w, r.head), r), |order|), order);
  }

  lemma {:induction false} PrefixChain(ws: seq<Bytes>, k: nat)
    requires k < |ws| && forall i :: 0 < i < |ws| ==> ws[i - 1] <= ws[i]
    ensures ws[k] <= ws[|ws| - 1]
    decreases |ws| - k
  {
    if k + 1 < |ws| {
      PrefixChain(ws, k + 1);
      assert ws[k + 1 - 1] <= ws[k + 1];
    }
  }

  /** The file as it grows. */
  function Growth(w: Bytes, services: seq<Service>, orders: seq<seq<IpSubnet>>, env: Environment): (ws: seq<Bytes>)
    requires |services| == |orders|
    ensures |ws| == |services| + 1
    ensures forall i :: 0 <= i <= |services| ==> ws[i] == PutServices(w, services, orders, i, env)
  {
    seq(|services| + 1, i requires 0 <= i <= |services| => PutServices(w, services, orders, i, env))
  }

  lemma PutServicesPrefix(w: Bytes, services: seq<Service>, orders: seq<seq<IpSubnet>>, k: nat, env: Environment)
    requires k <= |services| == |orders|
    ensures PutServices(w, services, orders, k, env) <= PutServices(w, services, orders, |services|, env)
  {
    var ws := Growth(w, services, orders, env);
    forall i | 0 < i < |ws|
      ensures ws[i - 1] <= ws[i]
    {
      PutRecordPrefix(ws[i - 1], RecordOf(services[i - 1], env), orders[i - 1]);
    }
    PrefixChain(ws, k);
  }

  /** Records rs found at positions ps, and the services before and after each. */
  ghost predicate ReadsAlong(parse: nat -> Parsed<Record>, admit: (Record, Services) -> Services,
                             ps: seq<nat>, rs: seq<Record>, ms: seq<Services>) {
    |ps| == |ms| == |rs| + 1 &&
    forall i :: 0 <= i < |rs| ==> parse(ps[i]) == Ok(rs[i], ps[i + 1]) && ms[i + 1] == admit(rs[i], ms[i])
  }

  lemma {:induction false} ReadsAll(parse: nat -> Parsed<Record>, admit: (Record, Services) -> Services,
                                    ps: seq<nat>, rs: seq<Record>, ms: seq<Services>, k: nat, more: nat)
    requires ReadsAlong(parse, admit, ps, rs, ms) && k <= |rs|
    ensures ReadRecords(parse, admit, ps[k], |rs| - k + more, ms[k])
         == ReadRecords(parse, admit, ps[|rs|], more, ms[|rs|])
    decreases |rs| - k
  {
    if k < |rs| {
      ReadsAll(parse, admit, ps, rs, ms, k + 1, more);
    }
  }

  /** The first k insertions, leaving out those that fail. */
  function Inserted<K, V>(keys: seq<K>, values: seq<V>, makes: seq<bool>, k: nat): map<K, V>
    requires k <= |keys| == |values| == |makes|
  {
    if k == 0 then map[]
    else
      var before := Inserted(keys, values, makes, k - 1);
      if makes[k - 1] then before[keys[k - 1] := values[k - 1]] else before
  }

  ghost predicate Distinct<K>(keys: seq<K>) {
    forall i, j :: 0 <= i < j < |keys| ==> keys[i] != keys[j]
  }

  /** Inserting under distinct keys keeps every value. */
  lemma {:induction false} InsertedUnderDistinctKeys<K, V>(keys: seq<K>, values: seq<V>, makes: seq<bool>, k: nat)
    requires k <= |keys| == |values| == |makes| && Distinct(keys)
    ensures Inserted(keys, values, makes, k).Keys == set i | 0 <= i < k && makes[i] :: keys[i]
    ensures forall i :: 0 <= i < k && makes[i] ==> Inserted(keys, values, makes, k)[keys[i]] == values[i]
  {
    if k > 0 {
      InsertedUnderDistinctKeys(keys, values, makes, k - 1);
    }
  }

  lemma NextKeyIsNew<K, V>(keys: seq<K>, values: seq<V>, makes: seq<bool>, k: nat)
    requires k < |keys| == |values| == |makes| && Distinct(keys)
    ensures keys[k] !in Inserted(keys, values, makes, k)
  {
    InsertedUnderDistinctKeys(keys, values, makes, k);
  }

  /** Whether the service can be made anew. */
  predicate Makes(s: Service, env: Environment) {
    env.makes(KeyOf(s), s.router.config.vlanId)
  }

  lemma AdmitsNew(s: Service, env: Environment, services: Services)
    requires WellFormed(s, env) && KeyOf(s) !in services
    ensures Sane(Stored(RecordOf(s, env)).head)
    ensures Admitter(env)(Stored(RecordOf(s, env)), services)
         == if Makes(s, env) then services[KeyOf(s) := RebuiltService(s, env)] else services
  {
    hide Loaded, Fresh, Cut, Sane, Ranges;
    WellFormedIsWritable(s, env);
  }

  function KeysOf(services: seq<Service>): (keys: seq<Key>)
    ensures |keys| == |services| && forall i :: 0 <= i < |services| ==> keys[i] == KeyOf(services[i])
  {
    seq(|services|, i requires 0 <= i < |services| => KeyOf(services[i]))
  }

  function MakesOf(services: seq<Service>, env: Environment): (makes: seq<bool>)
    ensures |makes| == |services| && forall i :: 0 <= i < |services| ==> makes[i] == Makes(services[i], env)
  {
    seq(|services|, i requires 0 <= i < |services| => Makes(services[i], env))
  }

  /** The records of the services as they are read back. */
  function RecordsOf(services: seq<Service>, env: Environment): (rs: seq<Record>)
    ensures |rs| == |services| && forall i :: 0 <= i < |services| ==> rs[i] == Stored(RecordOf(services[i], env))
  {
    seq(|services|, i requires 0 <= i < |services| => Stored(RecordOf(services[i], env)))
  }

  /** rebuilt are the services that these records make. */
  ghost predicate AreRebuilt(services: seq<Service>, rebuilt: seq<Service>, env: Environment) {
    |rebuilt| == |services| && forall i :: 0 <= i < |services| ==> IsRebuilt(services[i], rebuilt[i], env)
  }

  ghost predicate IsRebuilt(s: Service, s': Service, env: Environment) {
    && (forall m: Services :: KeyOf(s) !in m ==>
          Admitter(env)(Stored(RecordOf(s, env)), m) == if Makes(s, env) then m[KeyOf(s) := s'] else m)
    && SettingsOf(s') == Shortened(SettingsOf(s))
  }

  lemma RebuiltExists(s: Service, env: Environment) returns (s': Service)
    requires WellFormed(s, env)
    ensures IsRebuilt(s, s', env)
  {
    Rebuilds(s, env);
    s' := RebuiltService(s, env);
    forall m: Services | KeyOf(s) !in m
      ensures Admitter(env)(Stored(RecordOf(s, env)), m) == if Makes(s, env) then m[KeyOf(s) := s'] else m
    {
      AdmitsNew(s, env, m);
    }
  }

  lemma RebuiltAllExist(services: seq<Service>, orders: seq<seq<IpSubnet>>, env: Environment)
    returns (rebuilt: seq<Service>)
    requires AllReady(services, orders, env)
    ensures AreRebuilt(services, rebuilt, env)
  {
    rebuilt := [];
    for k := 0 to |services|
      invariant |rebuilt| == k
      invariant forall i :: 0 <= i < k ==> IsRebuilt(services[i], rebuilt[i], env)
    {
      ReadyAt(services, orders, k, env);
      var s' := RebuiltExists(services[k], env);
      rebuilt := rebuilt + [s'];
    }
  }

  /** Positions, records and service tables of the whole file fit together. */
  lemma FileIsReading(services: seq<Service>, orders: seq<seq<IpSubnet>>, rebuilt: seq<Service>, env: Environment,
                      w: Bytes, f: Bytes, stale: int, i: nat)
    requires AllReady(services, orders, env) && AreRebuilt(services, rebuilt, env) && Distinct(KeysOf(services))
    requires PutServices(w, services, orders, |services|, env) <= f && i < |services|
    ensures var r, keys, makes := Stored(RecordOf(services[i], env)), KeysOf(services), MakesOf(services, env);
      Parser(f, 3, stale)(|PutServices(w, services, orders, i, env)|)
        == Ok(r, |PutServices(w, services, orders, i + 1, env)|) &&
      Inserted(keys, rebuilt, makes, i + 1) == Admitter(env)(r, Inserted(keys, rebuilt, makes, i))
  {
    hide Parser, Admitter, PutRecord, RecordOf, Stored, WellFormed, Ready, SettingsOf, Shortened, PutServices;
    PutServicesPrefix(w, services, orders, i + 1, env);
    ReadyAt(services, orders, i, env);
    NextRecord(w, services, orders, i, env, f, stale);
    NextKeyIsNew(KeysOf(services), rebuilt, MakesOf(services, env), i);
    assert IsRebuilt(services[i], rebuilt[i], env);
  }

  function Positions(w: Bytes, services: seq<Service>, orders: seq<seq<IpSubnet>>, env: Environment): (ps: seq<nat>)
    requires |services| == |orders|
    ensures |ps| == |services| + 1
    ensures forall i :: 0 <= i <= |services| ==> ps[i] == |PutServices(w, services, orders, i, env)|
  {
    seq(|services| + 1, i requires 0 <= i <= |services| => |PutServices(w, services, orders, i, env)|)
  }

  function Tables(keys: seq<Key>, values: seq<Service>, makes: seq<bool>): (ms: seq<Services>)
    requires |keys| == |values| == |makes|
    ensures |ms| == |keys| + 1
    ensures forall i :: 0 <= i <= |keys| ==> ms[i] == Inserted(keys, values, makes, i)
  {
    seq(|keys| + 1, i requires 0 <= i <= |keys| => Inserted(keys, values, makes, i))
  }

  lemma FileIsRead(services: seq<Service>, orders: seq<seq<IpSubnet>>, rebuilt: seq<Service>, env: Environment,
                   w: Bytes, f: Bytes, stale: int)
    requires AllReady(services, orders, env) && AreRebuilt(services, rebuilt, env) && Distinct(KeysOf(services))
    requires PutServices(w, services, orders, |services|, env) <= f
    ensures ReadsAlong(Parser(f, 3, stale), Admitter(env), Positions(w, services, orders, env),
                       RecordsOf(services, env), Tables(KeysOf(services), rebuilt, MakesOf(services, env)))
  {
    hide Parser, Admitter, Stored, RecordOf, PutServices, Inserted, Ready, IsRebuilt;
    var ps, rs := Positions(w, services, orders, env), RecordsOf(services, env);
    var ms := Tables(KeysOf(services), rebuilt, MakesOf(services, env));
    var parse, admit := Parser(f, 3, stale), Admitter(env);
    forall i | 0 <= i < |rs|
      ensures parse(ps[i]) == Ok(rs[i], ps[i + 1]) && ms[i + 1] == admit(rs[i], ms[i])
    {
      FileIsReading(services, orders, rebuilt, env, w, f, stale, i);
    }
  }

  lemma NothingYet(services: seq<Service>, orders: seq<seq<IpSubnet>>, rebuilt: seq<Service>, env: Environment,
                   w: Bytes)
    requires |services| == |orders| == |rebuilt|
    ensures PutServices(w, services, orders, 0, env) == w
    ensures Inserted(KeysOf(services), rebuilt, MakesOf(services, env), 0) == map[]
  {}

  /** After the records of the services the reading goes on with what follows. */
  lemma ReadsServices(services: seq<Service>, orders: seq<seq<IpSubnet>>, rebuilt: seq<Service>, env: Environment,
                      w: Bytes, f: Bytes, stale: int, more: nat)
    requires AllReady(services, orders, env) && AreRebuilt(services, rebuilt, env) && Distinct(KeysOf(services))
    requires PutServices(w, services, orders, |services|, env) <= f
    ensures ReadRecords(Parser(f, 3, stale), Admitter(env), |w|, |services| + more, map[])
         == ReadRecords(Parser(f, 3, stale), Admitter(env), |PutServices(w, services, orders, |services|, env)|, more,
                        Inserted(KeysOf(services), rebuilt, MakesOf(services, env), |services|))
  {
    hide Parser, Admitter, Inserted, PutServices, ReadsAlong, ReadRecords, Ready, IsRebuilt;
    NothingYet(services, orders, rebuilt, env, w);
    FileIsRead(services, orders, rebuilt, env, w, f, stale);
    ReadsAll(Parser(f, 3, stale), Admitter(env), Positions(w, services, orders, env), RecordsOf(services, env),
             Tables(KeysOf(services), rebuilt, MakesOf(services, env)), 0, more);
  }

  lemma ReadsPreamble(services: seq<Service>, env: Environment, f: Bytes, stale: int)
    requires |services| < 0x8000_0000 && PutInt(PutInt([], 3), |services|) <= f
    ensures ReadFile(f, stale, env, map[])
         == ReadRecords(Parser(f, 3, stale), Admitter(env), |PutInt(PutInt([], 3), |services|)|, |services|, map[])
  {
    ReadsInt(PutInt([], 3), |services|, f);
    ReadsInt([], 3, f);
  }

  /** The configuration round trip: reading the file written for any well-formed
      services with distinct keys consumes all of it and rebuilds every service
      that can be made, with the same settings, commands cut to 255 bytes, and no
      other. */
  lemma FileRoundTrip(services: seq<Service>, orders: seq<seq<IpSubnet>>, env: Environment, stale: int)
    requires AllReady(services, orders, env) && Distinct(KeysOf(services)) && |services| < 0x8000_0000
    ensures var f := PutFile(services, orders, env);
      var o := ReadFile(f, stale, env, map[]);
      o.ok && o.pos == |f| && AreRestored(services, o.services, env)
  {
    hide Parser, Admitter, Inserted, PutServices, Ready, IsRebuilt, AreRestored;
    var f := PutFile(services, orders, env);
    var rebuilt := RebuiltAllExist(services, orders, env);
    NothingYet(services, orders, rebuilt, env, PutInt(PutInt([], 3), |services|));
    PutServicesPrefix(PutInt(PutInt([], 3), |services|), services, orders, 0, env);
    ReadsPreamble(services, env, f, stale);
    ReadsServices(services, orders, rebuilt, env, PutInt(PutInt([], 3), |services|), f, stale, 0);
    RebuiltTable(services, rebuilt, env);
  }

  ghost predicate AreRestored(services: seq<Service>, restored: Services, env: Environment) {
    && restored.Keys == (set s | s in services && Makes(s, env) :: KeyOf(s))
    && forall i :: 0 <= i < |services| && Makes(services[i], env) ==>
         SettingsOf(restored[KeyOf(services[i])]) == Shortened(SettingsOf(services[i]))
  }

  lemma RebuiltTable(services: seq<Service>, rebuilt: seq<Service>, env: Environment)
    requires AreRebuilt(services, rebuilt, env) && Distinct(KeysOf(services))
    ensures AreRestored(services, Inserted(KeysOf(services), rebuilt, MakesOf(services, env), |services|), env)
  {
    hide Inserted, Distinct, KeyOf, SettingsOf, Shortened, Makes, Admitter;
    var keys, makes := KeysOf(services), MakesOf(services, env);
    var table := Inserted(keys, rebuilt, makes, |services|);
    InsertedUnderDistinctKeys(keys, rebuilt, makes, |services|);
    forall i | 0 <= i < |services| && Makes(services[i], env)
      ensures SettingsOf(table[KeyOf(services[i])]) == Shortened(SettingsOf(services[i]))
    {
      assert table[keys[i]] == rebuilt[i];
      assert IsRebuilt(services[i], rebuilt[i], env);
    }
    forall k
      ensures k in table <==> k in set s | s in services && Makes(s, env) :: KeyOf(s)
    {
      if k in table {
        var i :| 0 <= i < |services| && makes[i] && keys[i] == k;
        assert services[i] in services;
      }
    }
  }
}
