/** What a configuration file does to the services, told without the functions that
    read it: which records are dropped, what the others change, what old and
    damaged files come to, and which bytes the file consists of. */
module ConfigEffects {
  import opened Addresses
  import opened ConfigFormat
  import opened Configurators
  import opened RouterSpec
  import opened RouterSteps
  import opened Sockets
  import opened Timers

  // ------------------------------------------------------------- single records

  /** The key that a record is about. */
  function Target(r: Record, env: Environment): Option<Key> {
    var h, i := r.head, env.index(r.head.interface);
    if h.vrid < 1 || h.vrid > 255 || h.priority < 1 || h.priority > 255 then None
    else if h.family != AF_INET && h.family != AF_INET6 then None
    else if h.interval % 10 != 0 || h.interval < 10 || h.interval > 40950 || i <= 0 then None
    else Some(Key(i, h.vrid, h.family))
  }

  /** The number that the constructor gets for a VLAN id of the file. */
  function VlanOf(r: Record): nat
    requires IsInt32(r.vlanId)
  {
    if r.vlanId >= 0 then r.vlanId else 0x1_0000_0000_0000_0000 + r.vlanId
  }

  /** Whether the record brings a primary address that the service takes. */
  predicate Names(r: Record, family: int) {
    r.head.flags % 2 == 1 && r.primary.family == family
  }

  /** What a record leaves of a service and its settings: accept mode is fixed for
      IPv6 and VLANs, subnets are only ever added, and those of the other family
      are not. */
  ghost predicate Changes(r: Record, s: Service, s': Service) {
    var c, d, h := s.router.config, s'.router.config, r.head;
    && d.family == c.family && d.interface == c.interface && d.outputInterface == c.outputInterface
    && d.vlanId == c.vlanId && d.vrid == c.vrid
    && d.priority == h.priority && 10 * d.interval == h.interval && d.preempt == h.preempt
    && d.accept == (if c.family == AF_INET6 || c.vlanId != 0 then c.accept else h.accept)
    && d.primary == (if Names(r, c.family) then r.primary else c.primary)
    && s'.autoPrimary == (s.autoPrimary && !Names(r, c.family))
    && s'.masterCommand == r.masterCommand && s'.backupCommand == r.backupCommand
    && (forall x :: x in d.subnets <==> x in c.subnets || (x in r.subnets && x.address.family == c.family))
  }

  /** Enabling does nothing to a service that is enabled already, and disabling
      nothing to one that waits for its link. */
  ghost predicate Switches(r: Record, s: Service, s': Service) {
    var before, after := s.router.state, s'.router.state;
    if r.head.enabled then after != Disabled && (before != Disabled ==> after == before)
    else after == if before == LinkDown then LinkDown else Disabled
  }

  lemma ConfiguredExact(h: Head, r: Router)
    requires Sane(h)
    ensures var d := Configured(h, r);
      d == r.(placed := d.placed, config := r.config.(
        priority := h.priority, interval := h.interval / 10, preempt := h.preempt,
        accept := if r.config.family == AF_INET6 || r.config.vlanId != 0 then r.config.accept else h.accept))
  {
    hide MovedToInterface, MovedToArp, HoldsAddresses;
  }

  lemma SwitchedExact(r: Router, enabled: bool, linkUp: bool)
    ensures var d := if enabled then Enable(r, linkUp) else Disable(r);
      && d.config == r.config
      && (if enabled then d.state != Disabled && (r.state != Disabled ==> d.state == r.state)
          else d.state == if r.state == LinkDown then LinkDown else Disabled)
  {
    hide MasterDownInterval, EntryItems, Added, Removed, AdvertOf;
  }

  lemma WithSubnetsExact(r: Router, subnets: set<IpSubnet>)
    ensures var w := WithSubnets(r, subnets);
      && w.state == r.state && w.config == r.config.(subnets := w.config.subnets, addresses := w.config.addresses)
      && (forall x :: x in w.config.subnets <==>
            x in r.config.subnets || (x in subnets && x.address.family == r.config.family))
  {
    hide HoldsAddresses, SubnetsOn, EntriesOn, AddressesIn;
  }

  lemma NamedExact(r: Record, a: Router)
    ensures (if HasPrimary(r.head.flags) then SetPrimary(a, r.primary) else a)
         == a.(config := a.config.(primary := if Names(r, a.config.family) then r.primary else a.config.primary))
  {}

  /** All that a record does to its service. */
  lemma LoadedExact(r: Record, s: Service, linkUp: bool)
    requires Sane(r.head)
    ensures Changes(r, s, Loaded(r, s, linkUp)) && Switches(r, s, Loaded(r, s, linkUp))
  {
    hide Configured, Enable, Disable, WithSubnets, SetPrimary, Sane;
    ConfiguredExact(r.head, s.router);
    var a := Configured(r.head, s.router);
    var b := if HasPrimary(r.head.flags) then SetPrimary(a, r.primary) else a;
    NamedExact(r, a);
    WithSubnetsExact(b, r.subnets);
    SwitchedExact(WithSubnets(b, r.subnets), r.head.enabled, linkUp);
    assert 10 * (r.head.interval / 10) == r.head.interval by { Tens(r.head); }
  }

  lemma Tens(h: Head)
    requires Sane(h)
    ensures 10 * (h.interval / 10) == h.interval
  {}

  /** The effect of a record on the table: nothing if it is out of range, its
      interface is unknown or its service cannot be made; otherwise only the entry
      of its own key changes. */
  lemma AdmittedExact(r: Record, env: Environment, services: Services)
    requires IsInt32(r.vlanId)
    ensures var after := Admitted(r, env, services);
      match Target(r, env)
      case None => after == services
      case Some(k) =>
        if k !in services && !env.makes(k, VlanOf(r)) then after == services
        else
          && after.Keys == services.Keys + {k}
          && (forall l :: l in services && l != k ==> after[l] == services[l])
          && (k in services ==> Changes(r, services[k], after[k]) && Switches(r, services[k], after[k]))
          && (k !in services ==> IsNew(r, env, k, after[k]))
  {
    hide Loaded, Changes, Switches, IsNew;
    if Sane(r.head) && env.index(r.head.interface) > 0 {
      var k := Key(env.index(r.head.interface), r.head.vrid, r.head.family);
      if k in services {
        LoadedExact(r, services[k], env.linkUp(k.interface));
      } else {
        NewExact(r, env, k);
      }
    }
  }

  /** A service that only the record has configured. */
  ghost predicate IsNew(r: Record, env: Environment, k: Key, s: Service)
    requires IsInt32(r.vlanId)
  {
    var d, h, vlanId := s.router.config, r.head, VlanOf(r);
    && d.family == k.family && d.interface == k.interface && d.vrid == k.vrid && d.vlanId == vlanId
    && d.outputInterface == env.output(k, vlanId)
    && d.priority == h.priority && 10 * d.interval == h.interval && d.preempt == h.preempt
    && (d.accept <==> k.family == AF_INET6 || vlanId != 0 || h.accept)
    && d.primary == (if Names(r, k.family) then r.primary else env.primary(k.interface, k.family))
    && (s.autoPrimary <==> !Names(r, k.family))
    && s.masterCommand == r.masterCommand && s.backupCommand == r.backupCommand
    && (forall x :: x in d.subnets <==> x in r.subnets && x.address.family == k.family)
    && (s.router.state != Disabled <==> h.enabled)
  }

  lemma NewExact(r: Record, env: Environment, k: Key)
    requires Sane(r.head) && IsInt32(r.vlanId)
    ensures IsNew(r, env, k, Loaded(r, Fresh(k, Unsigned(r.vlanId), env), env.linkUp(k.interface)))
  {
    hide Loaded, Sane;
    var s := Fresh(k, Unsigned(r.vlanId), env);
    LoadedExact(r, s, env.linkUp(k.interface));
    assert Unsigned(r.vlanId) == VlanOf(r);
  }

  // ------------------------------------------------------------------ old files

  /** A record of version 1 or 2. */
  function PutOldRecord(w: Bytes, r: Record, order: seq<IpSubnet>, version: int): Bytes {
    var w1 := PutHead(w, r.head);
    var w2 := if HasPrimary(r.head.flags) then PutIp(w1, r.primary) else w1;
    var w3 := if version == 2 then PutString(PutString(w2, r.masterCommand), r.backupCommand) else w2;
    PutSubnets(PutInt(w3, |order|), order)
  }

  /** It is still read: without commands from version 1, and with whatever the
      variable holds for a VLAN id from both. */
  lemma ReadsOldRecord(w: Bytes, r: Record, order: seq<IpSubnet>, version: int, f: Bytes, stale: int)
    requires version == 1 || version == 2
    requires Writable(r) && Enumerates(order, r.subnets) && PutOldRecord(w, r, order, version) <= f
    ensures ParseRecord(f, |w|, version, stale) == Ok(
      Record(r.head.(interface := Cut(r.head.interface)),
             if r.head.flags % 2 == 1 then r.primary else IpAddress(AF_UNSPEC, []),
             if version == 2 then Cut(r.masterCommand) else [], if version == 2 then Cut(r.backupCommand) else [],
             stale, r.subnets), |PutOldRecord(w, r, order, version)|)
  {
    var w1 := PutHead(w, r.head);
    var w2 := if HasPrimary(r.head.flags) then PutIp(w1, r.primary) else w1;
    var w3 := if version == 2 then PutString(PutString(w2, r.masterCommand), r.backupCommand) else w2;
    var w4 := PutInt(w3, |order|);
    PutSubnetsPrefix(w4, order);
    forall s | s in order
      ensures StorableSubnet(s)
    {
      assert s in SetOf(order);
    }
    ReadsSubnets(w4, order, f, {});
    ReadsInt(w3, |order|, f);
    if version == 2 {
      ReadsString(PutString(w2, r.masterCommand), r.backupCommand, f);
      ReadsString(w2, r.masterCommand, f);
    }
    if HasPrimary(r.head.flags) {
      ReadsIp(w1, r.primary, f);
    }
    ReadsHead(w, r.head, f);
    assert {} + SetOf(order) == r.subnets;
  }

  // -------------------------------------------------------------- damaged files

  /** A file that says something else than version 1, 2 or 3, or a negative count,
      or does not get that far, is refused as a whole. */
  lemma RefusedFile(f: Bytes, stale: int, env: Environment, services: Services)
    requires |f| < 8 || f[..3] != [0, 0, 0] || f[3] == 0 || f[3] > 3 || f[4] >= 128
    ensures !ReadFile(f, stale, env, services).ok && ReadFile(f, stale, env, services).services == services
  {
    hide ParseInt, ToInt;
    if |f| >= 8 {
      SmallOrNegative(f, 0);
      SmallOrNegative(f, 4);
      assert f[..3] == f[0..3];
    }
    TooShort(f);
  }

  lemma SmallOrNegative(f: Bytes, p: nat)
    requires p + 4 <= |f|
    ensures ParseInt(f, p).Ok? && ParseInt(f, p).pos == p + 4
    ensures ParseInt(f, p).value < 0 <==> f[p] >= 128
    ensures ParseInt(f, p).value in {1, 2, 3} ==> f[p..p + 3] == [0, 0, 0] && 1 <= f[p + 3] <= 3
  {
    var b := f[p..p + 4];
    assert b[0] == f[p] && b[3] == f[p + 3] && f[p..p + 3] == b[..3];
    if ToInt(b) in {1, 2, 3} {
      assert b[..3] == [0, 0, 0];
    }
  }

  lemma TooShort(f: Bytes)
    ensures ParseInt(f, 0).Ok? ==> ParseInt(f, 0).pos == 4
    ensures ParseInt(f, 4).Ok? <==> |f| >= 8
  {}

  // What is read from the beginning of a file is read from the whole of it.

  lemma WholeSlice(g: Bytes, f: Bytes, p: nat, q: nat)
    requires g <= f && p <= q <= |g|
    ensures g[p..q] == f[p..q]
  {}

  lemma WholeInt(g: Bytes, f: Bytes, p: nat)
    requires g <= f && ParseInt(g, p).Ok?
    ensures ParseInt(f, p) == ParseInt(g, p)
  {
    WholeSlice(g, f, p, p + 4);
  }

  lemma WholeString(g: Bytes, f: Bytes, p: nat)
    requires g <= f && ParseString(g, p).Ok?
    ensures ParseString(f, p) == ParseString(g, p)
  {
    WholeSlice(g, f, p + 1, p + 1 + g[p]);
  }

  lemma WholeIp(g: Bytes, f: Bytes, p: nat)
    requires g <= f && ParseIp(g, p).Ok?
    ensures ParseIp(f, p) == ParseIp(g, p)
  {
    hide ParseInt;
    WholeInt(g, f, p);
    var (family, q) := ParseInt(g, p).Extract();
    if FamilySize(family) > 0 {
      WholeSlice(g, f, q, q + FamilySize(family));
    }
  }

  lemma WholeSubnet(g: Bytes, f: Bytes, p: nat)
    requires g <= f && ParseSubnet(g, p).Ok?
    ensures ParseSubnet(f, p) == ParseSubnet(g, p)
  {
    hide ParseIp, ParseInt;
    WholeIp(g, f, p);
    WholeInt(g, f, ParseIp(g, p).pos);
  }

  lemma {:induction false} WholeSubnets(g: Bytes, f: Bytes, p: nat, count: int, found: set<IpSubnet>)
    requires g <= f && ParseSubnets(g, p, count, found).Ok?
    ensures ParseSubnets(f, p, count, found) == ParseSubnets(g, p, count, found)
    decreases |g| - p
  {
    hide ParseSubnet;
    if count != 0 {
      WholeSubnet(g, f, p);
      WholeSubnets(g, f, ParseSubnet(g, p).pos, count - 1, found + {ParseSubnet(g, p).value});
    }
  }

  lemma WholeHead(g: Bytes, f: Bytes, p: nat)
    requires g <= f && ParseHead(g, p).Ok?
    ensures ParseHead(f, p) == ParseHead(g, p)
  {
    hide ParseInt, ParseString;
    WholeString(g, f, p);
    var p1 := ParseString(g, p).pos;
    WholeInt(g, f, p1);
    WholeInt(g, f, p1 + 4);
    WholeInt(g, f, p1 + 8);
    WholeInt(g, f, p1 + 12);
    WholeInt(g, f, p1 + 19);
  }

  lemma WholeMiddle(g: Bytes, f: Bytes, p: nat, flags: int, version: int, stale: int)
    requires g <= f && p <= |g|
    ensures ParsePrimary(g, p, flags).Ok? ==> ParsePrimary(f, p, flags) == ParsePrimary(g, p, flags)
    ensures ParseCommand(g, p, version).Ok? ==> ParseCommand(f, p, version) == ParseCommand(g, p, version)
    ensures ParseVlan(g, p, version, stale).Ok? ==> ParseVlan(f, p, version, stale) == ParseVlan(g, p, version, stale)
  {
    hide ParseInt, ParseString, ParseIp;
    if ParseIp(g, p).Ok? {
      WholeIp(g, f, p);
    }
    if ParseString(g, p).Ok? {
      WholeString(g, f, p);
    }
    if ParseInt(g, p).Ok? {
      WholeInt(g, f, p);
    }
  }

  lemma WholeRecord(g: Bytes, f: Bytes, p: nat, version: int, stale: int)
    requires g <= f && ParseRecord(g, p, version, stale).Ok?
    ensures ParseRecord(f, p, version, stale) == ParseRecord(g, p, version, stale)
  {
    hide ParseHead, ParseInt, ParsePrimary, ParseCommand, ParseVlan, ParseSubnets;
    WholeHead(g, f, p);
    var (head, p1) := ParseHead(g, p).Extract();
    WholeMiddle(g, f, p1, head.flags, version, stale);
    var p2 := ParsePrimary(g, p1, head.flags).pos;
    WholeMiddle(g, f, p2, head.flags, version, stale);
    var p3 := ParseCommand(g, p2, version).pos;
    WholeMiddle(g, f, p3, head.flags, version, stale);
    var p4 := ParseCommand(g, p3, version).pos;
    WholeMiddle(g, f, p4, head.flags, version, stale);
    var p5 := ParseVlan(g, p4, version, stale).pos;
    WholeInt(g, f, p5);
    WholeSubnets(g, f, p5 + 4, ParseInt(g, p5).value, {});
  }

  /** The first k services alone, written behind the same beginning. */
  lemma {:induction false} FirstServices(w: Bytes, services: seq<Service>, orders: seq<seq<IpSubnet>>, k: nat, i: nat,
                                         env: Environment)
    requires i <= k <= |services| == |orders|
    ensures PutServices(w, services[..k], orders[..k], i, env) == PutServices(w, services, orders, i, env)
  {
    hide PutRecord, RecordOf;
    if i > 0 {
      FirstServices(w, services, orders, k, i - 1, env);
    }
  }

  lemma FirstReady(services: seq<Service>, orders: seq<seq<IpSubnet>>, k: nat, env: Environment)
    requires AllReady(services, orders, env) && Distinct(KeysOf(services)) && k <= |services|
    ensures AllReady(services[..k], orders[..k], env) && Distinct(KeysOf(services[..k]))
  {
    hide Ready;
    forall i, j | 0 <= i < j < k
      ensures KeysOf(services[..k])[i] != KeysOf(services[..k])[j]
    {
      assert KeysOf(services)[i] != KeysOf(services)[j];
    }
  }

  lemma ReadsNothing(parse: nat -> Parsed<Record>, admit: (Record, Services) -> Services, p: nat, count: nat,
                     services: Services)
    requires parse(p).Fail? && count > 0
    ensures ReadRecords(parse, admit, p, count, services) == Outcome(false, services, p)
  {}

  /** Reading fails in a record that the file contains only the beginning of. */
  lemma CutRecordFails(w: Bytes, services: seq<Service>, orders: seq<seq<IpSubnet>>, k: nat, env: Environment,
                       f: Bytes, n: nat, stale: int)
    requires AllReady(services, orders, env) && k < |services| && n <= |f|
    requires f == PutServices(w, services, orders, |services|, env)
    requires n < |PutServices(w, services, orders, k + 1, env)|
    ensures Parser(f[..n], 3, stale)(|PutServices(w, services, orders, k, env)|).Fail?
  {
    hide PutServices, ParseRecord, PutRecord, RecordOf, Stored, WellFormed;
    var p := |PutServices(w, services, orders, k, env)|;
    PutServicesPrefix(w, services, orders, k + 1, env);
    ReadyAt(services, orders, k, env);
    NextRecord(w, services, orders, k, env, f, stale);
    if ParseRecord(f[..n], p, 3, stale).Ok? {
      WholeRecord(f[..n], f, p, 3, stale);
    }
  }

  /** A configuration file that has been cut off somewhere in its k-th record, of
      well-formed services with distinct keys, is refused, but the services before
      it are restored all the same, and no others. */
  lemma CutFile(services: seq<Service>, orders: seq<seq<IpSubnet>>, env: Environment, stale: int, k: nat, n: nat)
    requires AllReady(services, orders, env) && Distinct(KeysOf(services)) && k < |services| < 0x8000_0000
    requires var w := PutInt(PutInt([], 3), |services|);
      |PutServices(w, services, orders, k, env)| <= n < |PutServices(w, services, orders, k + 1, env)|
    ensures n <= |PutFile(services, orders, env)|
    ensures var o := ReadFile(PutFile(services, orders, env)[..n], stale, env, map[]);
      !o.ok && AreRestored(services[..k], o.services, env)
  {
    hide Parser, Admitter, Inserted, PutServices, Ready, IsRebuilt, AreRestored, PutInt;
    var w, f := PutInt(PutInt([], 3), |services|), PutFile(services, orders, env);
    PutServicesPrefix(w, services, orders, k + 1, env);
    PutServicesPrefix(w, services, orders, k, env);
    FirstReady(services, orders, k, env);
    FirstServices(w, services, orders, k, k, env);
    FirstServices(w, services, orders, k, 0, env);
    var first, firstOrders := services[..k], orders[..k];
    var rebuilt := RebuiltAllExist(first, firstOrders, env);
    NothingYet(first, firstOrders, rebuilt, env, w);
    PutServicesPrefix(w, first, firstOrders, 0, env);
    assert PutServices(w, services, orders, k, env) <= f[..n];
    ReadsPreamble(services, env, f[..n], stale);
    ReadsServices(first, firstOrders, rebuilt, env, w, f[..n], stale, |services| - k);
    CutRecordFails(w, services, orders, k, env, f, n, stale);
    var table := Inserted(KeysOf(first), rebuilt, MakesOf(first, env), k);
    ReadsNothing(Parser(f[..n], 3, stale), Admitter(env), |PutServices(w, services, orders, k, env)|, |services| - k,
                 table);
    RebuiltTable(first, rebuilt, env);
  }

  // ------------------------------------------------------- the bytes of the file

  /** An integer is four bytes of the number modulo 2^32, the most significant
      first. */
  lemma IntLayout(w: Bytes, v: int)
    ensures |PutInt(w, v)| == |w| + 4 && PutInt(w, v)[..|w|] == w && Value(PutInt(w, v)[|w|..]) == v % 0x1_0000_0000
  {
    assert PutInt(w, v)[|w|..] == IntBytes(v);
    ValueOfFour(IntBytes(v));
    FourDigits(v % 0x1_0000_0000);
  }

  lemma ValueOfFour(b: Bytes)
    requires |b| == 4
    ensures Value(b) == 256 * (256 * (256 * (b[0] as int) + b[1]) + b[2]) + b[3]
  {
    var c, d, e := b[..3], b[..2], b[..1];
    assert c[..2] == d && d[..1] == e && e[..0] == [];
    assert Value(e) == b[0];
    assert Value(d) == 256 * Value(e) + b[1];
    assert Value(c) == 256 * Value(d) + b[2];
  }

  lemma FourDigits(u: nat)
    ensures u == 256 * (256 * (256 * (u / 256 / 256 / 256) + u / 256 / 256 % 256) + u / 256 % 256) + u % 256
  {
    assert u / 256 / 256 == 256 * (u / 256 / 256 / 256) + u / 256 / 256 % 256;
  }

  /** A text is its length and its first 255 bytes. */
  lemma StringLayout(w: Bytes, s: Bytes)
    ensures PutString(w, s) == if |s| <= 255 then w + [|s|] + s else w + [255] + s[..255]
  {}

  const ETH0: Bytes := [0x65, 0x74, 0x68, 0x30]
  const SUBNET := IpSubnet(IpAddress(AF_INET, [10, 0, 0, 9]), 24)

  const HEAD_BYTES: Bytes := [4, 0x65, 0x74, 0x68, 0x30, 0, 0, 0, 1, 0, 0, 0, 2, 0, 0, 0, 100, 0, 0, 3, 0xE8]
  const BODY_BYTES: Bytes := [0, 0, 0, 2, 10, 0, 0, 1, 1, 0x75, 2, 0x64, 0x6E, 0, 0, 0, 5]
  const SUBNET_BYTES: Bytes := [0, 0, 0, 2, 10, 0, 0, 9, 0, 0, 0, 24]

  function SampleService(i: int, now: nat, accept: bool, preempt: bool, state: State): Service {
    var primary := IpAddress(AF_INET, [10, 0, 0, 1]);
    var c := Config(AF_INET, i, i, 5, 1, 100, primary, 100, preempt, accept, {SUBNET}, {SUBNET.address});
    Service(Created(c, now).(state := state), false, [0x75], [0x64, 0x6E])
  }

  function Flag(b: bool): Byte {
    if b then 0xFF else 0
  }

  /** The whole file of one service. */
  lemma KnownFile(i: int, now: nat, accept: bool, preempt: bool, state: State, env: Environment)
    requires env.name(i) == ETH0
    ensures PutFile([SampleService(i, now, accept, preempt, state)], [[SUBNET]], env)
         == [0, 0, 0, 3, 0, 0, 0, 1] + HEAD_BYTES + [Flag(accept), Flag(preempt), Flag(state != Disabled)]
          + [0, 0, 0, 1] + BODY_BYTES + [0, 0, 0, 1] + SUBNET_BYTES
  {
    hide IntBytes, PutHead, PutBody, PutSubnets, PutServices, SampleService, RecordOf;
    hide HEAD_BYTES, BODY_BYTES, SUBNET_BYTES;
    var s := SampleService(i, now, accept, preempt, state);
    var r := RecordOf(s, env);
    SampleRecord(i, now, accept, preempt, state, env);
    SmallInts();
    var w := PutInt(PutInt([], 3), 1);
    assert w == [0, 0, 0, 3, 0, 0, 0, 1];
    OneService(w, s, [SUBNET], env);
    HeadBytes(w, r.head);
    BodyBytes(PutHead(w, r.head), r);
    SubnetBytes(PutInt(PutBody(PutHead(w, r.head), r), 1));
  }

  lemma SampleRecord(i: int, now: nat, accept: bool, preempt: bool, state: State, env: Environment)
    requires env.name(i) == ETH0
    ensures RecordOf(SampleService(i, now, accept, preempt, state), env) == Record(
      Head(ETH0, 1, AF_INET, 100, 1000, accept, preempt, state != Disabled, 1), IpAddress(AF_INET, [10, 0, 0, 1]),
      [0x75], [0x64, 0x6E], 5, {SUBNET})
  {}

  lemma OneService(w: Bytes, s: Service, order: seq<IpSubnet>, env: Environment)
    ensures PutServices(w, [s], [order], 1, env) == PutRecord(w, RecordOf(s, env), order)
  {
    hide PutRecord, RecordOf;
    assert PutServices(w, [s], [order], 0, env) == w;
  }

  lemma SmallInts()
    ensures forall v {:trigger IntBytes(v)} :: 0 <= v < 256 ==> IntBytes(v) == [0, 0, 0, v]
    ensures IntBytes(1000) == [0, 0, 3, 0xE8]
  {}

  lemma HeadBytes(w: Bytes, h: Head)
    requires h == Head(ETH0, 1, AF_INET, 100, 1000, h.accept, h.preempt, h.enabled, 1)
    ensures PutHead(w, h) == w + HEAD_BYTES + [Flag(h.accept), Flag(h.preempt), Flag(h.enabled)] + [0, 0, 0, 1]
  {
    hide IntBytes, HEAD_BYTES, PutString;
    SmallInts();
    NumberBytes(w);
  }

  lemma NumberBytes(w: Bytes)
    ensures PutInt(PutInt(PutInt(PutInt(PutString(w, ETH0), 1), AF_INET), 100), 1000) == w + HEAD_BYTES
  {
    hide IntBytes;
    SmallInts();
  }

  lemma BodyBytes(w: Bytes, r: Record)
    requires r.head.flags == 1 && r.primary == IpAddress(AF_INET, [10, 0, 0, 1])
    requires r.masterCommand == [0x75] && r.backupCommand == [0x64, 0x6E] && r.vlanId == 5
    ensures PutBody(w, r) == w + BODY_BYTES
  {
    hide IntBytes;
    SmallInts();
  }

  lemma SubnetBytes(w: Bytes)
    ensures PutSubnets(w, [SUBNET]) == w + SUBNET_BYTES
  {
    hide IntBytes;
    SmallInts();
    assert [SUBNET][..0] == [];
  }
}
