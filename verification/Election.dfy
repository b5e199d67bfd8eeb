/** Several routers of one virtual router id on a LAN that may lose, duplicate
    and reorder datagrams, and the election among them. */
module Election {
  import opened Addresses
  import opened Advertisement
  import opened Sockets
  import opened Timers
  import opened RouterSpec
  import opened RouterSteps
  import opened RouterInvariants

  function Multicast(family: int): (a: IpAddress)
    requires family == AF_INET || family == AF_INET6
    ensures a.family == family
  {
    if family == AF_INET then IpAddress(AF_INET, [224, 0, 0, 18])
    else IpAddress(AF_INET6, [0xFF, 0x12, 0, 0, 0, 0, 0, 0, 0, 0, 0, 0, 0, 0, 0, 0x12])
  }

  /** A datagram on its way: sender and VRRP payload. */
  datatype Flight = Flight(source: IpAddress, packet: seq<Byte>)

  /** wire holds every datagram ever sent; delivering any of them to anyone, any
      number of times or never, is loss, duplication and reordering. */
  datatype Lan = Lan(routers: seq<Router>, wire: set<Flight>)

  datatype LanEvent = At(i: nat, event: Event) | Deliver(i: nat, flight: Flight)

  predicate IpFamily(family: int) {
    family == AF_INET || family == AF_INET6
  }

  /** The datagram of a logged advertisement. */
  ghost function FlightOf(c: Config, item: LogItem): Flight
    requires IpFamily(c.family) && item.Advert?
  {
    var content := Content(c.vrid, item.priority, item.interval, InOrder(item.addresses));
    Flight(item.source, Encode(content, item.source, Multicast(c.family)))
  }

  function Logged(r: Router, r': Router): seq<LogItem> {
    if |r.log| <= |r'.log| then r'.log[|r.log|..] else []
  }

  /** What a step puts on the wire. */
  ghost function Transmitted(r: Router, r': Router): set<Flight>
    requires IpFamily(r.config.family)
  {
    set item | item in Logged(r, r') && item.Advert? :: FlightOf(r.config, item)
  }

  /** What the receive pipeline makes of a datagram for the one listener. */
  function Heard(r: Router, f: Flight): Event
    requires IpFamily(r.config.family)
  {
    var c := r.config;
    var d := Datagram(c.interface, 255, f.source, Multicast(c.family), f.packet);
    var listeners: Listeners := map[c.interface := map[c.vrid := 0]];
    if VerdictOn(listeners, c.family, d) == Delivered then
      var content := Decode(f.packet, c.family);
      Receive(f.source, content.priority, content.interval, content.addresses)
    else
      var reaction := Reaction(listeners, c.family, d);
      if reaction != [] && reaction[0].Error? then ReceiveError(reaction[0].error) else Elapse(0)
  }

  ghost predicate SameVirtualRouter(a: Config, b: Config) {
    a.family == b.family && a.vrid == b.vrid
  }

  /** A datagram that a router with this configuration may have sent: its own
      address, and its own priority or zero. */
  ghost predicate OwnFlight(c: Config, f: Flight) {
    && IpFamily(c.family) && c.primary.family == c.family && f.source == c.primary
    && exists content: Content :: CarriedBy(c, f, content)
  }

  ghost predicate CarriedBy(c: Config, f: Flight, content: Content)
    requires IpFamily(c.family)
  {
    && f.packet == Encode(content, c.primary, Multicast(c.family))
    && content.vrid == c.vrid && (content.priority == 0 || content.priority == c.priority)
    && AllOfFamily(content.addresses, c.family)
  }

  /** A datagram that advertises the own priority. */
  ghost predicate Offer(c: Config, f: Flight) {
    OwnFlight(c, f) && exists content: Content :: CarriedBy(c, f, content) && content.priority == c.priority
  }

  ghost predicate Sender(n: Lan, f: Flight, j: nat) {
    j < |n.routers| && OwnFlight(n.routers[j].config, f)
  }

  /** Every datagram in flight carries the own pair of priority and address of
      some router on the LAN, or priority zero. */
  ghost predicate LanInv(n: Lan) {
    && (forall i :: 0 <= i < |n.routers| ==> Sound(n.routers[i]) && IpFamily(n.routers[i].config.family))
    && (forall i, j :: 0 <= i < |n.routers| && 0 <= j < |n.routers| ==>
          SameVirtualRouter(n.routers[i].config, n.routers[j].config))
    && (forall f :: f in n.wire ==> exists j: nat :: Sender(n, f, j))
  }

  ghost function Apply(n: Lan, i: nat, e: Event): Lan
    requires i < |n.routers| && IpFamily(n.routers[i].config.family)
  {
    var r' := Step(n.routers[i], e);
    Lan(n.routers[i := r'], n.wire + Transmitted(n.routers[i], r'))
  }

  ghost function LanStep(n: Lan, e: LanEvent): Lan {
    if e.i >= |n.routers| || !IpFamily(n.routers[e.i].config.family) then n
    else match e
      case At(i, event) => if event.Receive? then n else Apply(n, i, event)
      case Deliver(i, f) => if f !in n.wire then n else Apply(n, i, Heard(n.routers[i], f))
  }

  ghost function LanRun(n: Lan, events: seq<LanEvent>): Lan {
    if events == [] then n else LanStep(LanRun(n, events[..|events| - 1]), events[|events| - 1])
  }

  /** Any routers of one virtual router that have come about by some events,
      and an empty wire, are a place to start. */
  lemma LanStarts(routers: seq<Router>)
    requires forall i :: 0 <= i < |routers| ==> Inv(routers[i]) && IpFamily(routers[i].config.family)
    requires forall i, j :: 0 <= i < |routers| && 0 <= j < |routers| ==>
      SameVirtualRouter(routers[i].config, routers[j].config)
    ensures LanInv(Lan(routers, {}))
  {
    hide TraceAgrees;
  }

  // ------------------------------------------------------------ rank

  /** a's advertisement makes a Master with configuration b yield. */
  predicate Outranks(a: Config, b: Config) {
    YieldsTo(b.priority, b.primary, a.priority, a.primary)
  }

  /** Among routers with distinct primary addresses yielding is a strict total
      order. */
  lemma OutranksIsStrictTotalOrder(a: Config, b: Config, c: Config)
    ensures !Outranks(a, a)
    ensures !(Outranks(a, b) && Outranks(b, a))
    ensures Outranks(a, b) && Outranks(b, c) ==> Outranks(a, c)
    ensures a.primary != b.primary ==> Outranks(a, b) || Outranks(b, a)
  {
    LessIsStrictTotalOrder(a.primary, a.primary, c.primary);
    LessIsStrictTotalOrder(a.primary, b.primary, c.primary);
    LessIsStrictTotalOrder(b.primary, a.primary, c.primary);
    LessIsStrictTotalOrder(b.primary, c.primary, a.primary);
    LessIsStrictTotalOrder(a.primary, c.primary, b.primary);
    LessIsStrictTotalOrder(c.primary, b.primary, a.primary);
  }

  ghost predicate Top(n: Lan, t: nat) {
    t < |n.routers| &&
    forall j :: 0 <= j < |n.routers| && j != t ==> Outranks(n.routers[t].config, n.routers[j].config)
  }

  ghost predicate DistinctAddresses(n: Lan) {
    forall i, j :: 0 <= i < j < |n.routers| ==> n.routers[i].config.primary != n.routers[j].config.primary
  }

  lemma {:induction false} TopOfFirst(n: Lan, k: nat) returns (t: nat)
    requires DistinctAddresses(n) && 0 < k <= |n.routers|
    ensures t < k && forall j :: 0 <= j < k && j != t ==> Outranks(n.routers[t].config, n.routers[j].config)
  {
    t := 0;
    if k > 1 {
      var s := TopOfFirst(n, k - 1);
      var a, b := n.routers[s].config, n.routers[k - 1].config;
      OutranksIsStrictTotalOrder(a, b, a);
      if Outranks(a, b) {
        t := s;
      } else {
        t := k - 1;
        forall j | 0 <= j < k - 1
          ensures Outranks(b, n.routers[j].config)
        {
          OutranksIsStrictTotalOrder(b, a, n.routers[j].config);
        }
      }
    }
  }

  /** With distinct primary addresses the election has a winner, and only one. */
  lemma TopExistsOnce(n: Lan)
    requires DistinctAddresses(n) && n.routers != []
    ensures exists t :: Top(n, t)
    ensures forall s: nat, t: nat :: Top(n, s) && Top(n, t) ==> s == t
  {
    var t := TopOfFirst(n, |n.routers|);
    assert Top(n, t);
    forall a: nat, b: nat | Top(n, a) && Top(n, b)
      ensures a == b
    {
      OutranksIsStrictTotalOrder(n.routers[a].config, n.routers[b].config, n.routers[a].config);
    }
  }

  // -------------------------------------------------- what steps put on the wire

  /** Configuration stays fixed as far as the election is concerned. */
  predicate KeepsRank(e: Event) {
    !e.ChangePriority? && !e.ChangePrimary?
  }

  ghost predicate SameRank(a: Config, b: Config) {
    SameVirtualRouter(a, b) && a.priority == b.priority && a.primary == b.primary
  }

  lemma SettingsKeepRank(r: Router, e: Event)
    requires Configures(e) && KeepsRank(e)
    ensures SameRank(r.config, Step(r, e).config)
  {
    hide MovedToInterface, MovedToArp, HoldsAddresses;
  }

  lemma RankKept(r: Router, e: Event)
    requires Sound(r) && KeepsRank(e)
    ensures SameRank(r.config, Step(r, e).config)
  {
    hide Step, Emits;
    StepEmits(r, e);
    if Configures(e) {
      SettingsKeepRank(r, e);
    }
  }

  /** An advertisement of its own priority, or zero, from its own address, with
      its own interval and addresses. */
  predicate Own(c: Config, item: LogItem) {
    item.Advert? ==>
      CanSend(c) && item.source == c.primary && (item.priority == 0 || item.priority == c.priority) &&
      item.interval == c.interval && item.addresses == c.addresses
  }

  lemma EmitsOwn(r: Router, e: Event)
    ensures forall item :: item in Emits(r, e) ==> Own(r.config, item)
  {
    hide CanSend, YieldsTo;
  }

  /** Whatever happens to a router, it only advertises its own priority, or
      zero, and its own addresses. */
  lemma StepLogsOwn(r: Router, e: Event)
    requires Sound(r)
    ensures Logged(r, Step(r, e)) == Emits(r, e)
    ensures forall item :: item in Logged(r, Step(r, e)) ==> Own(r.config, item)
  {
    hide Step, Emits, Own;
    StepEmits(r, e);
    EmitsOwn(r, e);
  }

  // ------------------------------------------------------- what is heard

  lemma TransmittedIsOwn(c: Config, item: LogItem)
    requires IpFamily(c.family) && item.Advert? && Own(c, item)
    ensures OwnFlight(c, FlightOf(c, item))
    ensures item.priority == c.priority ==> Offer(c, FlightOf(c, item))
  {
    InOrderVisitsEachOnce(item.addresses);
    var content := Content(c.vrid, item.priority, item.interval, InOrder(item.addresses));
    assert CarriedBy(c, FlightOf(c, item), content);
  }

  lemma HeardContent(r: Router, c: Config, f: Flight, content: Content)
    requires IpFamily(r.config.family) && SameVirtualRouter(r.config, c) && OwnFlight(c, f) && CarriedBy(c, f, content)
    ensures var e := Heard(r, f); e.Receive? && e.source == c.primary && e.priority == content.priority
  {
    hide Classify, Encode, Decode, Reaction;
    var d := Datagram(r.config.interface, 255, f.source, Multicast(c.family), f.packet);
    EncodedIsDelivered(content, d, c.family, {c.vrid});
    var listeners: Listeners := map[r.config.interface := map[r.config.vrid := 0]];
    assert Routers(listeners, r.config.interface).Keys == {c.vrid};
  }

  /** A router hears a datagram of another router of its virtual router as an
      advertisement from that router's address with its priority or zero. */
  lemma HeardIsOwn(r: Router, c: Config, f: Flight)
    requires IpFamily(r.config.family) && SameVirtualRouter(r.config, c) && OwnFlight(c, f)
    ensures var e := Heard(r, f);
      e.Receive? && e.source == c.primary && (e.priority == 0 || e.priority == c.priority)
  {
    var content: Content :| CarriedBy(c, f, content);
    HeardContent(r, c, f, content);
  }

  // ---------------------------------------------------------- LAN invariant

  lemma OwnFlightOfRank(a: Config, b: Config, f: Flight)
    requires SameRank(a, b) && OwnFlight(a, f)
    ensures OwnFlight(b, f)
  {
    var content: Content :| CarriedBy(a, f, content);
    assert CarriedBy(b, f, content);
  }

  /** Every rank on the LAN is as before. */
  ghost predicate SameRanks(n: Lan, n': Lan) {
    |n.routers| == |n'.routers| &&
    forall j :: 0 <= j < |n.routers| ==> SameRank(n.routers[j].config, n'.routers[j].config)
  }

  lemma SenderKept(n: Lan, n': Lan, f: Flight)
    requires SameRanks(n, n') && exists j: nat :: Sender(n, f, j)
    ensures exists j: nat :: Sender(n', f, j)
  {
    var j: nat :| Sender(n, f, j);
    OwnFlightOfRank(n.routers[j].config, n'.routers[j].config, f);
    assert Sender(n', f, j);
  }

  lemma ApplyKeepsRanks(n: Lan, i: nat, e: Event)
    requires LanInv(n) && i < |n.routers| && KeepsRank(e)
    ensures SameRanks(n, Apply(n, i, e))
    ensures forall j :: 0 <= j < |n.routers| ==> Sound(Apply(n, i, e).routers[j])
  {
    hide Step, Sound, Transmitted, KeepsRank, OwnFlight;
    var r := n.routers[i];
    RankKept(r, e);
    SoundKept(r, e);
  }

  lemma ApplyKeepsWire(n: Lan, i: nat, e: Event, f: Flight)
    requires LanInv(n) && i < |n.routers| && KeepsRank(e) && f in Apply(n, i, e).wire
    ensures exists j: nat :: Sender(Apply(n, i, e), f, j)
  {
    hide Step, Sound, KeepsRank, Logged, OwnFlight, SameRanks;
    var r, n' := n.routers[i], Apply(n, i, e);
    ApplyKeepsRanks(n, i, e);
    if f in n.wire {
      SenderKept(n, n', f);
    } else {
      StepLogsOwn(r, e);
      var item :| item in Logged(r, Step(r, e)) && item.Advert? && f == FlightOf(r.config, item);
      TransmittedIsOwn(r.config, item);
      assert Sender(n, f, i);
      SenderKept(n, n', f);
    }
  }

  lemma SameRanksSameRouter(n: Lan, n': Lan, i: nat, j: nat)
    requires LanInv(n) && SameRanks(n, n') && i < |n.routers| && j < |n.routers|
    ensures SameVirtualRouter(n'.routers[i].config, n'.routers[j].config)
    ensures IpFamily(n'.routers[i].config.family)
  {}

  lemma ApplyKeepsInv(n: Lan, i: nat, e: Event)
    requires LanInv(n) && i < |n.routers| && KeepsRank(e)
    ensures LanInv(Apply(n, i, e)) && SameRanks(n, Apply(n, i, e))
  {
    hide Step, Sound, KeepsRank, Transmitted, OwnFlight, SameRanks, SameVirtualRouter;
    var n' := Apply(n, i, e);
    ApplyKeepsRanks(n, i, e);
    forall f | f in n'.wire
      ensures exists j: nat :: Sender(n', f, j)
    {
      ApplyKeepsWire(n, i, e, f);
    }
    forall a, b | 0 <= a < |n'.routers| && 0 <= b < |n'.routers|
      ensures SameVirtualRouter(n'.routers[a].config, n'.routers[b].config)
      ensures IpFamily(n'.routers[a].config.family)
    {
      SameRanksSameRouter(n, n', a, b);
    }
  }

  /** Events that leave priorities and primary addresses alone. */
  predicate Fixed(e: LanEvent) {
    e.At? ==> KeepsRank(e.event)
  }

  /** No router ever transmits anything but its own pair: the invariant of the
      wire holds through loss, duplication and reordering. */
  lemma LanInvKept(n: Lan, e: LanEvent)
    requires LanInv(n) && Fixed(e)
    ensures LanInv(LanStep(n, e)) && SameRanks(n, LanStep(n, e))
  {
    hide Apply, Heard, Sound, OwnFlight;
    if e.i < |n.routers| {
      if e.Deliver? {
        HeardKind(n.routers[e.i], e.flight);
      }
      ApplyKeepsInv(n, e.i, if e.At? then e.event else Heard(n.routers[e.i], e.flight));
    }
  }

  lemma TopKept(n: Lan, n': Lan, t: nat)
    requires Top(n, t) && SameRanks(n, n')
    ensures Top(n', t)
  {}

  // ------------------------------------------------------------ election safety

  predicate ShutsDown(e: Event) {
    e.DisableRouter? || (e.Link? && !e.up)
  }

  lemma MasterStays(r: Router, e: Event)
    requires Sound(r) && r.state == Master && !ShutsDown(e)
    requires e.Receive? && e.priority != 0 ==> !YieldsTo(r.config.priority, r.config.primary, e.priority, e.source)
    ensures Step(r, e).state == Master
  {}

  lemma TopHearsNoBetter(n: Lan, t: nat, f: Flight)
    requires LanInv(n) && Top(n, t) && f in n.wire
    ensures var r, e := n.routers[t], Heard(n.routers[t], f);
      e.Receive? && (e.priority == 0 || !YieldsTo(r.config.priority, r.config.primary, e.priority, e.source))
  {
    var j: nat :| Sender(n, f, j);
    var a, b := n.routers[t].config, n.routers[j].config;
    assert SameVirtualRouter(a, b);
    HeardIsOwn(n.routers[t], b, f);
    OutranksIsStrictTotalOrder(a, b, a);
    assert j != t ==> Outranks(a, b);
  }

  predicate Stops(e: LanEvent, t: nat) {
    e.At? && e.i == t && ShutsDown(e.event)
  }

  lemma TopMasterStays(n: Lan, t: nat, e: LanEvent)
    requires LanInv(n) && Top(n, t) && n.routers[t].state == Master
    requires Fixed(e) && !Stops(e, t)
    ensures |LanStep(n, e).routers| == |n.routers| && LanStep(n, e).routers[t].state == Master
  {
    hide Step, Heard, Transmitted, Ranges, TimersAgree, YieldsTo;
    if e.i == t {
      if e.Deliver? {
        if e.flight in n.wire {
          TopHearsNoBetter(n, t, e.flight);
          MasterStays(n.routers[t], Heard(n.routers[t], e.flight));
        }
      } else if !e.event.Receive? {
        MasterStays(n.routers[t], e.event);
      }
    }
  }

  /** Election safety. While priorities and primary addresses stay fixed, the
      router with the greatest pair, once Master, stays Master through every run
      in which it is not shut down itself: whatever the others do, and whatever is
      lost, duplicated, reordered or left over. */
  lemma {:induction false} ElectionSafety(n: Lan, t: nat, events: seq<LanEvent>)
    requires LanInv(n) && Top(n, t) && n.routers[t].state == Master
    requires forall e :: e in events ==> Fixed(e) && !Stops(e, t)
    ensures LanInv(LanRun(n, events)) && Top(LanRun(n, events), t)
    ensures LanRun(n, events).routers[t].state == Master
  {
    if events != [] {
      var before, e := events[..|events| - 1], events[|events| - 1];
      ElectionSafety(n, t, before);
      var m := LanRun(n, before);
      LanInvKept(m, e);
      TopKept(m, LanStep(m, e), t);
      TopMasterStays(m, t, e);
    }
  }

  // ------------------------------------------------------- contention resolves

  ghost function Masters(n: Lan): set<nat> {
    set i: nat | i < |n.routers| && n.routers[i].state == Master
  }

  /** The only events of a router itself that can make it Master. */
  predicate CanPromote(e: Event) {
    e.MasterDownTimer? || e.EnableRouter? || (e.Link? && e.up)
  }

  /** Contention: anything may happen except that a router enters the election
      anew or the given one is shut down. Advertisement timers, deliveries, other
      shutdowns and all settings but priority and address are free. */
  predicate Contends(e: LanEvent, t: nat) {
    Fixed(e) && !Stops(e, t) && (e.At? ==> !CanPromote(e.event))
  }

  lemma ReceiveMakesNoMaster(r: Router, e: Event)
    requires e.Receive? && r.state != Master
    ensures Step(r, e).state != Master
  {
    hide BackupReceives;
    ReceiveCases(r, e);
    if r.state == Backup {
      BackupAbsorbs(Received(r, e.interval), e.source, e.priority, e.interval, e.addresses);
    }
  }

  lemma StepMakesNoMaster(r: Router, e: Event)
    requires Sound(r) && r.state != Master && !CanPromote(e)
    ensures Step(r, e).state != Master
  {
    hide BackupReceives, MasterReceives, Startup;
    if e.Receive? {
      ReceiveMakesNoMaster(r, e);
    } else if Quiet(e) {
      QuietCases(r, e);
    }
  }

  lemma HeardKind(r: Router, f: Flight)
    requires IpFamily(r.config.family)
    ensures var e := Heard(r, f); e.Receive? || e.ReceiveError? || e.Elapse?
  {}

  /** Nobody becomes Master except by its own master-down timer or startup. */
  lemma MastersNeverGrow(n: Lan, e: LanEvent)
    requires LanInv(n) && (e.At? ==> !CanPromote(e.event))
    ensures Masters(LanStep(n, e)) <= Masters(n)
  {
    hide Step, Heard, Transmitted;
    if e.i < |n.routers| {
      var r := n.routers[e.i];
      assert Sound(r);
      var event := if e.At? then e.event else Heard(r, e.flight);
      if e.Deliver? {
        HeardKind(r, e.flight);
      }
      if r.state != Master {
        StepMakesNoMaster(r, event);
      }
    }
  }

  lemma Heeds(r: Router, e: Event)
    requires e.Receive? && e.priority != 0 && YieldsTo(r.config.priority, r.config.primary, e.priority, e.source)
    ensures Step(r, e).state != Master
  {}

  lemma OfferIsHeard(r: Router, c: Config, f: Flight)
    requires IpFamily(r.config.family) && SameVirtualRouter(r.config, c) && Offer(c, f)
    ensures var e := Heard(r, f); e.Receive? && e.source == c.primary && e.priority == c.priority
  {
    var content: Content :| CarriedBy(c, f, content) && content.priority == c.priority;
    HeardContent(r, c, f, content);
  }

  lemma HeedsOffer(r: Router, c: Config, f: Flight)
    requires IpFamily(r.config.family) && SameVirtualRouter(r.config, c) && Offer(c, f)
    requires c.priority != 0 && Outranks(c, r.config)
    ensures Step(r, Heard(r, f)).state != Master
  {
    OfferIsHeard(r, c, f);
    Heeds(r, Heard(r, f));
  }

  lemma OfferIsHeeded(n: Lan, t: nat, i: nat, f: Flight)
    requires LanInv(n) && Top(n, t) && i < |n.routers| && i != t && f in n.wire
    requires Offer(n.routers[t].config, f)
    ensures LanStep(n, Deliver(i, f)).routers[i].state != Master
  {
    hide Step, Heard, Transmitted, Offer, TimersAgree;
    assert Sound(n.routers[t]);
    HeedsOffer(n.routers[i], n.routers[t].config, f);
  }

  lemma OfferKept(a: Config, b: Config, f: Flight)
    requires SameRank(a, b) && Offer(a, f)
    ensures Offer(b, f)
  {
    var content: Content :| CarriedBy(a, f, content) && content.priority == a.priority;
    OwnFlightOfRank(a, b, f);
    assert CarriedBy(b, f, content);
  }

  /** The k-th event of a run hands i an offer of the router with configuration
      c, sent before or during the run. */
  ghost predicate HandedAt(n: Lan, c: Config, i: nat, events: seq<LanEvent>, k: nat) {
    k < |events| && events[k].Deliver? && events[k].i == i &&
    events[k].flight in LanRun(n, events[..k]).wire && Offer(c, events[k].flight)
  }

  ghost predicate Reached(n: Lan, c: Config, i: nat, events: seq<LanEvent>) {
    exists k: nat :: HandedAt(n, c, i, events, k)
  }

  /** m is n after some contention. */
  ghost predicate Follows(n: Lan, t: nat, m: Lan) {
    LanInv(m) && Top(m, t) && SameRanks(n, m) && Masters(m) <= Masters(n)
  }

  lemma FollowsStep(n: Lan, t: nat, m: Lan, e: LanEvent)
    requires Follows(n, t, m) && Contends(e, t)
    ensures Follows(n, t, LanStep(m, e))
  {
    hide LanStep, LanInv, Top, SameRanks;
    LanInvKept(m, e);
    TopKept(m, LanStep(m, e), t);
    MastersNeverGrow(m, e);
    SameRanksTransitive(n, m, LanStep(m, e));
  }

  lemma SameRanksTransitive(a: Lan, b: Lan, c: Lan)
    requires SameRanks(a, b) && SameRanks(b, c)
    ensures SameRanks(a, c)
  {}

  lemma {:induction false} ContentionKeeps(n: Lan, t: nat, events: seq<LanEvent>)
    requires LanInv(n) && Top(n, t)
    requires forall e :: e in events ==> Contends(e, t)
    ensures Follows(n, t, LanRun(n, events))
  {
    hide LanStep, LanInv, Top, Contends;
    if events != [] {
      var before, e := events[..|events| - 1], events[|events| - 1];
      ContentionKeeps(n, t, before);
      FollowsStep(n, t, LanRun(n, before), e);
    }
  }

  /** Whoever has been handed an offer of the greatest router is no longer
      Master. */
  lemma {:induction false} ReachedIsNotMaster(n: Lan, t: nat, i: nat, events: seq<LanEvent>)
    requires LanInv(n) && Top(n, t) && i < |n.routers| && i != t
    requires forall e :: e in events ==> Contends(e, t)
    requires Reached(n, n.routers[t].config, i, events)
    ensures i !in Masters(LanRun(n, events))
  {
    hide LanStep, LanInv, Top, Contends, Offer, Masters;
    TopInRange(n, t);
    var c := n.routers[t].config;
    var k: nat :| HandedAt(n, c, i, events, k);
    var before, e := events[..|events| - 1], events[|events| - 1];
    var m := LanRun(n, before);
    ContentionKeeps(n, t, before);
    if k < |before| {
      assert events[..k] == before[..k];
      assert HandedAt(n, c, i, before, k);
      ReachedIsNotMaster(n, t, i, before);
      NoNewMaster(m, t, e, i);
    } else {
      HandedLast(n, t, i, m, e);
    }
  }

  lemma NoNewMaster(m: Lan, t: nat, e: LanEvent, i: nat)
    requires LanInv(m) && Contends(e, t) && i !in Masters(m)
    ensures i !in Masters(LanStep(m, e))
  {
    hide LanStep, LanInv;
    MastersNeverGrow(m, e);
  }

  lemma HandedLast(n: Lan, t: nat, i: nat, m: Lan, e: LanEvent)
    requires Follows(n, t, m) && t < |n.routers| && i < |n.routers| && i != t
    requires e.Deliver? && e.i == i && e.flight in m.wire && Offer(n.routers[t].config, e.flight)
    ensures i !in Masters(LanStep(m, e))
  {
    hide LanStep, LanInv, Offer;
    assert SameRank(n.routers[t].config, m.routers[t].config);
    OfferKept(n.routers[t].config, m.routers[t].config, e.flight);
    OfferIsHeeded(m, t, i, e.flight);
  }

  /** Contention resolves. Start with any number of Masters, the greatest router
      t among them, and let anything happen except that a router enters the
      election anew or t is shut down: the set of Masters never grows, and once
      an offer of t, old or new, has reached every other Master, t is the only
      one. */
  lemma ContentionResolves(n: Lan, t: nat, events: seq<LanEvent>)
    requires LanInv(n) && Top(n, t) && t in Masters(n)
    requires forall e :: e in events ==> Contends(e, t)
    requires forall i :: i in Masters(n) && i != t ==> Reached(n, n.routers[t].config, i, events)
    ensures Masters(LanRun(n, events)) == {t}
  {
    hide LanStep, LanInv, Top, Reached;
    var m := LanRun(n, events);
    ContentionKeeps(n, t, events);
    ElectionSafety(n, t, events);
    forall i | i in Masters(m) && i != t
      ensures false
    {
      assert i in Masters(n);
      ReachedIsNotMaster(n, t, i, events);
    }
    TopInRange(m, t);
  }

  lemma TopInRange(m: Lan, t: nat)
    requires Top(m, t)
    ensures t < |m.routers|
  {}

  /** The advertisement timer of a Master with a primary address puts an offer on
      the wire. */
  lemma TimerOffers(n: Lan, t: nat)
    requires LanInv(n) && t < |n.routers| && n.routers[t].state == Master
    requires Due(n.routers[t].adver, n.routers[t].now) && CanSend(n.routers[t].config)
    ensures exists f :: f in LanStep(n, At(t, AdvertisementTimer)).wire && Offer(n.routers[t].config, f)
  {
    hide Step, Offer;
    var r, e := n.routers[t], AdvertisementTimer;
    var item := AdvertOf(r.config, r.now, r.config.priority);
    assert Sound(r);
    StepLogsOwn(r, e);
    assert item in Emits(r, e);
    TransmittedIsOwn(r.config, item);
    assert FlightOf(r.config, item) in LanStep(n, At(t, e)).wire;
  }
}
