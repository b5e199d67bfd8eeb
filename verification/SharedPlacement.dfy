/** Several routers on one host. Interfaces and the ARP responder belong to the
    host: what one router gives up is gone for all of them. */
module SharedPlacement {
  import opened Addresses
  import opened RouterSpec
  import opened RouterSteps
  import opened RouterInvariants
  import opened AddressPlacement
  import Registry

  // ------------------------------------------------------------- the ARP table

  /** The addresses that the table answers for. */
  function Answered(t: Registry.ArpTable): set<(int, IpAddress)> {
    set i, a | i in t && a in t[i] :: (i, a)
  }

  lemma AnsweredIs(t: Registry.ArpTable, i: int, address: IpAddress)
    ensures (i, address) in Answered(t) <==> address in Registry.Entries(t, i)
  {}

  lemma EntriesOfOperations(t: Registry.ArpTable, i: int, address: IpAddress, mac: Registry.Mac, j: int, a: IpAddress)
    ensures a in Registry.Entries(Registry.WithEntry(t, i, address, mac), j)
       <==> a in Registry.Entries(t, j) || (j, a) == (i, address)
    ensures a in Registry.Entries(Registry.WithoutEntry(t, i, address), j)
       <==> a in Registry.Entries(t, j) && (j, a) != (i, address)
  {}

  /** The operations on the table are those on the set of places. */
  lemma AnsweredExact(t: Registry.ArpTable, i: int, address: IpAddress, mac: Registry.Mac)
    ensures Answered(Registry.WithEntry(t, i, address, mac)) == Answered(t) + {(i, address)}
    ensures Answered(Registry.WithoutEntry(t, i, address)) == Answered(t) - {(i, address)}
  {
    hide Answered, Registry.WithEntry, Registry.WithoutEntry, Registry.Entries;
    var with, without := Registry.WithEntry(t, i, address, mac), Registry.WithoutEntry(t, i, address);
    forall x: (int, IpAddress)
      ensures x in Answered(with) <==> x in Answered(t) + {(i, address)}
      ensures x in Answered(without) <==> x in Answered(t) - {(i, address)}
    {
      AnsweredIs(t, x.0, x.1);
      AnsweredIs(with, x.0, x.1);
      AnsweredIs(without, x.0, x.1);
      EntriesOfOperations(t, i, address, mac, x.0, x.1);
    }
  }

  // ------------------------------------------------------------------ the host

  /** The routers and what is configured on the host; the placement of a router
      by itself has no meaning here. */
  datatype Host = Host(routers: seq<Router>, shared: Placement)

  /** A step of one router, working on the host's placement. */
  function HostStep(h: Host, i: nat, e: Event): (h': Host)
    requires i < |h.routers|
    ensures |h'.routers| == |h.routers|
  {
    var r := Step(h.routers[i].(placed := h.shared), e);
    Host(h.routers[i := r], r.placed)
  }

  function WantedBy(r: Router): Placement {
    Wanted(r.state, r.config)
  }

  function Join(p: Placement, q: Placement): Placement {
    Placement(p.onInterface + q.onInterface, p.inArp + q.inArp)
  }

  /** What all routers but one want; all of them for an index out of range. */
  function Others(routers: seq<Router>, i: nat): Placement {
    Placement(
      set j, x | 0 <= j < |routers| && j != i && x in WantedBy(routers[j]).onInterface :: x,
      set j, x | 0 <= j < |routers| && j != i && x in WantedBy(routers[j]).inArp :: x)
  }

  /** Exactly what the routers want is configured. */
  ghost predicate AllPlaced(h: Host) {
    h.shared == Others(h.routers, |h.routers|)
  }

  lemma Split(routers: seq<Router>, i: nat)
    requires i < |routers|
    ensures Others(routers, |routers|) == Join(Others(routers, i), WantedBy(routers[i]))
  {
    var all, others, own := Others(routers, |routers|), Others(routers, i), WantedBy(routers[i]);
    assert all.onInterface == others.onInterface + own.onInterface;
    assert all.inArp == others.inArp + own.inArp;
  }

  lemma OthersKept(routers: seq<Router>, i: nat, r: Router)
    requires i < |routers|
    ensures Others(routers[i := r], i) == Others(routers, i)
  {
    var a, b := Others(routers[i := r], i), Others(routers, i);
    assert forall j :: 0 <= j < |routers| && j != i ==> routers[i := r][j] == routers[j];
    assert a.onInterface == b.onInterface;
    assert a.inArp == b.inArp;
  }

  /** After a step the placement is right if it is what the others want together
      with what this router wants now. */
  lemma AfterStep(h: Host, i: nat, e: Event)
    requires i < |h.routers| && AllPlaced(h)
    ensures var r := h.routers[i];
      var o, own := Others(h.routers, i), Step(r.(placed := h.shared), e);
      h.shared == Join(o, WantedBy(r)) &&
      (AllPlaced(HostStep(h, i, e)) <==> own.placed == Join(o, WantedBy(own)))
  {
    hide Step, Others, WantedBy;
    var own := Step(h.routers[i].(placed := h.shared), e);
    Split(h.routers, i);
    OthersKept(h.routers, i, own);
    Split(h.routers[i := own], i);
  }

  // ---------------------------------------------------------- protocol events

  /** The events that make a Master give up. */
  predicate GivesUp(r: Router, e: Event) {
    r.state == Master &&
    match e
    case Link(up) => !up
    case DisableRouter => true
    case Receive(source, priority, _, _) =>
      priority != 0 && YieldsTo(r.config.priority, r.config.primary, priority, source)
    case _ => false
  }

  /** What a protocol event does to any placement. */
  ghost predicate PlacesSo(r: Router, p: Placement, e: Event) {
    var r' := Step(r.(placed := p), e);
    && r'.config == r.config
    && (GivesUp(r, e) ==> r'.state != Master && r'.placed == Removed(p, r.config))
    && (!GivesUp(r, e) && r.state != Master && r'.state == Master ==> r'.placed == Added(p, r.config))
    && (!GivesUp(r, e) && (r.state == Master || r'.state != Master) ==>
          r'.placed == p && (r.state == Master ==> r'.state == Master))
  }

  lemma StartStopPlaces(r: Router, p: Placement, e: Event)
    requires StartsOrStops(e)
    ensures PlacesSo(r, p, e)
  {
    hide BecomeMaster, Added, Removed, EntryItems, StopItems, AdvertOf, MasterDownInterval;
    var q := r.(placed := p);
    StartStopCases(q, e);
    if Down(r.state) {
      if r.config.priority == 255 {
        EntryForm(q, Preempted);
      } else {
        ToBackupForm(q);
      }
    } else if r.state == Master {
      ResignForm(q, LinkDown);
      ResignForm(q, Disabled);
    }
  }

  lemma TimerPlaces(r: Router, p: Placement, e: Event)
    requires IsTimer(e)
    ensures PlacesSo(r, p, e)
  {
    hide BecomeMaster, Added, EntryItems, AdvertOf;
    var q := r.(placed := p);
    if e.MasterDownTimer? && r.state == Backup {
      EntryForm(q.(masterDown := Timers.Stopped(q.masterDown)), q.pending);
    }
  }

  lemma ReceivePlaces(r: Router, p: Placement, e: Event)
    requires e.Receive?
    ensures PlacesSo(r, p, e)
  {
    hide Step, Received, BackupReceives, MasterReceives, Readvertise, InState, WaitForMaster, Removed, AdvertOf;
    hide MasterDownInterval, YieldsTo;
    var q := r.(placed := p);
    var q' := Received(q, e.interval);
    ReceiveCases(q, e);
    if r.state == Backup {
      BackupAbsorbs(q', e.source, e.priority, e.interval, e.addresses);
    } else if r.state == Master {
      MasterReceiveCases(q', e.source, e.priority, e.interval);
      ReadvertiseForm(q');
      YieldForm(q', e.interval);
    }
  }

  lemma ProtocolPlaces(r: Router, p: Placement, e: Event)
    requires !Configures(e)
    ensures PlacesSo(r, p, e)
  {
    hide Step, GivesUp, PlacesSo;
    if e.Receive? {
      ReceivePlaces(r, p, e);
    } else if StartsOrStops(e) {
      StartStopPlaces(r, p, e);
    } else if IsTimer(e) {
      TimerPlaces(r, p, e);
    } else {
      QuietPlaces(r, p, e);
    }
  }

  lemma QuietPlaces(r: Router, p: Placement, e: Event)
    requires e.Elapse? || e.ReceiveError?
    ensures PlacesSo(r, p, e)
  {}

  /** Another router wants one of the places that this Master has. */
  ghost predicate Contested(h: Host, i: nat)
    requires i < |h.routers|
  {
    var o, own := Others(h.routers, i), WantedBy(h.routers[i]);
    o.onInterface * own.onInterface != {} || o.inArp * own.inArp != {}
  }

  lemma RemovedFromJoin(o: Placement, s: State, c: Config)
    requires s == Master
    ensures Removed(Join(o, Wanted(s, c)), c)
         == Placement(o.onInterface - Wanted(s, c).onInterface, o.inArp - Wanted(s, c).inArp)
  {}

  lemma AddedToJoin(o: Placement, c: Config)
    ensures Added(o, c) == Join(o, Wanted(Master, c))
  {}

  lemma JoinNothing(o: Placement)
    ensures Join(o, Placement({}, {})) == o
  {}

  lemma MinusIsSame<T>(a: set<T>, b: set<T>)
    ensures a - b == a <==> a * b == {}
  {
    if x :| x in a * b {
      assert x in a && x !in a - b;
    } else {
      assert forall x :: x in a ==> x !in a * b;
    }
  }

  /** A protocol step keeps the host's placement exactly unless a Master gives up
      a place that another router wants too. */
  lemma SharedExact(h: Host, i: nat, e: Event)
    requires i < |h.routers| && AllPlaced(h) && !Configures(e)
    ensures AllPlaced(HostStep(h, i, e)) <==> !(GivesUp(h.routers[i], e) && Contested(h, i))
  {
    hide Step, Others, Added, Removed, GivesUp;
    var r, o := h.routers[i], Others(h.routers, i);
    var own := WantedBy(r);
    AfterStep(h, i, e);
    ProtocolPlaces(r, h.shared, e);
    JoinNothing(o);
    if GivesUp(r, e) {
      GivingUpIsMaster(r, e);
      RemovedFromJoin(o, r.state, r.config);
      MinusIsSame(o.onInterface, own.onInterface);
      MinusIsSame(o.inArp, own.inArp);
    } else {
      AddedToJoin(o, r.config);
    }
  }

  lemma GivingUpIsMaster(r: Router, e: Event)
    ensures GivesUp(r, e) ==> r.state == Master
  {}

  // ----------------------------------------------------------- configuration

  /** The change to a placement: what is taken away and what is added. */
  datatype Change = Change(gone: Placement, more: Placement)

  function Changed(p: Placement, d: Change): Placement {
    Placement((p.onInterface - d.gone.onInterface) + d.more.onInterface, (p.inArp - d.gone.inArp) + d.more.inArp)
  }

  const NOWHERE := Placement({}, {})

  /** What an operation does to any placement. */
  function ChangeBy(r: Router, e: Event): Change {
    var c := r.config;
    var onInterface, inArp :=
      Placement(SubnetsOn(c.outputInterface, c.subnets), {}), Placement({}, EntriesOn(c.interface, c.subnets));
    if r.state != Master then Change(NOWHERE, NOWHERE)
    else match e
      case ChangePriority(priority) =>
        if priority == 0 || c.accept || (c.priority == 255) == (priority == 255) then Change(NOWHERE, NOWHERE)
        else if priority == 255 then Change(inArp, onInterface)
        else Change(onInterface, inArp)
      case ChangeAccept(accept) =>
        if c.accept == accept || c.family == AF_INET6 || c.vlanId != 0 then Change(NOWHERE, NOWHERE)
        else if accept then Change(inArp, onInterface)
        else Change(onInterface, inArp)
      case AddSubnet(s) =>
        if s.address.family != c.family then Change(NOWHERE, NOWHERE)
        else if HoldsAddresses(c) then Change(NOWHERE, Placement({(c.outputInterface, s)}, {}))
        else Change(NOWHERE, Placement({}, {(c.outputInterface, s.address)}))
      case RemoveSubnet(s) =>
        if HoldsAddresses(c) then Change(Placement({(c.outputInterface, s)}, {}), NOWHERE)
        else Change(Placement({}, {(c.outputInterface, s.address)}), NOWHERE)
      case _ => Change(NOWHERE, NOWHERE)
  }

  lemma ChangeIs(r: Router, p: Placement, e: Event)
    requires Configures(e)
    ensures Step(r.(placed := p), e).placed == Changed(p, ChangeBy(r, e))
    ensures Step(r.(placed := p), e) == Step(r, e).(placed := Step(r.(placed := p), e).placed)
  {
    hide SubnetsOn, EntriesOn, HoldsAddresses;
  }

  /** When an operation keeps the host's placement, whatever the others want (o).
      - Adding an address while the ARP responder is in use adds the entry on the
        output interface: right if that is the interface, or if others want that
        entry and the right one is there already.
      - Removing an address takes a place away that nobody else may want. With the
        ARP responder on another interface, the entry on the right one must have
        to stay: the subnet is unknown, its address shared, or wanted by others.
      - A change of mode takes away the places of the old one. */
  ghost predicate KeepsHost(r: Router, o: Placement, e: Event) {
    var c, own := r.config, WantedBy(r);
    match e
    case AddSubnet(s) =>
      UsesArp(r) && s.address.family == c.family && c.outputInterface != c.interface ==>
        (c.outputInterface, s.address) in o.inArp &&
        ((c.interface, s.address) in o.inArp || (c.interface, s.address) in own.inArp)
    case RemoveSubnet(s) =>
      if r.state != Master then true
      else if HoldsAddresses(c) then (c.outputInterface, s) !in o.onInterface
      else
        (c.outputInterface, s.address) !in o.inArp &&
        if c.outputInterface == c.interface then !SharesAddress(c, s)
        else s !in c.subnets || SharesAddress(c, s) || (c.interface, s.address) in o.inArp
    case _ =>
      var gone := ChangeBy(r, e).gone;
      KeepsPlacement(r, e) && o.onInterface !! gone.onInterface && o.inArp !! gone.inArp
  }

  /** The placement is right after the operation. */
  ghost predicate RightAfter(r: Router, o: Placement, e: Event) {
    Changed(Join(o, WantedBy(r)), ChangeBy(r, e)) == Join(o, WantedBy(Step(r, e)))
  }

  lemma AddedSubnets(i: int, subnets: set<IpSubnet>, s: IpSubnet)
    ensures SubnetsOn(i, subnets + {s}) == SubnetsOn(i, subnets) + {(i, s)}
    ensures EntriesOn(i, subnets + {s}) == EntriesOn(i, subnets) + {(i, s.address)}
  {}

  lemma AddHolds(r: Router, o: Placement, s: IpSubnet)
    requires !(UsesArp(r) && s.address.family == r.config.family)
    ensures RightAfter(r, o, AddSubnet(s))
  {
    AddedSubnets(r.config.outputInterface, r.config.subnets, s);
  }

  lemma AddToOther(o: set<(int, IpAddress)>, own: set<(int, IpAddress)>, x: (int, IpAddress), y: (int, IpAddress))
    requires x == y || x !in own
    ensures (o + own) + {x} == o + (own + {y}) <==> x == y || (x in o && (y in o || y in own))
  {
    assert x in (o + own) + {x} && y in o + (own + {y});
  }

  lemma AddToArp(r: Router, o: Placement, s: IpSubnet)
    requires UsesArp(r) && s.address.family == r.config.family
    ensures RightAfter(r, o, AddSubnet(s)) <==> KeepsHost(r, o, AddSubnet(s))
  {
    var c := r.config;
    var x, y := (c.outputInterface, s.address), (c.interface, s.address);
    AddedSubnets(c.interface, c.subnets, s);
    AddToOther(o.inArp, EntriesOn(c.interface, c.subnets), x, y);
    assert (o.inArp + EntriesOn(c.interface, c.subnets)) - {} == o.inArp + EntriesOn(c.interface, c.subnets);
  }

  lemma RemoveFromOther<T>(o: set<T>, own: set<T>, x: T)
    ensures (o + own) - {x} == o + (own - {x}) <==> x !in o
  {
    assert x !in (o + own) - {x};
  }

  lemma RemoveHeld(r: Router, o: Placement, s: IpSubnet)
    requires r.state == Master && HoldsAddresses(r.config)
    ensures RightAfter(r, o, RemoveSubnet(s)) <==> KeepsHost(r, o, RemoveSubnet(s))
  {
    var c := r.config;
    RemoveFromInterface(c.outputInterface, c.subnets, s);
    RemoveFromOther(o.onInterface, SubnetsOn(c.outputInterface, c.subnets), (c.outputInterface, s));
    var before := o.onInterface + SubnetsOn(c.outputInterface, c.subnets);
    assert (before - {(c.outputInterface, s)}) + {} == before - {(c.outputInterface, s)};
  }

  /** The entries after removing a subnet: the one of its address goes unless it is
      shared. */
  lemma EntriesAfter(i: int, c: Config, s: IpSubnet)
    ensures EntriesOn(i, c.subnets - {s}) ==
      if SharesAddress(c, s) || s !in c.subnets then EntriesOn(i, c.subnets)
      else EntriesOn(i, c.subnets) - {(i, s.address)}
    ensures s in c.subnets || SharesAddress(c, s) <==> (i, s.address) in EntriesOn(i, c.subnets)
  {
    RemoveEntry(i, c, s);
  }

  lemma RemoveAnswered(r: Router, o: Placement, s: IpSubnet)
    requires UsesArp(r)
    ensures RightAfter(r, o, RemoveSubnet(s)) <==> KeepsHost(r, o, RemoveSubnet(s))
  {
    hide EntriesOn, SubnetsOn, SharesAddress;
    var c := r.config;
    var own, x, y := EntriesOn(c.interface, c.subnets), (c.outputInterface, s.address), (c.interface, s.address);
    EntriesAfter(c.interface, c, s);
    OwnEntries(c);
    var after := EntriesOn(c.interface, c.subnets - {s});
    assert ((o.inArp + own) - {x}) + {} == (o.inArp + own) - {x};
    assert x in o.inArp + own ==> x !in (o.inArp + own) - {x};
    if RightAfter(r, o, RemoveSubnet(s)) {
      assert (o.inArp + own) - {x} == o.inArp + after;
      assert y in (o.inArp + own) - {x} <==> y in o.inArp + after;
      assert x in (o.inArp + own) - {x} <==> x in o.inArp + after;
    } else {
      assert (o.inArp + own) - {x} != o.inArp + after;
    }
  }

  lemma OwnEntries(c: Config)
    ensures forall x :: x in EntriesOn(c.interface, c.subnets) ==> x.0 == c.interface
  {}

  lemma ModeExact(r: Router, o: Placement, e: Event)
    requires Configures(e) && !e.AddSubnet? && !e.RemoveSubnet?
    ensures RightAfter(r, o, e) <==> KeepsHost(r, o, e)
  {
    hide SubnetsOn, EntriesOn, MovedToInterface, MovedToArp, SharesAddress;
    NoSubnetsNoPlaces(r.config.outputInterface, r.config.subnets);
    NoSubnetsNoEntries(r.config.interface);
  }

  lemma NoSubnetsNoEntries(i: int)
    ensures EntriesOn(i, {}) == {}
  {}

  lemma RightAfterExact(r: Router, o: Placement, e: Event)
    requires Configures(e)
    ensures RightAfter(r, o, e) <==> KeepsHost(r, o, e)
  {
    hide RightAfter;
    if e.AddSubnet? {
      if UsesArp(r) && e.subnet.address.family == r.config.family {
        AddToArp(r, o, e.subnet);
      } else {
        AddHolds(r, o, e.subnet);
      }
    } else if e.RemoveSubnet? {
      if UsesArp(r) {
        RemoveAnswered(r, o, e.subnet);
      } else if r.state == Master {
        RemoveHeld(r, o, e.subnet);
      } else {
        RemoveAside(r, o, e.subnet);
      }
    } else {
      ModeExact(r, o, e);
    }
  }

  lemma RemoveAside(r: Router, o: Placement, s: IpSubnet)
    requires r.state != Master
    ensures RightAfter(r, o, RemoveSubnet(s))
  {}

  /** An operation keeps the host's placement exactly under its condition, which
      knows what the others want. */
  lemma OperationExact(h: Host, i: nat, e: Event)
    requires i < |h.routers| && AllPlaced(h) && Configures(e)
    ensures AllPlaced(HostStep(h, i, e)) <==> KeepsHost(h.routers[i], Others(h.routers, i), e)
  {
    hide Step, Others, Changed, ChangeBy, KeepsHost, WantedBy;
    AfterStep(h, i, e);
    ChangeIs(h.routers[i], h.shared, e);
    SameWanted(h.routers[i], h.shared, e);
    RightAfterExact(h.routers[i], Others(h.routers, i), e);
  }

  lemma SameWanted(r: Router, p: Placement, e: Event)
    requires Step(r.(placed := p), e) == Step(r, e).(placed := Step(r.(placed := p), e).placed)
    ensures WantedBy(Step(r.(placed := p), e)) == WantedBy(Step(r, e))
  {
    hide Step;
  }

  /** The subnets that an event may touch. */
  function Touched(r: Router, e: Event): set<IpSubnet> {
    if e.AddSubnet? || e.RemoveSubnet? then r.config.subnets + {e.subnet} else r.config.subnets
  }

  /** Nobody else wants any place that the event may touch. */
  ghost predicate Unshared(h: Host, i: nat, e: Event)
    requires i < |h.routers|
  {
    var r, o := h.routers[i], Others(h.routers, i);
    Apart(o, r.config, Touched(r, e))
  }

  ghost predicate Apart(o: Placement, c: Config, subnets: set<IpSubnet>) {
    && o.onInterface !! SubnetsOn(c.outputInterface, subnets)
    && o.inArp !! EntriesOn(c.interface, subnets)
    && o.inArp !! EntriesOn(c.outputInterface, subnets)
  }

  lemma ApartIsAlone(r: Router, o: Placement, e: Event)
    requires Configures(e) && Apart(o, r.config, Touched(r, e))
    ensures KeepsHost(r, o, e) <==> KeepsPlacement(r, e)
  {
    hide SharesAddress;
    if e.AddSubnet? || e.RemoveSubnet? {
      InRange(r.config, Touched(r, e), e.subnet);
    }
  }

  lemma InRange(c: Config, subnets: set<IpSubnet>, s: IpSubnet)
    requires s in subnets
    ensures (c.outputInterface, s) in SubnetsOn(c.outputInterface, subnets)
    ensures (c.outputInterface, s.address) in EntriesOn(c.outputInterface, subnets)
    ensures (c.interface, s.address) in EntriesOn(c.interface, subnets)
  {}

  /** Where nobody else wants the places it touches, an operation keeps the host's
      placement exactly under the condition it has for a router alone. */
  lemma UnsharedExact(h: Host, i: nat, e: Event)
    requires i < |h.routers| && AllPlaced(h) && Configures(e) && Unshared(h, i, e)
    ensures AllPlaced(HostStep(h, i, e)) <==> KeepsPlacement(h.routers[i], e)
  {
    hide HostStep, Others, KeepsHost, KeepsPlacement, AllPlaced;
    OperationExact(h, i, e);
    ApartIsAlone(h.routers[i], Others(h.routers, i), e);
  }

  // --------------------------------------------------------------------- runs

  /** An event of one of the routers. */
  datatype HostEvent = HostEvent(i: nat, event: Event)

  function HostRun(h: Host, events: seq<HostEvent>): (h': Host)
    ensures |h'.routers| == |h.routers|
  {
    if events == [] then h
    else
      var before, e := HostRun(h, events[..|events| - 1]), events[|events| - 1];
      if e.i < |h.routers| then HostStep(before, e.i, e.event) else before
  }

  ghost predicate Harmless(h: Host, e: HostEvent) {
    e.i < |h.routers| ==>
      if Configures(e.event) then KeepsHost(h.routers[e.i], Others(h.routers, e.i), e.event)
      else !(GivesUp(h.routers[e.i], e.event) && Contested(h, e.i))
  }

  ghost predicate AllHarmless(h: Host, events: seq<HostEvent>) {
    events == [] ||
    var before := events[..|events| - 1];
    AllHarmless(h, before) && Harmless(HostRun(h, before), events[|events| - 1])
  }

  /** Every event keeps the host's placement exactly if it is harmless. */
  lemma HarmlessExact(h: Host, e: HostEvent)
    requires AllPlaced(h) && e.i < |h.routers|
    ensures AllPlaced(HostStep(h, e.i, e.event)) <==> Harmless(h, e)
  {
    hide HostStep, AllPlaced, KeepsHost, GivesUp, Contested;
    if Configures(e.event) {
      OperationExact(h, e.i, e.event);
    } else {
      SharedExact(h, e.i, e.event);
    }
  }

  /** In every run of harmless events the host has exactly what its routers
      want. */
  lemma {:induction false} SharedAlways(h: Host, events: seq<HostEvent>)
    requires AllPlaced(h) && AllHarmless(h, events)
    ensures AllPlaced(HostRun(h, events))
  {
    hide HostStep, AllPlaced, Harmless;
    if events != [] {
      var before, e := events[..|events| - 1], events[|events| - 1];
      SharedAlways(h, before);
      if e.i < |h.routers| {
        HarmlessExact(HostRun(h, before), e);
      }
    }
  }

  // ------------------------------------------------------------------ two Masters

  /** Two Masters that answer for the same address on the same interface: when
      one of them gives up, the other has lost it as well. */
  lemma SharedAddressIsLost(h: Host, i: nat, j: nat, e: Event, a: IpAddress)
    requires i < |h.routers| && j < |h.routers| && i != j && AllPlaced(h)
    requires GivesUp(h.routers[i], e) && !Configures(e)
    requires var interface := h.routers[i].config.interface;
      (interface, a) in WantedBy(h.routers[i]).inArp && (interface, a) in WantedBy(h.routers[j]).inArp
    ensures var h', place := HostStep(h, i, e), (h.routers[i].config.interface, a);
      h'.routers[j] == h.routers[j] && place in WantedBy(h'.routers[j]).inArp && place !in h'.shared.inArp
  {
    hide Step, GivesUp;
    GivingUpIsMaster(h.routers[i], e);
    ProtocolPlaces(h.routers[i], h.shared, e);
  }

  /** Promotion on a host, as three steps of one router. */
  function Promote(h: Host, i: nat): (h': Host)
    requires i < |h.routers|
    ensures |h'.routers| == |h.routers|
  {
    HostStep(HostStep(HostStep(h, i, EnableRouter(true)), i, Elapse(100000)), i, MasterDownTimer)
  }

  lemma PromoteForm(h: Host, i: nat)
    requires i < |h.routers|
    ensures var r := Promoted(h.routers[i].(placed := h.shared)); Promote(h, i) == Host(h.routers[i := r], r.placed)
  {
    hide Step;
    var a := Step(h.routers[i].(placed := h.shared), EnableRouter(true));
    var b := Step(a, Elapse(100000));
    assert a.(placed := a.placed) == a && b.(placed := b.placed) == b;
  }

  /** A new service with one address, sending on the interface it listens on. */
  function Newcomer(i: int, vrid: Byte, primary: IpAddress, s: IpSubnet): Router {
    Step(Created(Defaults(AF_INET, i, i, 0, vrid, primary), 0), AddSubnet(s))
  }

  lemma NewcomerPromoted(i: int, vrid: Byte, primary: IpAddress, s: IpSubnet, p: Placement)
    requires s.address.family == AF_INET
    ensures var r := Promoted(Newcomer(i, vrid, primary, s).(placed := p));
      UsesArp(r) && r.config.interface == r.config.outputInterface == i && r.config.subnets == {s} &&
      r.config.family == AF_INET && r.config.vlanId == 0 &&
      r.placed == Join(p, WantedBy(r)) && WantedBy(r) == Placement({}, {(i, s.address)})
  {
    hide Promoted;
    var r := Newcomer(i, vrid, primary, s);
    PromotedForm(r.(placed := p));
    assert r.config.subnets == {s};
  }

  /** What one of two such Masters can do to the other. */
  predicate TakesAway(e: Event, s: IpSubnet) {
    e == DisableRouter || e == ChangeAccept(true) || e == ChangePriority(255) || e == RemoveSubnet(s)
  }

  lemma EntryIsLost(h: Host, e: Event, s: IpSubnet)
    requires |h.routers| == 2 && TakesAway(e, s)
    requires var c := h.routers[0].config;
      UsesArp(h.routers[0]) && s in c.subnets && c.outputInterface == c.interface &&
      c.family == AF_INET && c.vlanId == 0
    ensures (h.routers[0].config.interface, s.address) !in HostStep(h, 0, e).shared.inArp
  {
    hide Step;
    if Configures(e) {
      ChangeIs(h.routers[0], h.shared, e);
    } else {
      ProtocolPlaces(h.routers[0], h.shared, e);
    }
  }

  /** It happens: two new services of one host with the same address become
      Master, the first is disabled, takes up accept mode, becomes the owner or
      loses the address, and the second answers no more. */
  lemma TwoMastersShare(i: int, u: Byte, v: Byte, primary: IpAddress, s: IpSubnet, e: Event)
    requires s.address.family == AF_INET && TakesAway(e, s)
    ensures var h := Promote(Promote(Host([Newcomer(i, u, primary, s), Newcomer(i, v, primary, s)], NOWHERE), 0), 1);
      var h' := HostStep(h, 0, e);
      AllPlaced(h) && h'.routers[1].state == Master && !AllPlaced(h') && (i, s.address) !in h'.shared.inArp
  {
    hide Promoted, Promote, Others, Newcomer, Step;
    var a, b := Newcomer(i, u, primary, s), Newcomer(i, v, primary, s);
    var h0 := Host([a, b], NOWHERE);
    PromoteForm(h0, 0);
    NewcomerPromoted(i, u, primary, s, NOWHERE);
    var h1 := Promote(h0, 0);
    PromoteForm(h1, 1);
    NewcomerPromoted(i, v, primary, s, h1.shared);
    var h := Promote(h1, 1);
    TwoWant(h);
    EntryIsLost(h, e, s);
    LostIsMissed(HostStep(h, 0, e), 1, (i, s.address));
  }

  lemma TwoWant(h: Host)
    requires |h.routers| == 2 && h.shared == Join(WantedBy(h.routers[0]), WantedBy(h.routers[1]))
    ensures AllPlaced(h)
  {
    var all := Others(h.routers, 2);
    assert all.onInterface == h.shared.onInterface;
    assert all.inArp == h.shared.inArp;
  }

  lemma LostIsMissed(h: Host, j: nat, place: (int, IpAddress))
    requires j < |h.routers| && place in WantedBy(h.routers[j]).inArp && place !in h.shared.inArp
    ensures !AllPlaced(h)
  {
    assert place in Others(h.routers, |h.routers|).inArp;
  }
}
