/** Where a router's virtual addresses are: on its output interface, in the ARP
    responder, or nowhere. The wanted placement is not kept by every operation;
    for each one the exact condition is stated. */
module AddressPlacement {
  import opened Addresses
  import opened RouterSpec
  import opened RouterSteps
  import opened RouterInvariants

  /** Outside Master nothing is placed. A Master that holds its addresses has
      exactly its subnets on the output interface; any other Master has exactly
      their addresses in the ARP responder of its interface. */
  function Wanted(s: State, c: Config): Placement {
    if s != Master then Placement({}, {})
    else if HoldsAddresses(c) then Placement(SubnetsOn(c.outputInterface, c.subnets), {})
    else Placement({}, EntriesOn(c.interface, c.subnets))
  }

  ghost predicate Placed(r: Router) {
    r.placed == Wanted(r.state, r.config)
  }

  /** The same place by place. */
  lemma PlacedExact(r: Router, i: int, s: IpSubnet, a: IpAddress)
    requires Placed(r)
    ensures (i, s) in r.placed.onInterface <==>
      r.state == Master && (r.config.accept || r.config.priority == 255) && i == r.config.outputInterface &&
      s in r.config.subnets
    ensures (i, a) in r.placed.inArp <==>
      r.state == Master && !r.config.accept && r.config.priority != 255 && i == r.config.interface &&
      exists t :: t in r.config.subnets && t.address == a
  {}

  /** m_addresses is the set of the addresses of m_subnets. */
  ghost predicate AddressesAgree(c: Config) {
    c.addresses == set s | s in c.subnets :: s.address
  }

  /** Another subnet has the same address, with another prefix length. */
  ghost predicate SharesAddress(c: Config, subnet: IpSubnet) {
    exists t :: t in c.subnets && t != subnet && t.address == subnet.address
  }

  ghost predicate UsesArp(r: Router) {
    r.state == Master && !HoldsAddresses(r.config)
  }

  /** When an operation leaves the wanted placement behind.
      - Adding an address while the ARP responder is in use goes wrong when the
        output interface is not the interface.
      - Removing one goes wrong when its entry is shared and is dropped, or is
        not shared and is looked up on the wrong interface.
      - Leaving accept mode goes wrong for a Master with priority 255, who goes on
        holding its addresses. */
  ghost predicate KeepsPlacement(r: Router, e: Event) {
    var c := r.config;
    match e
    case AddSubnet(s) => UsesArp(r) && s.address.family == c.family ==> c.outputInterface == c.interface
    case RemoveSubnet(s) =>
      UsesArp(r) ==>
        if c.outputInterface == c.interface then !SharesAddress(c, s)
        else s !in c.subnets || SharesAddress(c, s)
    case ChangeAccept(accept) =>
      !(r.state == Master && c.priority == 255 && c.accept && !accept &&
        c.family != AF_INET6 && c.vlanId == 0 && c.subnets != {})
    case _ => true
  }

  // ----------------------------------------------------------- set algebra

  lemma RemoveFromInterface(i: int, subnets: set<IpSubnet>, s: IpSubnet)
    ensures SubnetsOn(i, subnets - {s}) == SubnetsOn(i, subnets) - {(i, s)}
  {}

  lemma RemoveEntry(i: int, c: Config, s: IpSubnet)
    ensures EntriesOn(i, c.subnets - {s}) == EntriesOn(i, c.subnets) - {(i, s.address)} <==> !SharesAddress(c, s)
    ensures EntriesOn(i, c.subnets - {s}) == EntriesOn(i, c.subnets) <==> s !in c.subnets || SharesAddress(c, s)
  {}

  lemma NoSubnetsNoPlaces(i: int, subnets: set<IpSubnet>)
    ensures SubnetsOn(i, subnets) == {} <==> subnets == {}
  {
    if s :| s in subnets {
      assert (i, s) in SubnetsOn(i, subnets);
    }
  }

  // ------------------------------------------------------------- each operation

  lemma AddSubnetExact(r: Router, s: IpSubnet)
    requires Placed(r)
    ensures Placed(AddIpAddress(r, s)) <==> KeepsPlacement(r, AddSubnet(s))
  {}

  lemma RemoveSubnetExact(r: Router, s: IpSubnet)
    requires Placed(r)
    ensures Placed(RemoveIpAddress(r, s)) <==> KeepsPlacement(r, RemoveSubnet(s))
  {
    var c := r.config;
    RemoveFromInterface(c.outputInterface, c.subnets, s);
    RemoveEntry(c.interface, c, s);
    if UsesArp(r) && c.outputInterface != c.interface {
      var before := EntriesOn(c.interface, c.subnets);
      assert before - {(c.outputInterface, s.address)} == before;
    }
  }

  lemma ChangeAcceptExact(r: Router, accept: bool)
    requires Placed(r)
    ensures Placed(SetAccept(r, accept)) <==> KeepsPlacement(r, ChangeAccept(accept))
  {
    NoSubnetsNoPlaces(r.config.outputInterface, r.config.subnets);
  }

  lemma ChangePriorityKeeps(r: Router, priority: Byte)
    requires Placed(r)
    ensures Placed(SetPriority(r, priority))
  {}

  lemma StartStopPlaced(r: Router, e: Event)
    requires Placed(r) && StartsOrStops(e)
    ensures Placed(Step(r, e))
  {}

  lemma ProtocolPlaced(r: Router, e: Event)
    requires Placed(r) && !Configures(e) && !StartsOrStops(e)
    ensures Placed(Step(r, e))
  {}

  lemma ConfigurationExact(r: Router, e: Event)
    requires Placed(r) && Configures(e)
    ensures Placed(Step(r, e)) <==> KeepsPlacement(r, e)
  {
    match e
    case AddSubnet(s) => AddSubnetExact(r, s);
    case RemoveSubnet(s) => RemoveSubnetExact(r, s);
    case ChangeAccept(accept) => ChangeAcceptExact(r, accept);
    case ChangePriority(priority) => ChangePriorityKeeps(r, priority);
    case _ =>
  }

  /** One step from a good placement ends in a good placement exactly when the
      condition of its operation holds. */
  lemma PlacementExact(r: Router, e: Event)
    requires Placed(r)
    ensures Placed(Step(r, e)) <==> KeepsPlacement(r, e)
  {
    if Configures(e) {
      ConfigurationExact(r, e);
    } else if StartsOrStops(e) {
      StartStopPlaced(r, e);
    } else {
      ProtocolPlaced(r, e);
    }
  }

  /** The address set follows the subnet set except when one of two subnets with
      the same address is removed. */
  lemma AddressesAgreeExact(r: Router, e: Event)
    requires AddressesAgree(r.config)
    ensures AddressesAgree(Step(r, e).config) <==> !(e.RemoveSubnet? && SharesAddress(r.config, e.subnet))
  {}

  // ------------------------------------------- inputs that break the placement

  /** On an interface of its own for sending, as with a MACVLAN interface, a
      Master that uses the ARP responder adds an address in the wrong place. */
  lemma AddSubnetMisplaces(i: int, output: int, vrid: Byte, primary: IpAddress, s: IpSubnet)
    requires i != output && s.address.family == AF_INET
    ensures var r := Promoted(Created(Defaults(AF_INET, i, output, 0, vrid, primary), 0));
      Placed(r) && !Placed(Step(r, AddSubnet(s)))
  {
    hide Promoted;
    PromotedForm(Created(Defaults(AF_INET, i, output, 0, vrid, primary), 0));
  }

  /** There, it also leaves behind an address that it removes. */
  lemma RemoveSubnetLeavesEntry(i: int, output: int, vrid: Byte, primary: IpAddress, s: IpSubnet)
    requires i != output && s.address.family == AF_INET
    ensures var r := Promoted(Step(Created(Defaults(AF_INET, i, output, 0, vrid, primary), 0), AddSubnet(s)));
      Placed(r) && !Placed(Step(r, RemoveSubnet(s)))
  {
    hide Promoted;
    var r := Step(Created(Defaults(AF_INET, i, output, 0, vrid, primary), 0), AddSubnet(s));
    PromotedForm(r);
    assert s in r.config.subnets && !SharesAddress(r.config, s);
    RemoveSubnetExact(Promoted(r), s);
  }

  /** With two prefixes of one address, removing one takes the address away from
      the responder and from the advertisements. */
  lemma RemoveSubnetDropsShared(i: int, vrid: Byte, primary: IpAddress, s: IpSubnet, t: IpSubnet)
    requires s != t && s.address == t.address && s.address.family == AF_INET
    ensures var n := Created(Defaults(AF_INET, i, i, 0, vrid, primary), 0);
      var r := Promoted(Step(Step(n, AddSubnet(s)), AddSubnet(t)));
      Placed(r) && AddressesAgree(r.config) &&
      !Placed(Step(r, RemoveSubnet(s))) && !AddressesAgree(Step(r, RemoveSubnet(s)).config)
  {
    hide Promoted;
    var n := Created(Defaults(AF_INET, i, i, 0, vrid, primary), 0);
    var r := Step(Step(n, AddSubnet(s)), AddSubnet(t));
    PromotedForm(r);
    assert t in r.config.subnets && SharesAddress(r.config, s);
    RemoveSubnetExact(Promoted(r), s);
    AddressesAgreeExact(Promoted(r), RemoveSubnet(s));
  }

  /** An address owner that leaves accept mode as Master gives up the addresses
      it still holds itself responsible for. */
  lemma LeavingAcceptMisplaces(i: int, vrid: Byte, primary: IpAddress, s: IpSubnet)
    requires s.address.family == AF_INET
    ensures var n := Created(Defaults(AF_INET, i, i, 0, vrid, primary), 0);
      var r := Step(Run3(n, ChangeAccept(true), ChangePriority(255), AddSubnet(s)), EnableRouter(true));
      r.state == Master && Placed(r) && !Placed(Step(r, ChangeAccept(false)))
  {
    hide Run3, KeepsPlacement;
    var n := Created(Defaults(AF_INET, i, i, 0, vrid, primary), 0);
    var r := Run3(n, ChangeAccept(true), ChangePriority(255), AddSubnet(s));
    OwnerForm(n, s);
    OwnerStarts(r);
    ChangeAcceptExact(Step(r, EnableRouter(true)), false);
    OwnerLeavesAccept(Step(r, EnableRouter(true)), s);
  }

  lemma OwnerForm(n: Router, s: IpSubnet)
    requires n.state == Disabled && n.config.family == s.address.family == AF_INET && n.config.vlanId == 0
    ensures Run3(n, ChangeAccept(true), ChangePriority(255), AddSubnet(s)) == n.(config := n.config.(
      accept := true, priority := 255,
      subnets := n.config.subnets + {s}, addresses := n.config.addresses + {s.address}))
  {}

  lemma OwnerStarts(r: Router)
    requires r.state == Disabled && r.config.priority == 255 && r.placed == Placement({}, {})
    ensures var m := Step(r, EnableRouter(true));
      m.state == Master && m.config == r.config && Placed(m)
  {
    hide BecomeMaster;
    EntryForm(r, Preempted);
  }

  lemma OwnerLeavesAccept(r: Router, s: IpSubnet)
    requires r.state == Master && r.config.priority == 255 && r.config.accept && s in r.config.subnets
    requires r.config.family == AF_INET && r.config.vlanId == 0
    ensures !KeepsPlacement(r, ChangeAccept(false))
  {}

  // --------------------------------------------------------------------- runs

  ghost predicate RunKeepsPlacement(r: Router, events: seq<Event>) {
    events == [] ||
    var before := events[..|events| - 1];
    RunKeepsPlacement(r, before) && KeepsPlacement(Run(r, before), events[|events| - 1])
  }

  /** In every run whose operations meet their conditions the addresses are where
      they should be, and a router that is not Master has none placed. */
  lemma {:induction false} PlacedAlways(r: Router, events: seq<Event>)
    requires Placed(r) && RunKeepsPlacement(r, events)
    ensures Placed(Run(r, events))
    ensures Run(r, events).state != Master ==> Run(r, events).placed == Placement({}, {})
  {
    if events != [] {
      var before := events[..|events| - 1];
      PlacedAlways(r, before);
      PlacementExact(Run(r, before), events[|events| - 1]);
    }
  }
}
