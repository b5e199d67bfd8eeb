/** One virtual router as a value: its configuration, protocol state and traces,
    and for every event handler of VrrpService the state it leaves behind. The
    class VrrpService is proved against these functions. */
module RouterSpec {
  import opened Addresses
  import opened Sockets
  import opened Timers

  datatype State = Disabled | LinkDown | Backup | Master

  datatype Reason = NotMaster | Priority | Preempted | MasterNotResponding

  /** What a router does to the outside world, in order. An advertisement that
      sendPacket refuses, or that does not fit its buffer, is unsent. For IPv6 the
      code leaves the neighbour advertisements to the kernel; the log says where. */
  datatype LogItem =
    | Changed(from: State, to: State)
    | Advert(time: nat, priority: Byte, source: IpAddress, interval: nat, addresses: set<IpAddress>)
    | Unsent(time: nat, priority: Byte, interval: nat)
    | GratuitousArps(addresses: set<IpAddress>)
    | NeighborAdvertisements(addresses: set<IpAddress>)

  datatype Stats = Stats(
    masterTransitions: nat, newMasterReason: Reason,
    rcvdAdvertisements: nat, advIntervalErrors: nat, protocolError: Option<ErrorKind>,
    rcvdPriZero: nat, sentPriZero: nat, invalidType: nat, addressListErrors: nat, packetLengthErrors: nat)

  datatype Config = Config(
    family: int, interface: int, outputInterface: int, vlanId: nat, vrid: Byte,
    priority: Byte, primary: IpAddress, interval: nat, preempt: bool, accept: bool,
    subnets: set<IpSubnet>, addresses: set<IpAddress>)

  /** Addresses configured on interfaces, and those answered for by the ARP
      responder. */
  datatype Placement = Placement(onInterface: set<(int, IpSubnet)>, inArp: set<(int, IpAddress)>)

  datatype Router = Router(
    config: Config,
    state: State, masterDown: TimerState, adver: TimerState, masterInterval: nat, master: IpAddress, pending: Reason,
    stats: Stats, now: nat, log: seq<LogItem>, placed: Placement)

  // --------------------------------------------------------------- arithmetic

  function SkewTime(priority: Byte, masterInterval: nat): nat {
    ((256 - priority as int) * masterInterval) / 256
  }

  function MasterDownInterval(priority: Byte, masterInterval: nat): nat {
    3 * masterInterval + SkewTime(priority, masterInterval)
  }

  // -------------------------------------------------------- address placement

  /** Whether a Master holds its addresses itself instead of answering ARP. */
  predicate HoldsAddresses(c: Config) {
    c.accept || c.priority == 255
  }

  function SubnetsOn(i: int, subnets: set<IpSubnet>): set<(int, IpSubnet)> {
    set s | s in subnets :: (i, s)
  }

  function EntriesOn(i: int, subnets: set<IpSubnet>): set<(int, IpAddress)> {
    set s | s in subnets :: (i, s.address)
  }

  function Added(p: Placement, c: Config): Placement {
    if HoldsAddresses(c) then p.(onInterface := p.onInterface + SubnetsOn(c.outputInterface, c.subnets))
    else p.(inArp := p.inArp + EntriesOn(c.interface, c.subnets))
  }

  function Removed(p: Placement, c: Config): Placement {
    if HoldsAddresses(c) then p.(onInterface := p.onInterface - SubnetsOn(c.outputInterface, c.subnets))
    else p.(inArp := p.inArp - EntriesOn(c.interface, c.subnets))
  }

  function MovedToInterface(p: Placement, c: Config): Placement {
    Placement(p.onInterface + SubnetsOn(c.outputInterface, c.subnets), p.inArp - EntriesOn(c.interface, c.subnets))
  }

  function MovedToArp(p: Placement, c: Config): Placement {
    Placement(p.onInterface - SubnetsOn(c.outputInterface, c.subnets), p.inArp + EntriesOn(c.interface, c.subnets))
  }

  // ---------------------------------------------------------------- protocol

  /** Whether sendPacket comes to send the packet: a router that found no primary
      address of its family sends nothing, and a list longer than the buffer
      destroys what lies behind it. */
  predicate CanSend(c: Config) {
    && c.primary.family == c.family
    && (forall a :: a in c.addresses ==> a.family == c.family)
    && |c.addresses| <= Capacity(c.family)
  }

  function AdvertOf(c: Config, now: nat, priority: Byte): LogItem {
    if CanSend(c) then Advert(now, priority, c.primary, c.interval, c.addresses)
    else Unsent(now, priority, c.interval)
  }

  function WithAdvert(r: Router, priority: Byte): Router {
    r.(log := r.log + [AdvertOf(r.config, r.now, priority)])
  }

  function InState(r: Router, s: State): Router {
    if r.state == s then r
    else
      var r' := r.(state := s, log := r.log + [Changed(r.state, s)]);
      if s == Master then WithAdvert(r'.(placed := Added(r.placed, r.config)), r.config.priority)
      else if r.state == Master then r'.(placed := Removed(r.placed, r.config))
      else r'
  }

  function AnnouncementOf(c: Config): LogItem {
    if c.family == AF_INET then GratuitousArps(c.addresses) else NeighborAdvertisements(c.addresses)
  }

  function WithAnnouncement(r: Router): Router {
    r.(log := r.log + [AnnouncementOf(r.config)])
  }

  /** Entry to Master, from startup or after the master-down timer. */
  function BecomeMaster(r: Router, reason: Reason): Router {
    var m := WithAnnouncement(InState(r, Master));
    m.(adver := Started(m.config.interval * 10, m.now),
       stats := m.stats.(masterTransitions := m.stats.masterTransitions + 1, newMasterReason := reason),
       master := m.config.primary)
  }

  function WaitForMaster(r: Router): Router {
    r.(masterDown := Started(MasterDownInterval(r.config.priority, r.masterInterval) * 10, r.now))
  }

  function Startup(r: Router): Router {
    if r.config.priority == 255 then BecomeMaster(r, Preempted)
    else
      var b := InState(WaitForMaster(r.(masterInterval := r.config.interval)), Backup);
      b.(stats := b.stats.(newMasterReason := NotMaster))
  }

  function Shutdown(r: Router, s: State): Router {
    if r.state == Backup then
      InState(r.(masterDown := Stopped(r.masterDown)), s)
    else if r.state == Master then
      var m := InState(WithAdvert(r.(adver := Stopped(r.adver)), 0), s);
      m.(stats := m.stats.(sentPriZero := m.stats.sentPriZero + 1))
    else r
  }

  /** Timer::callback stops the timer and calls the handler. */
  function MasterDownExpired(r: Router): Router {
    var r' := r.(masterDown := Stopped(r.masterDown));
    if r'.state == Backup then BecomeMaster(r', r'.pending) else r'
  }

  function Readvertise(r: Router): Router {
    var m := WithAdvert(r, r.config.priority);
    m.(adver := Started(m.config.interval * 10, m.now))
  }

  function AdvertisementExpired(r: Router): Router {
    var r' := r.(adver := Stopped(r.adver));
    if r'.state == Master then Readvertise(r') else r'
  }

  /** Whether a Master gives way to the sender of an advertisement. */
  predicate YieldsTo(priority: Byte, primary: IpAddress, theirPriority: Byte, theirAddress: IpAddress) {
    theirPriority > priority || (theirPriority == priority && Greater(theirAddress, primary))
  }

  /** Whether a Backup takes an advertisement as coming from the right master. */
  predicate Accepts(r: Router, priority: Byte) {
    !r.config.preempt || priority >= r.config.priority
  }

  function Received(r: Router, interval: nat): Router {
    r.(stats := r.stats.(rcvdAdvertisements := r.stats.rcvdAdvertisements + 1, protocolError := None,
       advIntervalErrors := r.stats.advIntervalErrors +
         if (if interval == 0 then 1 else 0) != r.config.interval then 1 else 0))
  }

  /** A Backup hears the right master. */
  function Acknowledged(r: Router, source: IpAddress, interval: nat, addresses: seq<IpAddress>): Router {
    var b := WaitForMaster(r.(masterInterval := interval));
    b.(master := source, pending := MasterNotResponding,
       stats := if multiset(addresses) <= multiset(r.config.addresses) then r.stats
                else r.stats.(addressListErrors := r.stats.addressListErrors + 1))
  }

  function BackupReceives(r: Router, source: IpAddress, priority: Byte, interval: nat,
                          addresses: seq<IpAddress>): Router {
    if priority == 0 then
      r.(masterDown := Started(SkewTime(r.config.priority, r.masterInterval) * 10, r.now),
         stats := r.stats.(rcvdPriZero := r.stats.rcvdPriZero + 1),
         pending := Priority)
    else if Accepts(r, priority) then Acknowledged(r, source, interval, addresses)
    else r.(pending := Preempted)
  }

  function MasterReceives(r: Router, source: IpAddress, priority: Byte, interval: nat): Router {
    if priority == 0 then
      var m := Readvertise(r);
      m.(stats := m.stats.(rcvdPriZero := m.stats.rcvdPriZero + 1), pending := Priority)
    else if YieldsTo(r.config.priority, r.config.primary, priority, source) then
      var b := WaitForMaster(r.(adver := Stopped(r.adver), masterInterval := interval));
      InState(b, Backup).(pending := Priority)
    else r
  }

  function IncomingPacket(r: Router, source: IpAddress, priority: Byte, interval: nat,
                          addresses: seq<IpAddress>): Router {
    var r' := Received(r, interval);
    if r'.state == Backup then BackupReceives(r', source, priority, interval, addresses)
    else if r'.state == Master then MasterReceives(r', source, priority, interval)
    else r'
  }

  function IncomingError(r: Router, error: ErrorKind): Router {
    match error
    case AdvIntervalError => r.(stats := r.stats.(advIntervalErrors := r.stats.advIntervalErrors + 1))
    case InvalidTypeError => r.(stats := r.stats.(invalidType := r.stats.invalidType + 1))
    case PacketLengthError => r.(stats := r.stats.(packetLengthErrors := r.stats.packetLengthErrors + 1))
    case _ => r.(stats := r.stats.(protocolError := Some(error)))
  }

  function LinkChanged(r: Router, up: bool): Router {
    if up then (if r.state == LinkDown then Startup(r) else r)
    else if r.state != Disabled then Shutdown(r, LinkDown)
    else r
  }

  function Enable(r: Router, up: bool): Router {
    if r.state != Disabled then r
    else if up then Startup(r)
    else InState(r, LinkDown)
  }

  function Disable(r: Router): Router {
    if r.state != Disabled then Shutdown(r, Disabled) else r
  }

  // ------------------------------------------------------------ configuration

  function SetPriority(r: Router, priority: Byte): Router {
    var c := r.config;
    if priority == 0 then r
    else
      var placed :=
        if r.state == Master && !c.accept then
          if c.priority != 255 && priority == 255 then MovedToInterface(r.placed, c)
          else if c.priority == 255 && priority != 255 then MovedToArp(r.placed, c)
          else r.placed
        else r.placed;
      r.(config := c.(priority := priority), placed := placed)
  }

  function SetInterval(r: Router, interval: nat): Router {
    if interval < 1 || interval > 4095 then r else r.(config := r.config.(interval := interval))
  }

  function SetPreempt(r: Router, preempt: bool): Router {
    r.(config := r.config.(preempt := preempt))
  }

  function SetAccept(r: Router, accept: bool): Router {
    var c := r.config;
    if c.accept == accept || c.family == AF_INET6 || c.vlanId != 0 then r
    else
      var placed :=
        if r.state == Master then
          if accept then MovedToInterface(r.placed, c) else MovedToArp(r.placed, c)
        else r.placed;
      r.(config := c.(accept := accept), placed := placed)
  }

  function SetPrimary(r: Router, address: IpAddress): Router {
    if address.family == r.config.family then r.(config := r.config.(primary := address)) else r
  }

  /** addFakeArp is called with the output interface here, unlike everywhere
      else. */
  function AddIpAddress(r: Router, subnet: IpSubnet): Router {
    var c, p := r.config, r.placed;
    if subnet.address.family != c.family then r
    else
      var placed :=
        if r.state != Master then p
        else if HoldsAddresses(c) then p.(onInterface := p.onInterface + {(c.outputInterface, subnet)})
        else p.(inArp := p.inArp + {(c.outputInterface, subnet.address)});
      r.(config := c.(subnets := c.subnets + {subnet}, addresses := c.addresses + {subnet.address}), placed := placed)
  }

  function RemoveIpAddress(r: Router, subnet: IpSubnet): Router {
    var c, p := r.config, r.placed;
    var placed :=
      if r.state != Master then p
      else if HoldsAddresses(c) then p.(onInterface := p.onInterface - {(c.outputInterface, subnet)})
      else p.(inArp := p.inArp - {(c.outputInterface, subnet.address)});
    r.(config := c.(subnets := c.subnets - {subnet}, addresses := c.addresses - {subnet.address}), placed := placed)
  }

  // --------------------------------------------------------------------- runs

  /** The interval of a received packet has 12 bits. */
  type Interval12 = n: int | 0 <= n < 4096

  datatype Event =
    | Elapse(msec: nat)
    | MasterDownTimer
    | AdvertisementTimer
    | Receive(source: IpAddress, priority: Byte, interval: Interval12, addresses: seq<IpAddress>)
    | ReceiveError(error: ErrorKind)
    | Link(up: bool)
    | EnableRouter(up: bool)
    | DisableRouter
    | ChangePriority(priority: Byte)
    | ChangeInterval(newInterval: nat)
    | ChangePreempt(preempt: bool)
    | ChangeAccept(accept: bool)
    | ChangePrimary(address: IpAddress)
    | AddSubnet(subnet: IpSubnet)
    | RemoveSubnet(subnet: IpSubnet)

  /** Timer events happen only when the timer is due; otherwise nothing does. */
  function Step(r: Router, e: Event): Router {
    match e
    case Elapse(msec) => r.(now := r.now + msec)
    case MasterDownTimer => if Due(r.masterDown, r.now) then MasterDownExpired(r) else r
    case AdvertisementTimer => if Due(r.adver, r.now) then AdvertisementExpired(r) else r
    case Receive(source, priority, interval, addresses) => IncomingPacket(r, source, priority, interval, addresses)
    case ReceiveError(error) => IncomingError(r, error)
    case Link(up) => LinkChanged(r, up)
    case EnableRouter(up) => Enable(r, up)
    case DisableRouter => Disable(r)
    case ChangePriority(priority) => SetPriority(r, priority)
    case ChangeInterval(interval) => SetInterval(r, interval)
    case ChangePreempt(preempt) => SetPreempt(r, preempt)
    case ChangeAccept(accept) => SetAccept(r, accept)
    case ChangePrimary(address) => SetPrimary(r, address)
    case AddSubnet(subnet) => AddIpAddress(r, subnet)
    case RemoveSubnet(subnet) => RemoveIpAddress(r, subnet)
  }

  function Run(r: Router, events: seq<Event>): Router {
    if events == [] then r
    else Step(Run(r, events[..|events| - 1]), events[|events| - 1])
  }

  /** The configuration of a new service. */
  function Defaults(family: int, interface: int, outputInterface: int, vlanId: nat, vrid: Byte,
                    primary: IpAddress): Config {
    Config(family, interface, outputInterface, vlanId, vrid,
           100, primary, 100, true, family == AF_INET6 || vlanId != 0, {}, {})
  }

  /** A service as the constructor leaves it. */
  function Created(c: Config, now: nat): Router {
    Router(c, Disabled, IDLE, IDLE, c.interval, IpAddress(AF_UNSPEC, []), MasterNotResponding,
           Stats(0, NotMaster, 0, 0, None, 0, 0, 0, 0, 0), now, [], Placement({}, {}))
  }
}
