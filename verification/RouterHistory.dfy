/** What a router remembers, and what it has been told: every field that is
    assigned now and then is the value given by the last event that gives it one.
    The events that do are told from settings, state and event alone. */
module RouterHistory {
  import opened Addresses
  import opened Sockets
  import opened Timers
  import opened RouterSpec
  import opened RouterSteps
  import opened RouterInvariants

  /** The value given by the last event of a run that gives one. */
  function Latest<T>(r: Router, events: seq<Event>, first: T, gives: (Router, Event) -> Option<T>): T {
    if events == [] then first
    else
      var before := events[..|events| - 1];
      Given(gives(Run(r, before), events[|events| - 1]), Latest(r, before, first, gives))
  }

  function Given<T>(given: Option<T>, otherwise: T): T {
    match given
    case Some(value) => value
    case None => otherwise
  }

  // ----------------------------------------------------- what happens to a router

  /** As Backup, an advertisement of the right master. */
  predicate HearsMaster(r: Router, e: Event) {
    e.Receive? && r.state == Backup && e.priority != 0 && (!r.config.preempt || e.priority >= r.config.priority)
  }

  /** As Backup, an advertisement of a master that it should replace. */
  predicate HearsInferior(r: Router, e: Event) {
    e.Receive? && r.state == Backup && e.priority != 0 && r.config.preempt && e.priority < r.config.priority
  }

  predicate HearsResignation(r: Router, e: Event) {
    e.Receive? && (r.state == Backup || r.state == Master) && e.priority == 0
  }

  /** As Master, an advertisement of a greater router. */
  predicate HearsGreater(r: Router, e: Event) {
    e.Receive? && r.state == Master && e.priority != 0 &&
    (e.priority > r.config.priority || (e.priority == r.config.priority && Greater(e.source, r.config.primary)))
  }

  predicate TimesOut(r: Router, e: Event) {
    e.MasterDownTimer? && r.state == Backup && r.masterDown.armed &&
    r.masterDown.deadline.Some? && r.masterDown.deadline.value <= r.now
  }

  predicate Starts(r: Router, e: Event) {
    (e == EnableRouter(true) && r.state == Disabled) || (e == Link(true) && r.state == LinkDown)
  }

  // ------------------------------------------------------------------- memory

  /** Whom the router takes for the master. */
  function GivesMaster(r: Router, e: Event): Option<IpAddress> {
    if HearsMaster(r, e) then Some(e.source)
    else if TimesOut(r, e) || (Starts(r, e) && r.config.priority == 255) then Some(r.config.primary)
    else None
  }

  /** The reason it would give for becoming Master. */
  function GivesPending(r: Router, e: Event): Option<Reason> {
    if HearsResignation(r, e) || HearsGreater(r, e) then Some(Priority)
    else if HearsInferior(r, e) then Some(Preempted)
    else if HearsMaster(r, e) then Some(MasterNotResponding)
    else None
  }

  /** The reason on record for the last change of role. */
  function GivesReason(r: Router, e: Event): Option<Reason> {
    if TimesOut(r, e) then Some(r.pending)
    else if Starts(r, e) then Some(if r.config.priority == 255 then Preempted else NotMaster)
    else None
  }

  /** The last protocol error, cleared by every advertisement. */
  function GivesProtocolError(r: Router, e: Event): Option<Option<ErrorKind>> {
    match e
    case Receive(_, _, _, _) => Some(None)
    case ReceiveError(error) =>
      if error in {ChecksumError, VersionError, VrIdError, IpTtlError} then Some(Some(error)) else None
    case _ => None
  }

  ghost predicate Remembers(r: Router, e: Event) {
    var s := Step(r, e);
    && s.master == Given(GivesMaster(r, e), r.master)
    && s.pending == Given(GivesPending(r, e), r.pending)
    && s.stats.newMasterReason == Given(GivesReason(r, e), r.stats.newMasterReason)
    && s.stats.protocolError == Given(GivesProtocolError(r, e), r.stats.protocolError)
  }

  lemma ReceiveRemembers(r: Router, e: Event)
    requires e.Receive?
    ensures Remembers(r, e)
  {
    hide MasterDownInterval, SkewTime, Removed, AdvertOf;
  }

  lemma TimerRemembers(r: Router, e: Event)
    requires TimersAgree(r) && IsTimer(e)
    ensures Remembers(r, e)
  {
    hide BecomeMaster, Added, EntryItems, AdvertOf;
    if TimesOut(r, e) {
      EntryForm(r.(masterDown := IDLE), r.pending);
    }
  }

  lemma StartRemembers(r: Router)
    requires Down(r.state)
    ensures var s := Startup(r);
      && s.master == (if r.config.priority == 255 then r.config.primary else r.master) && s.pending == r.pending
      && s.stats.newMasterReason == (if r.config.priority == 255 then Preempted else NotMaster)
      && s.stats.protocolError == r.stats.protocolError
  {
    hide BecomeMaster, MasterDownInterval, EntryItems, Added;
    if r.config.priority == 255 {
      EntryForm(r, Preempted);
    } else {
      ToBackupForm(r);
    }
  }

  lemma StopRemembers(r: Router, s: State)
    requires Down(s)
    ensures var r' := Shutdown(r, s);
      && r'.master == r.master && r'.pending == r.pending
      && r'.stats.newMasterReason == r.stats.newMasterReason && r'.stats.protocolError == r.stats.protocolError
  {
    hide StopItems, Removed;
    if r.state == Master {
      ResignForm(r, s);
    } else if r.state == Backup {
      LeaveBackupForm(r, s);
    }
  }

  lemma StartStopRemembers(r: Router, e: Event)
    requires StartsOrStops(e)
    ensures Remembers(r, e)
  {
    hide Startup, Shutdown;
    if Down(r.state) {
      StartRemembers(r);
    }
    StopRemembers(r, LinkDown);
    StopRemembers(r, Disabled);
  }

  lemma QuietRemembers(r: Router, e: Event)
    requires Quiet(e)
    ensures Remembers(r, e)
  {
    hide MovedToInterface, MovedToArp, HoldsAddresses;
  }

  /** One step: these fields change by these events only. */
  lemma RemembersStep(r: Router, e: Event)
    requires Sound(r)
    ensures Remembers(r, e)
  {
    hide Remembers, Ranges;
    if e.Receive? {
      ReceiveRemembers(r, e);
    } else if IsTimer(e) {
      TimerRemembers(r, e);
    } else if StartsOrStops(e) {
      StartStopRemembers(r, e);
    } else {
      QuietRemembers(r, e);
    }
  }

  /** Over every run: the master is the source of the last advertisement accepted
      as Backup, or the own address since the last entry to Master; the pending
      reason is that of the last advertisement that gave one; the reason on record
      is that of the last start or timeout; the protocol error is the last one since
      the last advertisement. */
  lemma {:induction false} RemembersAlways(r: Router, events: seq<Event>)
    requires Sound(r)
    ensures Sound(Run(r, events))
    ensures var s := Run(r, events);
      && s.master == Latest(r, events, r.master, GivesMaster)
      && s.pending == Latest(r, events, r.pending, GivesPending)
      && s.stats.newMasterReason == Latest(r, events, r.stats.newMasterReason, GivesReason)
      && s.stats.protocolError == Latest(r, events, r.stats.protocolError, GivesProtocolError)
  {
    hide Step, Sound, GivesMaster, GivesPending, GivesReason, GivesProtocolError;
    if events != [] {
      var before, e := events[..|events| - 1], events[|events| - 1];
      RemembersAlways(r, before);
      SoundKept(Run(r, before), e);
      RemembersStep(Run(r, before), e);
    }
  }

  /** So a router that times out after a run records why: Priority after a
      resignation or after giving way, Preempted after an inferior master,
      MasterNotResponding after the right one or after none at all. */
  lemma TakeoverReason(r: Router, events: seq<Event>)
    requires Sound(r) && r.pending == MasterNotResponding && TimesOut(Run(r, events), MasterDownTimer)
    ensures var s := Run(r, events);
      var m := Step(s, MasterDownTimer);
      m.stats.newMasterReason == Latest(r, events, MasterNotResponding, GivesPending) && m.master == s.config.primary
  {
    hide Step, GivesPending;
    RemembersAlways(r, events);
    RemembersStep(Run(r, events), MasterDownTimer);
  }

  // ----------------------------------------------------------------- settings

  function GivesPriority(r: Router, e: Event): Option<Byte> {
    if e.ChangePriority? && e.priority != 0 then Some(e.priority) else None
  }

  function GivesInterval(r: Router, e: Event): Option<nat> {
    if e.ChangeInterval? && 1 <= e.newInterval <= 4095 then Some(e.newInterval) else None
  }

  function GivesPreempt(r: Router, e: Event): Option<bool> {
    if e.ChangePreempt? then Some(e.preempt) else None
  }

  /** Accept mode cannot be changed for IPv6 and VLANs. */
  function GivesAccept(r: Router, e: Event): Option<bool> {
    if e.ChangeAccept? && r.config.family != AF_INET6 && r.config.vlanId == 0 then Some(e.accept) else None
  }

  function GivesPrimary(r: Router, e: Event): Option<IpAddress> {
    if e.ChangePrimary? && e.address.family == r.config.family then Some(e.address) else None
  }

  /** Whether a subnet is one of the router's. */
  function GivesSubnet(s: IpSubnet): (Router, Event) -> Option<bool> {
    (r: Router, e: Event) =>
      if e.AddSubnet? && e.subnet == s && s.address.family == r.config.family then Some(true)
      else if e.RemoveSubnet? && e.subnet == s then Some(false)
      else None
  }

  /** Whether an address is one of the router's, whatever its prefix. */
  function GivesAddress(a: IpAddress): (Router, Event) -> Option<bool> {
    (r: Router, e: Event) =>
      if e.AddSubnet? && e.subnet.address == a && a.family == r.config.family then Some(true)
      else if e.RemoveSubnet? && e.subnet.address == a then Some(false)
      else None
  }

  predicate SameIdentity(a: Config, b: Config) {
    a.family == b.family && a.interface == b.interface && a.outputInterface == b.outputInterface &&
    a.vlanId == b.vlanId && a.vrid == b.vrid
  }

  ghost predicate Obeys(r: Router, e: Event) {
    var c, d := r.config, Step(r, e).config;
    && SameIdentity(c, d)
    && d.priority == Given(GivesPriority(r, e), c.priority)
    && d.interval == Given(GivesInterval(r, e), c.interval)
    && d.preempt == Given(GivesPreempt(r, e), c.preempt)
    && d.accept == Given(GivesAccept(r, e), c.accept)
    && d.primary == Given(GivesPrimary(r, e), c.primary)
    && (forall s :: s in d.subnets <==> Given(GivesSubnet(s)(r, e), s in c.subnets))
    && (forall a :: a in d.addresses <==> Given(GivesAddress(a)(r, e), a in c.addresses))
  }

  lemma SettersObey(r: Router, e: Event)
    requires Configures(e) && !e.AddSubnet? && !e.RemoveSubnet?
    ensures Obeys(r, e)
  {
    hide MovedToInterface, MovedToArp, HoldsAddresses;
  }

  lemma SubnetChangesObey(r: Router, e: Event)
    requires e.AddSubnet? || e.RemoveSubnet?
    ensures Obeys(r, e)
  {
    hide MovedToInterface, MovedToArp, HoldsAddresses;
  }

  lemma OthersObey(r: Router, e: Event)
    requires !Configures(e) && Step(r, e).config == r.config
    ensures Obeys(r, e)
  {
    hide Step;
  }

  /** One step: no event changes a setting that it does not name, and no refused
      value changes any. */
  lemma ObeysStep(r: Router, e: Event)
    requires Sound(r)
    ensures Obeys(r, e)
  {
    hide Obeys, Step, Emits, Ranges;
    if e.AddSubnet? || e.RemoveSubnet? {
      SubnetChangesObey(r, e);
    } else if Configures(e) {
      SettersObey(r, e);
    } else {
      StepEmits(r, e);
      OthersObey(r, e);
    }
  }

  /** Over every run the settings in force are those asked for last. */
  lemma {:induction false} ObeysAlways(r: Router, events: seq<Event>)
    requires Sound(r)
    ensures Sound(Run(r, events))
    ensures var c, d := r.config, Run(r, events).config;
      && SameIdentity(c, d)
      && d.priority == Latest(r, events, c.priority, GivesPriority)
      && d.interval == Latest(r, events, c.interval, GivesInterval)
      && d.preempt == Latest(r, events, c.preempt, GivesPreempt)
      && d.accept == Latest(r, events, c.accept, GivesAccept)
      && d.primary == Latest(r, events, c.primary, GivesPrimary)
  {
    hide Step, Sound, GivesPriority, GivesInterval, GivesPreempt, GivesAccept, GivesPrimary;
    if events != [] {
      var before, e := events[..|events| - 1], events[|events| - 1];
      ObeysAlways(r, before);
      SoundKept(Run(r, before), e);
      ObeysStep(Run(r, before), e);
    }
  }

  /** And so is every subnet and every address. */
  lemma {:induction false} SubnetsObey(r: Router, events: seq<Event>, s: IpSubnet)
    requires Sound(r)
    ensures s in Run(r, events).config.subnets <==> Latest(r, events, s in r.config.subnets, GivesSubnet(s))
    ensures s.address in Run(r, events).config.addresses
       <==> Latest(r, events, s.address in r.config.addresses, GivesAddress(s.address))
  {
    hide Step, Sound, GivesSubnet, GivesAddress;
    if events != [] {
      var before, e := events[..|events| - 1], events[|events| - 1];
      SubnetsObey(r, before, s);
      ObeysAlways(r, before);
      ObeysStep(Run(r, before), e);
    }
  }

  // -------------------------------------------------------------- a new service

  /** What a new service starts from. */
  lemma NewService(family: int, interface: int, outputInterface: int, vlanId: nat, vrid: Byte, primary: IpAddress,
                   now: nat)
    ensures var r := Created(Defaults(family, interface, outputInterface, vlanId, vrid, primary), now);
      var c, s := r.config, r.stats;
      && c.family == family && c.interface == interface && c.outputInterface == outputInterface
      && c.vlanId == vlanId && c.vrid == vrid && c.primary == primary
      && c.priority == 100 && c.interval == 100 && c.preempt
      && (c.accept <==> family == AF_INET6 || vlanId != 0)
      && c.subnets == {} && c.addresses == {}
      && r.state == Disabled && !r.masterDown.armed && !r.adver.armed && r.now == now && r.log == []
      && r.masterInterval == 100 && r.master.family == AF_UNSPEC && r.pending == MasterNotResponding
      && r.placed.onInterface == {} && r.placed.inArp == {}
      && s.newMasterReason == NotMaster && s.protocolError == None
      && s.masterTransitions == s.sentPriZero == s.rcvdAdvertisements == s.rcvdPriZero == 0
      && s.advIntervalErrors == s.invalidType == s.addressListErrors == s.packetLengthErrors == 0
  {}
}
