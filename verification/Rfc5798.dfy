/** The state machine of sections 6.4.1 to 6.4.3 of RFC 5798, written from the
    standard, and the proof that a router of this implementation simulates it. */
module Rfc5798 {
  import opened Addresses
  import Codec = Advertisement
  import opened Sockets
  import opened Timers
  import opened RouterSpec
  import opened RouterSteps
  import opened RouterInvariants

  // ------------------------------------------------------------- the standard

  datatype Phase = Initialize | BackupPhase | MasterPhase

  datatype Output =
    | Advertisement(time: nat, priority: Byte, interval: nat, source: IpAddress, addresses: set<IpAddress>)
    | BroadcastArps(addresses: set<IpAddress>)
    | UnsolicitedNeighborAdvertisements(addresses: set<IpAddress>)

  /** The parameters of section 6.1 that the state machine refers to. */
  datatype Parameters = Parameters(priority: Byte, interval: nat, preempt: bool, primary: IpAddress, ipv4: bool,
                                   addresses: set<IpAddress>)

  /** A timer is its expiry time in milliseconds, when running. */
  datatype Machine = Machine(
    params: Parameters, phase: Phase,
    adverTimer: Option<nat>, masterDownTimer: Option<nat>, masterAdverInterval: nat,
    now: nat, sent: seq<Output>)

  datatype Input =
    | StartupEvent
    | ShutdownEvent
    | MasterDownTimerFires
    | AdverTimerFires
    | AdvertisementReceived(priority: Byte, interval: nat, sender: IpAddress)
    | TimePasses(msec: nat)
    | Reconfigured(params: Parameters)
    | Nothing

  /** Skew_Time and Master_Down_Interval of section 6.1, in centiseconds. */
  function SkewTimeOf(m: Machine): nat {
    ((256 - m.params.priority as int) * m.masterAdverInterval) / 256
  }

  function MasterDownIntervalOf(m: Machine): nat {
    3 * m.masterAdverInterval + SkewTimeOf(m)
  }

  function In(m: Machine, centiseconds: nat): Option<nat> {
    Some(m.now + 10 * centiseconds)
  }

  function Send(m: Machine, priority: Byte): Machine {
    var p := m.params;
    m.(sent := m.sent + [Advertisement(m.now, priority, p.interval, p.primary, p.addresses)])
  }

  /** Send an advertisement, announce the addresses, set Adver_Timer, become
      Master. */
  function ToMaster(m: Machine): Machine {
    var a := Send(m, m.params.priority);
    var announcement :=
      if a.params.ipv4 then BroadcastArps(a.params.addresses)
      else UnsolicitedNeighborAdvertisements(a.params.addresses);
    var b := a.(sent := a.sent + [announcement]);
    b.(adverTimer := In(b, b.params.interval), phase := MasterPhase)
  }

  function InInitialize(m: Machine, i: Input): Machine {
    match i
    case StartupEvent =>
      if m.params.priority == 255 then ToMaster(m)
      else
        var b := m.(masterAdverInterval := m.params.interval);
        b.(masterDownTimer := In(b, MasterDownIntervalOf(b)), phase := BackupPhase)
    case _ => m
  }

  function InBackup(m: Machine, i: Input): Machine {
    match i
    case ShutdownEvent => m.(masterDownTimer := None, phase := Initialize)
    case MasterDownTimerFires => ToMaster(m.(masterDownTimer := None))
    case AdvertisementReceived(priority, interval, sender) =>
      if priority == 0 then m.(masterDownTimer := In(m, SkewTimeOf(m)))
      else if !m.params.preempt || priority >= m.params.priority then
        var b := m.(masterAdverInterval := interval);
        b.(masterDownTimer := In(b, MasterDownIntervalOf(b)))
      else m
    case _ => m
  }

  function InMaster(m: Machine, i: Input): Machine {
    match i
    case ShutdownEvent => Send(m.(adverTimer := None), 0).(phase := Initialize)
    case AdverTimerFires =>
      var a := Send(m, m.params.priority);
      a.(adverTimer := In(a, a.params.interval))
    case AdvertisementReceived(priority, interval, sender) =>
      if priority == 0 then
        var a := Send(m, m.params.priority);
        a.(adverTimer := In(a, a.params.interval))
      else if priority > m.params.priority || (priority == m.params.priority && Greater(sender, m.params.primary)) then
        var b := m.(adverTimer := None, masterAdverInterval := interval);
        b.(masterDownTimer := In(b, MasterDownIntervalOf(b)), phase := BackupPhase)
      else m
    case _ => m
  }

  function Next(m: Machine, i: Input): Machine {
    match i
    case TimePasses(msec) => m.(now := m.now + msec)
    case Reconfigured(params) => m.(params := params)
    case _ =>
      match m.phase
      case Initialize => InInitialize(m, i)
      case BackupPhase => InBackup(m, i)
      case MasterPhase => InMaster(m, i)
  }

  // --------------------------------------------------------------- abstraction

  function PhaseOf(s: State): Phase {
    match s
    case Backup => BackupPhase
    case Master => MasterPhase
    case _ => Initialize
  }

  function ParametersOf(c: Config): Parameters {
    Parameters(c.priority, c.interval, c.preempt, c.primary, c.family == AF_INET, c.addresses)
  }

  /** What gets to the others: of an advertisement, the addresses that its
      datagram announces. */
  ghost function OutputOf(item: LogItem): seq<Output> {
    match item
    case Advert(time, priority, source, interval, addresses) =>
      [Advertisement(time, priority, interval, source, Codec.Carried(addresses))]
    case Unsent(_, _, _) => []
    case GratuitousArps(addresses) => [BroadcastArps(addresses)]
    case NeighborAdvertisements(addresses) => [UnsolicitedNeighborAdvertisements(addresses)]
    case Changed(_, _) => []
  }

  ghost function OutputsOf(log: seq<LogItem>): seq<Output> {
    if log == [] then [] else OutputsOf(log[..|log| - 1]) + OutputOf(log[|log| - 1])
  }

  /** What a router looks like when its outputs are given. */
  function MachineWith(r: Router, sent: seq<Output>): Machine {
    Machine(ParametersOf(r.config), PhaseOf(r.state), r.adver.deadline, r.masterDown.deadline, r.masterInterval,
            r.now, sent)
  }

  ghost function MachineOf(r: Router): Machine {
    MachineWith(r, OutputsOf(r.log))
  }

  /** The input that an event of the implementation is for the standard. */
  function InputOf(r: Router, e: Event): Input {
    match e
    case Elapse(msec) => TimePasses(msec)
    case MasterDownTimer => if Due(r.masterDown, r.now) then MasterDownTimerFires else Nothing
    case AdvertisementTimer => if Due(r.adver, r.now) then AdverTimerFires else Nothing
    case Receive(source, priority, interval, _) => AdvertisementReceived(priority, interval, source)
    case ReceiveError(_) => Nothing
    case Link(up) =>
      if up then (if r.state == LinkDown then StartupEvent else Nothing) else ShutdownEvent
    case EnableRouter(up) => if r.state == Disabled && up then StartupEvent else Nothing
    case DisableRouter => ShutdownEvent
    case _ => Reconfigured(ParametersOf(Step(r, e).config))
  }

  // ------------------------------------------------------------------- outputs

  /** The outputs of log items, had every advertisement been sent whole. */
  ghost function DueOf(c: Config, item: LogItem): seq<Output> {
    match item
    case Advert(time, priority, source, interval, addresses) =>
      [Advertisement(time, priority, interval, source, addresses)]
    case Unsent(time, priority, interval) => [Advertisement(time, priority, interval, c.primary, c.addresses)]
    case _ => OutputOf(item)
  }

  ghost function DueOutputs(c: Config, items: seq<LogItem>): seq<Output> {
    if items == [] then [] else DueOutputs(c, items[..|items| - 1]) + DueOf(c, items[|items| - 1])
  }

  lemma {:induction false} OutputsAppend(log: seq<LogItem>, items: seq<LogItem>)
    ensures OutputsOf(log + items) == OutputsOf(log) + OutputsOf(items)
  {
    hide OutputOf, OutputsOf;
    if items == [] {
      NoOutputs();
      assert log + items == log;
    } else {
      var before, last := items[..|items| - 1], items[|items| - 1];
      OutputsAppend(log, before);
      assert log + items == (log + before) + [last];
      OutputsLast(log + before, last);
      OutputsLast(before, last);
      assert items == before + [last];
    }
  }

  lemma NoOutputs()
    ensures OutputsOf([]) == []
  {}

  lemma OutputsLast(log: seq<LogItem>, item: LogItem)
    ensures OutputsOf(log + [item]) == OutputsOf(log) + OutputOf(item)
  {
    hide OutputOf;
  }

  /** Every advertisement among the items is sent, and announces all addresses. */
  ghost predicate AllWhole(c: Config, items: seq<LogItem>) {
    forall item :: item in items ==> OutputOf(item) == DueOf(c, item)
  }

  /** The outputs are those due exactly if every advertisement is whole, and as
      many as those due exactly if every one is sent. */
  lemma {:induction false} DueOutputsExact(c: Config, items: seq<LogItem>)
    ensures |OutputsOf(items)| <= |DueOutputs(c, items)|
    ensures |OutputsOf(items)| == |DueOutputs(c, items)| <==> AllSent(items)
    ensures OutputsOf(items) == DueOutputs(c, items) <==> AllWhole(c, items)
  {
    hide OutputOf, DueOf;
    if items != [] {
      var before, last := items[..|items| - 1], items[|items| - 1];
      DueOutputsExact(c, before);
      assert items == before + [last];
      assert AllSent(items) <==> AllSent(before) && !last.Unsent?;
      assert AllWhole(c, items) <==> AllWhole(c, before) && OutputOf(last) == DueOf(c, last);
      OneOutput(c, last);
      SameParts(OutputsOf(before), DueOutputs(c, before), OutputOf(last), DueOf(c, last));
    }
  }

  lemma SameParts<T>(a: seq<T>, b: seq<T>, c: seq<T>, d: seq<T>)
    requires |a| <= |b| && |c| <= |d|
    ensures a + c == b + d <==> a == b && c == d
  {
    if a + c == b + d {
      assert |a + c| == |b + d|;
      assert (a + c)[..|a|] == a && (b + d)[..|b|] == b;
      assert (a + c)[|a|..] == c && (b + d)[|b|..] == d;
    }
  }

  lemma OneOutput(c: Config, item: LogItem)
    ensures |OutputOf(item)| <= |DueOf(c, item)|
    ensures |OutputOf(item)| == |DueOf(c, item)| <==> !item.Unsent?
  {}

  /** A router whose advertisements are sent, and announce all its addresses. */
  predicate Announces(c: Config) {
    CanSend(c) && |c.addresses| <= 255
  }

  lemma AttemptWhole(c: Config, now: nat, priority: Byte)
    ensures OutputOf(AdvertOf(c, now, priority)) == DueOf(c, AdvertOf(c, now, priority)) <==> Announces(c)
  {
    hide CanSend;
    Codec.CarriedExact(c.addresses);
  }

  lemma EmitsWhole(r: Router, e: Event)
    ensures AllWhole(r.config, Emits(r, e)) <==> !(Advertises(r, e) && !Announces(r.config))
  {
    hide Emits, Advertises, Announces, OutputOf, DueOf;
    EmitsAttempt(r, e);
    forall item | item in Emits(r, e)
      ensures OutputOf(item) == DueOf(r.config, item) <==> !IsAttempt(item) || Announces(r.config)
    {
      if IsAttempt(item) {
        AttemptWhole(r.config, r.now, item.priority);
      } else {
        OtherWhole(r.config, item);
      }
    }
  }

  lemma OtherWhole(c: Config, item: LogItem)
    requires !IsAttempt(item)
    ensures OutputOf(item) == DueOf(c, item)
  {}

  lemma DueOne(c: Config, x: LogItem)
    ensures DueOutputs(c, []) == [] && DueOutputs(c, [x]) == DueOf(c, x)
  {
    hide DueOf;
    assert [x][..0] == [];
  }

  lemma DueTwo(c: Config, x: LogItem, y: LogItem)
    ensures DueOutputs(c, [x, y]) == DueOf(c, x) + DueOf(c, y)
  {
    hide DueOf;
    DueOne(c, x);
    assert [x, y][..1] == [x];
  }

  lemma DueThree(c: Config, x: LogItem, y: LogItem, z: LogItem)
    ensures DueOutputs(c, [x, y, z]) == DueOf(c, x) + DueOf(c, y) + DueOf(c, z)
  {
    hide DueOf;
    DueTwo(c, x, y);
    assert [x, y, z][..2] == [x, y];
  }

  lemma DueOfItems(c: Config, now: nat, priority: Byte, from: State, to: State)
    ensures DueOf(c, AdvertOf(c, now, priority))
         == [Advertisement(now, priority, c.interval, c.primary, c.addresses)]
    ensures DueOf(c, Changed(from, to)) == []
    ensures DueOf(c, AnnouncementOf(c)) ==
      [if c.family == AF_INET then BroadcastArps(c.addresses) else UnsolicitedNeighborAdvertisements(c.addresses)]
  {
    hide CanSend;
  }

  // ---------------------------------------------------------------- simulation

  // Each handler against the standard, for any outputs sent before.

  lemma EntrySimulates(r: Router, reason: Reason, sent: seq<Output>)
    requires Ranges(r) && r.state != Master
    ensures MachineWith(BecomeMaster(r, reason), sent + DueOutputs(r.config, EntryItems(r)))
         == ToMaster(MachineWith(r, sent))
  {
    hide BecomeMaster, DueOutputs, AdvertOf, AnnouncementOf, DueOf, Added, ConfigRanges;
    var c := r.config;
    EntryForm(r, reason);
    IntervalPositive(c);
    DueThree(c, Changed(r.state, Master), AdvertOf(c, r.now, c.priority), AnnouncementOf(c));
    DueOfItems(c, r.now, c.priority, r.state, Master);
    assert ToMaster(MachineWith(r, sent)).sent == sent + DueOutputs(c, EntryItems(r));
  }

  lemma ReadvertiseSimulates(r: Router, sent: seq<Output>)
    requires Ranges(r)
    ensures var p := r.config.priority;
      MachineWith(Readvertise(r), sent + DueOutputs(r.config, [AdvertOf(r.config, r.now, p)]))
        == Send(MachineWith(r, sent), p).(adverTimer := In(MachineWith(r, sent), r.config.interval))
  {
    hide Readvertise, DueOutputs, AdvertOf, DueOf, ConfigRanges;
    ReadvertiseForm(r);
    IntervalPositive(r.config);
    DueOne(r.config, AdvertOf(r.config, r.now, r.config.priority));
    DueOfItems(r.config, r.now, r.config.priority, Master, Master);
  }

  lemma StartupSimulates(r: Router, sent: seq<Output>)
    requires Sound(r) && Down(r.state)
    ensures MachineWith(Startup(r), sent + DueOutputs(r.config, StartItems(r)))
         == Next(MachineWith(r, sent), StartupEvent)
  {
    hide BecomeMaster, DueOutputs, DueOf, ConfigRanges, EntryItems, ToMaster;
    if r.config.priority == 255 {
      EntrySimulates(r, Preempted, sent);
    } else {
      ToBackupForm(r);
      IntervalPositive(r.config);
      SkewZero(r.config.priority, r.config.interval);
      DueOne(r.config, Changed(r.state, Backup));
      DueOfItems(r.config, r.now, 0, r.state, Backup);
      assert sent + [] == sent;
    }
  }

  lemma ShutdownSimulates(r: Router, s: State, sent: seq<Output>)
    requires Sound(r) && Down(s)
    ensures MachineWith(Shutdown(r, s), sent + DueOutputs(r.config, StopItems(r, s)))
         == Next(MachineWith(r, sent), ShutdownEvent)
  {
    hide DueOutputs, DueOf, AdvertOf, Ranges, Removed;
    DueOfItems(r.config, r.now, 0, r.state, s);
    if r.state == Master {
      ResignForm(r, s);
      DueTwo(r.config, AdvertOf(r.config, r.now, 0), Changed(Master, s));
    } else {
      DueOne(r.config, Changed(Backup, s));
      assert sent + [] == sent;
      if r.state == Backup {
        LeaveBackupForm(r, s);
      }
    }
  }

  lemma StartStopInputs(r: Router, e: Event)
    requires StartsOrStops(e)
    ensures match InputOf(r, e)
      case StartupEvent => Down(r.state) && Step(r, e) == Startup(r) && Emits(r, e) == StartItems(r)
      case ShutdownEvent =>
        var s := if e.Link? then LinkDown else Disabled;
        Step(r, e) == Shutdown(r, s) && Emits(r, e) == StopItems(r, s)
      case Nothing =>
        (Step(r, e) == r && Emits(r, e) == []) ||
        (r.state == Disabled && Step(r, e) == InState(r, LinkDown) && Emits(r, e) == [Changed(Disabled, LinkDown)])
      case _ => false
  {
    hide Startup, StartItems, InState;
  }

  lemma StartStopSimulates(r: Router, e: Event, sent: seq<Output>)
    requires Sound(r) && StartsOrStops(e)
    ensures MachineWith(Step(r, e), sent + DueOutputs(r.config, Emits(r, e)))
         == Next(MachineWith(r, sent), InputOf(r, e))
  {
    hide Step, Emits, InputOf, Startup, Shutdown, DueOutputs, DueOf, Sound, StartItems, StopItems;
    StartStopInputs(r, e);
    match InputOf(r, e)
    case StartupEvent => StartupSimulates(r, sent);
    case ShutdownEvent => ShutdownSimulates(r, if e.Link? then LinkDown else Disabled, sent);
    case Nothing =>
      DueOne(r.config, Changed(Disabled, LinkDown));
      DueOfItems(r.config, r.now, 0, Disabled, LinkDown);
      assert sent + [] == sent;
  }

  lemma TimerInputs(r: Router, e: Event)
    requires TimersAgree(r) && IsTimer(e)
    ensures match InputOf(r, e)
      case MasterDownTimerFires =>
        r.state == Backup && Step(r, e) == BecomeMaster(r.(masterDown := IDLE), r.pending) &&
        Emits(r, e) == EntryItems(r)
      case AdverTimerFires =>
        r.state == Master && Step(r, e) == Readvertise(r.(adver := IDLE)) &&
        Emits(r, e) == [AdvertOf(r.config, r.now, r.config.priority)]
      case Nothing => Step(r, e) == r && Emits(r, e) == []
      case _ => false
  {
    hide BecomeMaster, Readvertise, EntryItems, AdvertOf;
  }

  lemma TimerSimulates(r: Router, e: Event, sent: seq<Output>)
    requires Sound(r) && IsTimer(e)
    ensures MachineWith(Step(r, e), sent + DueOutputs(r.config, Emits(r, e)))
         == Next(MachineWith(r, sent), InputOf(r, e))
  {
    hide Step, Emits, InputOf, BecomeMaster, Readvertise, DueOutputs, DueOf, ConfigRanges, EntryItems, AdvertOf;
    hide ToMaster;
    TimerInputs(r, e);
    match InputOf(r, e)
    case MasterDownTimerFires =>
      EntrySimulates(r.(masterDown := IDLE), r.pending, sent);
      EntryItemsOf(r, IDLE);
      assert MachineWith(r.(masterDown := IDLE), sent) == MachineWith(r, sent).(masterDownTimer := None);
    case AdverTimerFires => ReadvertiseSimulates(r.(adver := IDLE), sent);
    case Nothing =>
      DueOne(r.config, Changed(Disabled, Disabled));
      assert sent + [] == sent;
  }

  lemma BackupSimulates(r: Router, e: Event, sent: seq<Output>)
    requires Sound(r) && r.state == Backup && e.Receive? && !ZeroDuration(r, e)
    ensures MachineWith(Step(r, e), sent) == Next(MachineWith(r, sent), InputOf(r, e))
  {
    hide Step, ConfigRanges, Received, Accepts, SkewTime, MasterDownInterval, SkewTimeOf, MasterDownIntervalOf;
    StandardTimes(MachineWith(r, sent), e.interval);
    var r' := Received(r, e.interval);
    ReceiveCases(r, e);
    SkewZero(r.config.priority, r.masterInterval);
    SkewZero(r.config.priority, e.interval);
    AcceptsIs(r', e.priority);
    AcceptsIs(r, e.priority);
  }

  /** The arithmetic is the same. */
  lemma StandardTimes(m: Machine, interval: nat)
    ensures SkewTimeOf(m) == SkewTime(m.params.priority, m.masterAdverInterval)
    ensures MasterDownIntervalOf(m.(masterAdverInterval := interval))
         == MasterDownInterval(m.params.priority, interval)
  {}

  lemma AcceptsIs(r: Router, priority: Byte)
    ensures Accepts(r, priority) <==> !r.config.preempt || priority >= r.config.priority
  {}

  lemma MasterSimulates(r: Router, e: Event, sent: seq<Output>)
    requires Sound(r) && r.state == Master && e.Receive? && !ZeroDuration(r, e)
    ensures MachineWith(Step(r, e), sent + DueOutputs(r.config, Emits(r, e)))
         == Next(MachineWith(r, sent), InputOf(r, e))
  {
    hide Step, Received, MasterReceives, Readvertise, InState, WaitForMaster, DueOutputs, DueOf, ConfigRanges;
    hide AdvertOf, Removed;
    var r' := Received(r, e.interval);
    ReceiveCases(r, e);
    MasterReceiveCases(r', e.source, e.priority, e.interval);
    ReadvertiseSimulates(r', sent);
    YieldForm(r', e.interval);
    SkewZero(r.config.priority, e.interval);
    DueOne(r.config, Changed(Master, Backup));
    DueOfItems(r.config, r.now, 0, Master, Backup);
    assert sent + [] == sent;
  }

  lemma ReceiveSimulates(r: Router, e: Event, sent: seq<Output>)
    requires Sound(r) && e.Receive? && !ZeroDuration(r, e)
    ensures MachineWith(Step(r, e), sent + DueOutputs(r.config, Emits(r, e)))
         == Next(MachineWith(r, sent), InputOf(r, e))
  {
    hide Received, DueOutputs, DueOf, Sound, ZeroDuration;
    DueOne(r.config, Changed(Disabled, Disabled));
    assert sent + [] == sent;
    if r.state == Backup {
      BackupSimulates(r, e, sent);
    } else if r.state == Master {
      MasterSimulates(r, e, sent);
    } else {
      ReceiveCases(r, e);
    }
  }

  lemma QuietSimulates(r: Router, e: Event, sent: seq<Output>)
    requires Quiet(e)
    ensures MachineWith(Step(r, e), sent) == Next(MachineWith(r, sent), InputOf(r, e))
  {
    hide MovedToInterface, MovedToArp, HoldsAddresses, ParametersOf;
  }

  /** Without a zero duration, a step is the standard's step, had every
      advertisement been sent whole. */
  lemma StepSimulates(r: Router, e: Event, sent: seq<Output>)
    requires Sound(r) && !ZeroDuration(r, e)
    ensures MachineWith(Step(r, e), sent + DueOutputs(r.config, Emits(r, e)))
         == Next(MachineWith(r, sent), InputOf(r, e))
  {
    hide Step, Emits, Next, MachineWith, InputOf, DueOf, Sound, ZeroDuration;
    if e.Receive? {
      ReceiveSimulates(r, e, sent);
    } else if StartsOrStops(e) {
      StartStopSimulates(r, e, sent);
    } else if IsTimer(e) {
      TimerSimulates(r, e, sent);
    } else {
      QuietSimulates(r, e, sent);
      QuietCases(r, e);
      assert sent + [] == sent;
    }
  }

  /** With a zero duration the standard sets Master_Down_Timer to expire at once,
      and the implementation never lets it expire. */
  lemma ZeroDurationDiverges(r: Router, e: Event)
    requires ZeroDuration(r, e)
    ensures Step(r, e).masterDown.deadline == None
    ensures Next(MachineOf(r), InputOf(r, e)).masterDownTimer == Some(r.now)
  {
    hide OutputsOf, Removed;
    SkewZero(r.config.priority, r.masterInterval);
    SkewZero(r.config.priority, e.interval);
  }

  /** Where the implementation leaves the standard: a master-down timer with
      duration zero, or an advertisement that is not sent, or not whole. */
  ghost predicate Diverges(r: Router, e: Event) {
    ZeroDuration(r, e) || (Advertises(r, e) && !Announces(r.config))
  }

  /** Without a zero duration a step is the standard's step as far as its outputs
      are: a mute step lacks its advertisement, and another one announces all
      addresses only up to 255. */
  lemma OutputsExact(r: Router, e: Event)
    requires Sound(r) && !ZeroDuration(r, e)
    ensures var m, n := MachineOf(Step(r, e)), Next(MachineOf(r), InputOf(r, e));
      && m == n.(sent := m.sent)
      && (|m.sent| == |n.sent| <==> !Mute(r, e))
      && (m.sent == n.sent <==> !(Advertises(r, e) && !Announces(r.config)))
  {
    hide Step, Emits, Next, InputOf, ZeroDuration, ConfigRanges, Mute, AllSent, AllWhole, DueOutputs, Advertises;
    var sent := OutputsOf(r.log);
    StepSimulates(r, e, sent);
    StepEmits(r, e);
    OutputsAppend(r.log, Emits(r, e));
    DueOutputsExact(r.config, Emits(r, e));
    EmitsAllSent(r, e);
    EmitsWhole(r, e);
    var x, y := OutputsOf(Emits(r, e)), DueOutputs(r.config, Emits(r, e));
    SameParts(sent, sent, x, y);
  }

  /** A step of the implementation is the step of the standard (or a stutter)
      exactly when it neither starts the master-down timer with duration zero nor
      fails to send an advertisement with all addresses. */
  lemma SimulationExact(r: Router, e: Event)
    requires Sound(r)
    ensures MachineOf(Step(r, e)) == Next(MachineOf(r), InputOf(r, e)) <==> !Diverges(r, e)
  {
    hide Step, Next, InputOf, ZeroDuration, Sound, Advertises, OutputsOf;
    if ZeroDuration(r, e) {
      ZeroDurationDiverges(r, e);
    } else {
      OutputsExact(r, e);
    }
  }

  // --------------------------------------------------------------------- runs

  function InputsOf(r: Router, events: seq<Event>): seq<Input> {
    if events == [] then []
    else
      var before := events[..|events| - 1];
      InputsOf(r, before) + [InputOf(Run(r, before), events[|events| - 1])]
  }

  function NextAll(m: Machine, inputs: seq<Input>): Machine {
    if inputs == [] then m else Next(NextAll(m, inputs[..|inputs| - 1]), inputs[|inputs| - 1])
  }

  lemma NextAllLast(m: Machine, inputs: seq<Input>, i: Input)
    ensures NextAll(m, inputs + [i]) == Next(NextAll(m, inputs), i)
  {
    hide Next;
  }

  ghost predicate NeverDiverges(r: Router, events: seq<Event>) {
    events == [] ||
    (NeverDiverges(r, events[..|events| - 1]) &&
     !Diverges(Run(r, events[..|events| - 1]), events[|events| - 1]))
  }

  /** Every run without divergence is a run of the standard: same phase, same
      timers, same Master_Adver_Interval, same outputs. */
  lemma {:induction false} RunsSimulate(r: Router, events: seq<Event>)
    requires Sound(r) && NeverDiverges(r, events)
    ensures Sound(Run(r, events))
    ensures MachineOf(Run(r, events)) == NextAll(MachineOf(r), InputsOf(r, events))
  {
    hide Step, Next, InputOf, Sound, Diverges, MachineOf;
    if events != [] {
      var before, e := events[..|events| - 1], events[|events| - 1];
      RunsSimulate(r, before);
      SoundKept(Run(r, before), e);
      SimulationExact(Run(r, before), e);
      NextAllLast(MachineOf(r), InputsOf(r, before), InputOf(Run(r, before), e));
    }
  }

  /** The number of addresses up to which advertisements are whole. */
  function WholeLimit(family: int): nat {
    if Capacity(family) < 255 then Capacity(family) else 255
  }

  /** For a router with a primary address and never more than 255 IPv4 or 127 IPv6
      addresses it is enough that no zero duration occurs. */
  lemma {:induction false} NeverZeroSuffices(r: Router, events: seq<Event>)
    requires Sound(r) && Audible(r.config, WholeLimit(r.config.family))
    requires NeverZero(r, events) && NeverOverfills(r, events, WholeLimit(r.config.family))
    ensures NeverDiverges(r, events)
  {
    hide Step, ZeroDuration, Sound, Announces, Audible, Overfills;
    if events != [] {
      var before := events[..|events| - 1];
      NeverZeroSuffices(r, before);
      AudibleAlways(r, before, WholeLimit(r.config.family));
      AudibleAnnounces(Run(r, before));
    }
  }

  lemma AudibleAnnounces(r: Router)
    requires Sound(r) && Audible(r.config, WholeLimit(r.config.family))
    ensures Announces(r.config)
  {}
}
