/** What every event keeps, and therefore what holds after every run of events. */
module RouterInvariants {
  import opened Addresses
  import opened Sockets
  import opened Timers
  import opened RouterSpec
  import opened RouterSteps

  lemma ConfigurationKept(r: Router, e: Event)
    requires Sound(r) && Configures(e)
    ensures ConfigRanges(Step(r, e).config)
  {
    hide MovedToInterface, MovedToArp, HoldsAddresses;
  }

  lemma QuietKept(r: Router, e: Event)
    requires Sound(r) && Quiet(e)
    ensures Sound(Step(r, e))
  {
    hide Step, ConfigRanges;
    QuietCases(r, e);
    if Configures(e) {
      ConfigurationKept(r, e);
    }
  }

  lemma EntryKept(r: Router, reason: Reason)
    requires Ranges(r) && r.state != Master && r.masterDown == IDLE
    ensures Sound(BecomeMaster(r, reason))
  {
    hide BecomeMaster, ConfigRanges, EntryItems, Added;
    EntryForm(r, reason);
    assert r.config.interval >= 1 by { IntervalPositive(r.config); }
  }

  lemma IntervalPositive(c: Config)
    requires ConfigRanges(c)
    ensures 1 <= c.interval <= 4095
  {}

  lemma ReadvertiseKept(r: Router)
    requires Ranges(r) && r.state == Master && r.masterDown == IDLE
    ensures Sound(Readvertise(r))
  {
    hide Readvertise, ConfigRanges;
    ReadvertiseForm(r);
    IntervalPositive(r.config);
  }

  lemma TimerKept(r: Router, e: Event)
    requires Sound(r) && IsTimer(e)
    ensures Sound(Step(r, e))
  {
    hide Step, BecomeMaster, Readvertise, ConfigRanges, Emits;
    TimerCases(r, e);
    if r.state == Backup {
      EntryKept(r.(masterDown := IDLE), r.pending);
    } else if r.state == Master {
      ReadvertiseKept(r.(adver := IDLE));
    }
  }

  lemma StartupKept(r: Router)
    requires Sound(r) && Down(r.state)
    ensures Sound(Startup(r))
  {
    hide BecomeMaster, ConfigRanges, MasterDownInterval;
    if r.config.priority == 255 {
      EntryKept(r, Preempted);
    } else {
      ToBackupForm(r);
      IntervalPositive(r.config);
    }
  }

  lemma ShutdownKept(r: Router, s: State)
    requires Sound(r) && Down(s)
    ensures Sound(Shutdown(r, s))
  {
    hide ConfigRanges, StopItems, Removed;
    if r.state == Master {
      ResignForm(r, s);
    } else if r.state == Backup {
      LeaveBackupForm(r, s);
    }
  }

  lemma StartStopKept(r: Router, e: Event)
    requires Sound(r) && StartsOrStops(e)
    ensures Sound(Step(r, e))
  {
    hide Step, Startup, Shutdown, ConfigRanges, Emits;
    StartStopCases(r, e);
    if Down(r.state) {
      StartupKept(r);
    }
    ShutdownKept(r, LinkDown);
    ShutdownKept(r, Disabled);
  }

  lemma ReceiveKept(r: Router, e: Event)
    requires Sound(r) && e.Receive?
    ensures Sound(Step(r, e))
  {
    hide Step, Received, BackupReceives, MasterReceives, Readvertise, InState, WaitForMaster, YieldsTo, ConfigRanges;
    hide MasterDownInterval, Removed;
    ReceiveCases(r, e);
    var r' := Received(r, e.interval);
    if r.state == Backup {
      BackupAbsorbs(r', e.source, e.priority, e.interval, e.addresses);
    } else if r.state == Master {
      MasterReceiveCases(r', e.source, e.priority, e.interval);
      ReadvertiseKept(r');
      YieldForm(r', e.interval);
    }
  }

  /** Every event keeps the ranges, and timers and state in agreement. */
  lemma SoundKept(r: Router, e: Event)
    requires Sound(r)
    ensures Sound(Step(r, e))
  {
    hide Step, Sound;
    if IsTimer(e) {
      TimerKept(r, e);
    } else if e.Receive? {
      ReceiveKept(r, e);
    } else if StartsOrStops(e) {
      StartStopKept(r, e);
    } else {
      QuietKept(r, e);
    }
  }

  // ------------------------------------------------------------------- traces

  /** Where a log leaves its router: settled in a state, just become Master and
      still owing the first advertisement, or Master and already resigned. */
  datatype Phase = In(state: State) | Entering | Resigned

  predicate IsAttempt(item: LogItem) {
    item.Advert? || item.Unsent?
  }

  /** The sentences a log is made of. An attempt to advertise is only possible as
      Master; the first one follows the change to Master at once; priority zero is
      followed at once by the change to Disabled or LinkDown, and there is no
      other way from Master to those states. */
  function PhaseStep(p: Phase, item: LogItem): Option<Phase> {
    match p
    case In(s) =>
      if item.Changed? then
        if item.from != s || item.from == item.to || (item.from == Master && item.to != Backup) then None
        else if item.to == Master then Some(Entering)
        else Some(In(item.to))
      else if s != Master then None
      else if IsAttempt(item) && item.priority == 0 then Some(Resigned)
      else Some(In(Master))
    case Entering => if IsAttempt(item) && item.priority != 0 then Some(In(Master)) else None
    case Resigned => if item.Changed? && item.from == Master && Down(item.to) then Some(In(item.to)) else None
  }

  /** What can be read off a log: its phase, how often Master was entered, how
      many attempts to advertise priority zero there were, how often Master was
      left by a shutdown, and when the last other attempt was made and with which
      interval. */
  datatype Reading = Reading(phase: Option<Phase>, entries: nat, zeros: nat, shutdowns: nat, last: Option<(nat, nat)>)

  function ReadItem(x: Reading, item: LogItem): Reading {
    var y := x.(phase := if x.phase.Some? then PhaseStep(x.phase.value, item) else None);
    if item.Changed? then
      if item.to == Master then y.(entries := y.entries + 1)
      else if item.from == Master && item.to != Backup then y.(shutdowns := y.shutdowns + 1)
      else y
    else if IsAttempt(item) then
      if item.priority == 0 then y.(zeros := y.zeros + 1) else y.(last := Some((item.time, item.interval)))
    else y
  }

  function Read(log: seq<LogItem>): Reading {
    if log == [] then Reading(Some(In(Disabled)), 0, 0, 0, None)
    else ReadItem(Read(log[..|log| - 1]), log[|log| - 1])
  }

  lemma ReadLast(log: seq<LogItem>, item: LogItem)
    ensures Read(log + [item]) == ReadItem(Read(log), item)
  {}

  lemma ReadTwo(log: seq<LogItem>, a: LogItem, b: LogItem)
    ensures Read(log + [a, b]) == ReadItem(ReadItem(Read(log), a), b)
  {
    hide Read, ReadItem;
    ReadLast(log, a);
    ReadLast(log + [a], b);
    assert (log + [a]) + [b] == log + [a, b];
  }

  lemma ReadThree(log: seq<LogItem>, a: LogItem, b: LogItem, c: LogItem)
    ensures Read(log + [a, b, c]) == ReadItem(ReadItem(ReadItem(Read(log), a), b), c)
  {
    hide Read, ReadItem;
    ReadTwo(log, a, b);
    ReadLast(log + [a, b], c);
    assert (log + [a, b]) + [c] == log + [a, b, c];
  }

  /** A reading of the log that ends in the current state; the statistics are
      the counts of the log; the next advertisement is due ten times the
      interval (in units of 10 ms) of the last attempt after it. */
  ghost predicate Agrees(r: Router, x: Reading) {
    && x.phase == Some(In(r.state))
    && x.entries == r.stats.masterTransitions
    && x.zeros == x.shutdowns == r.stats.sentPriZero
    && (r.state == Master ==> x.last.Some? && r.adver.deadline == Some(x.last.value.0 + 10 * x.last.value.1))
  }

  ghost predicate TraceAgrees(r: Router) {
    Agrees(r, Read(r.log))
  }

  lemma AttemptReads(c: Config, now: nat, priority: Byte)
    ensures var a := AdvertOf(c, now, priority);
      IsAttempt(a) && a.priority == priority && a.time == now && a.interval == c.interval
  {}

  lemma EntryTrace(r: Router, reason: Reason)
    requires Ranges(r) && TraceAgrees(r) && r.state != Master
    ensures TraceAgrees(BecomeMaster(r, reason))
  {
    hide BecomeMaster, AdvertOf, Read, Added, ConfigRanges;
    EntryForm(r, reason);
    IntervalPositive(r.config);
    PriorityPositive(r.config);
    AttemptReads(r.config, r.now, r.config.priority);
    ReadThree(r.log, Changed(r.state, Master), AdvertOf(r.config, r.now, r.config.priority), AnnouncementOf(r.config));
  }

  lemma PriorityPositive(c: Config)
    requires ConfigRanges(c)
    ensures c.priority != 0
  {}

  lemma ReadvertiseTrace(r: Router, t: TimerState)
    requires Ranges(r) && TraceAgrees(r) && r.state == Master
    ensures TraceAgrees(Readvertise(r.(adver := t)))
  {
    hide Readvertise, AdvertOf, Read, ConfigRanges;
    ReadvertiseForm(r.(adver := t));
    IntervalPositive(r.config);
    PriorityPositive(r.config);
    AttemptReads(r.config, r.now, r.config.priority);
    ReadLast(r.log, AdvertOf(r.config, r.now, r.config.priority));
  }

  lemma ResignTrace(r: Router, s: State)
    requires TraceAgrees(r) && r.state == Master && Down(s)
    ensures TraceAgrees(Shutdown(r, s))
  {
    hide Shutdown, AdvertOf, Read, Removed;
    ResignForm(r, s);
    AttemptReads(r.config, r.now, 0);
    ReadTwo(r.log, AdvertOf(r.config, r.now, 0), Changed(Master, s));
  }

  /** Any other change of state. */
  lemma ChangeTrace(r: Router, s: State, r': Router)
    requires TraceAgrees(r) && r.state != s && s != Master && (r.state == Master ==> s == Backup)
    requires r'.state == s && r'.log == r.log + [Changed(r.state, s)]
    requires r'.stats.masterTransitions == r.stats.masterTransitions && r'.stats.sentPriZero == r.stats.sentPriZero
    ensures TraceAgrees(r')
  {
    hide Read;
    ReadLast(r.log, Changed(r.state, s));
  }

  lemma StartupTrace(r: Router)
    requires Ranges(r) && TraceAgrees(r) && Down(r.state)
    ensures TraceAgrees(Startup(r))
  {
    hide TraceAgrees, BecomeMaster, ConfigRanges, MasterDownInterval;
    if r.config.priority == 255 {
      EntryTrace(r, Preempted);
    } else {
      ToBackupForm(r);
      ChangeTrace(r, Backup, Startup(r));
    }
  }

  lemma ShutdownTrace(r: Router, s: State)
    requires TraceAgrees(r) && Down(s)
    ensures TraceAgrees(Shutdown(r, s))
  {
    hide TraceAgrees, Removed;
    if r.state == Master {
      ResignTrace(r, s);
    } else if r.state == Backup {
      LeaveBackupForm(r, s);
      ChangeTrace(r, s, Shutdown(r, s));
    }
  }

  lemma StartStopTrace(r: Router, e: Event)
    requires Ranges(r) && TraceAgrees(r) && StartsOrStops(e)
    ensures TraceAgrees(Step(r, e))
  {
    hide Step, Emits, Startup, Shutdown, TraceAgrees, ConfigRanges;
    StartStopCases(r, e);
    if Down(r.state) {
      StartupTrace(r);
    }
    if r.state == Disabled {
      ChangeTrace(r, LinkDown, InState(r, LinkDown));
    }
    ShutdownTrace(r, LinkDown);
    ShutdownTrace(r, Disabled);
  }

  /** The trace only looks at these parts of a router. */
  lemma TraceFrame(r: Router, r': Router)
    requires TraceAgrees(r)
    requires r'.state == r.state && r'.log == r.log && r'.adver == r.adver
    requires r'.stats.masterTransitions == r.stats.masterTransitions && r'.stats.sentPriZero == r.stats.sentPriZero
    ensures TraceAgrees(r')
  {}

  lemma TimerTrace(r: Router, e: Event)
    requires Sound(r) && TraceAgrees(r) && IsTimer(e)
    ensures TraceAgrees(Step(r, e))
  {
    hide Step, BecomeMaster, Readvertise, ConfigRanges, Emits, TraceAgrees;
    TimerCases(r, e);
    if r.state == Backup {
      var r' := r.(masterDown := IDLE);
      TraceFrame(r, r');
      EntryTrace(r', r.pending);
    } else if r.state == Master {
      ReadvertiseTrace(r, IDLE);
    }
  }

  lemma ReceiveTrace(r: Router, e: Event)
    requires Ranges(r) && TraceAgrees(r) && e.Receive?
    ensures TraceAgrees(Step(r, e))
  {
    hide Step, Received, BackupReceives, MasterReceives, Readvertise, InState, WaitForMaster, YieldsTo, ConfigRanges;
    hide MasterDownInterval, Removed, TraceAgrees;
    ReceiveCases(r, e);
    var r' := Received(r, e.interval);
    TraceFrame(r, r');
    if r.state == Backup {
      BackupAbsorbs(r', e.source, e.priority, e.interval, e.addresses);
      TraceFrame(r', Step(r, e));
    } else if r.state == Master {
      MasterReceiveCases(r', e.source, e.priority, e.interval);
      if e.priority == 0 {
        ReadvertiseForm(r');
        ReadvertiseTrace(r', r'.adver);
        TraceFrame(Readvertise(r'), Step(r, e));
      } else if YieldsTo(r'.config.priority, r'.config.primary, e.priority, e.source) {
        YieldForm(r', e.interval);
        ChangeTrace(r', Backup, Step(r, e));
      }
    }
  }

  /** Every event keeps the trace in agreement with state, statistics and the
      advertisement timer. */
  lemma TraceAgreesKept(r: Router, e: Event)
    requires Sound(r) && TraceAgrees(r)
    ensures TraceAgrees(Step(r, e))
  {
    hide Step, TraceAgrees, Ranges, TimersAgree;
    if IsTimer(e) {
      TimerTrace(r, e);
    } else if e.Receive? {
      ReceiveTrace(r, e);
    } else if StartsOrStops(e) {
      StartStopTrace(r, e);
    } else {
      QuietCases(r, e);
      TraceFrame(r, Step(r, e));
    }
  }

  // --------------------------------------------------------------------- runs

  ghost predicate Inv(r: Router) {
    Sound(r) && TraceAgrees(r)
  }

  lemma InvKept(r: Router, e: Event)
    requires Inv(r)
    ensures Inv(Step(r, e))
  {
    SoundKept(r, e);
    TraceAgreesKept(r, e);
  }

  /** After any sequence of events from creation: priorities and intervals are in
      range, the timers match the state, and the trace matches state, statistics
      and advertisement deadline. */
  lemma {:induction false} InvAlways(r: Router, events: seq<Event>)
    requires Inv(r)
    ensures Inv(Run(r, events))
  {
    if events != [] {
      InvAlways(r, events[..|events| - 1]);
      InvKept(Run(r, events[..|events| - 1]), events[|events| - 1]);
    }
  }

  lemma CreatedInv(family: int, interface: int, outputInterface: int, vlanId: nat, vrid: Byte, primary: IpAddress,
                   now: nat, events: seq<Event>)
    requires primary.family == family || primary.family == AF_UNSPEC
    ensures Inv(Run(Created(Defaults(family, interface, outputInterface, vlanId, vrid, primary), now), events))
  {
    InvAlways(Created(Defaults(family, interface, outputInterface, vlanId, vrid, primary), now), events);
  }

  // -------------------------------------------------- unsent advertisements

  /** The events that make a router try to advertise. */
  predicate Advertises(r: Router, e: Event) {
    match e
    case MasterDownTimer => Due(r.masterDown, r.now) && r.state == Backup
    case AdvertisementTimer => Due(r.adver, r.now) && r.state == Master
    case Receive(_, priority, _, _) => r.state == Master && priority == 0
    case Link(up) => if up then r.state == LinkDown && r.config.priority == 255 else r.state == Master
    case EnableRouter(up) => r.state == Disabled && up && r.config.priority == 255
    case DisableRouter => r.state == Master
    case _ => false
  }

  /** An attempt that comes to nothing: the router has no primary address of its
      family, or more addresses than fit a packet. */
  predicate Mute(r: Router, e: Event) {
    Advertises(r, e) && !Audible(r.config, Capacity(r.config.family))
  }

  /** A primary address, and room for all addresses. */
  predicate Audible(c: Config, limit: nat) {
    c.primary.family == c.family && |c.addresses| <= limit
  }

  lemma CanSendIffAudible(c: Config)
    requires ConfigRanges(c)
    ensures CanSend(c) <==> Audible(c, Capacity(c.family))
  {}

  lemma EmitsAttempt(r: Router, e: Event)
    ensures Advertises(r, e) <==> exists item :: item in Emits(r, e) && IsAttempt(item)
    ensures forall item :: item in Emits(r, e) && IsAttempt(item) ==>
      item == AdvertOf(r.config, r.now, item.priority) && (item.Advert? <==> CanSend(r.config))
  {
    hide CanSend, YieldsTo;
    if Advertises(r, e) {
      var own := AdvertOf(r.config, r.now, r.config.priority);
      var zero := AdvertOf(r.config, r.now, 0);
      assert own in Emits(r, e) || zero in Emits(r, e);
    }
  }

  /** Every attempt so far was sent. */
  ghost predicate AllSent(log: seq<LogItem>) {
    forall item :: item in log ==> !item.Unsent?
  }

  lemma EmitsAllSent(r: Router, e: Event)
    requires ConfigRanges(r.config)
    ensures AllSent(Emits(r, e)) <==> !Mute(r, e)
  {
    hide Emits, Advertises, CanSend, Audible;
    EmitsAttempt(r, e);
    CanSendIffAudible(r.config);
  }

  /** A step leaves an advertisement unsent exactly when it is mute. */
  lemma AllSentExact(r: Router, e: Event)
    requires Sound(r) && AllSent(r.log)
    ensures AllSent(Step(r, e).log) <==> !Mute(r, e)
  {
    hide Step, Emits, Mute;
    StepEmits(r, e);
    EmitsAllSent(r, e);
  }

  /** An address too many is added. */
  predicate Overfills(r: Router, e: Event, limit: nat) {
    e.AddSubnet? && e.subnet.address.family == r.config.family && e.subnet.address !in r.config.addresses &&
    |r.config.addresses| >= limit
  }

  lemma SettingsAddresses(r: Router, e: Event)
    requires Configures(e)
    ensures var c, d := r.config, Step(r, e).config;
      && d.family == c.family && (c.primary.family == c.family ==> d.primary.family == d.family)
      && d.addresses == match e
           case AddSubnet(s) => if s.address.family == c.family then c.addresses + {s.address} else c.addresses
           case RemoveSubnet(s) => c.addresses - {s.address}
           case _ => c.addresses
  {
    hide MovedToInterface, MovedToArp, HoldsAddresses;
  }

  lemma GrowthExact<T>(s: set<T>, x: T, limit: nat)
    requires |s| <= limit
    ensures |s + {x}| <= limit <==> x in s || |s| < limit
    ensures |s - {x}| <= limit
  {
    if x in s {
      assert s + {x} == s;
    } else {
      assert s - {x} == s;
    }
  }

  lemma SettingsAudible(r: Router, e: Event, limit: nat)
    requires Audible(r.config, limit) && Configures(e)
    ensures Audible(Step(r, e).config, limit) <==> !Overfills(r, e, limit)
    ensures Step(r, e).config.family == r.config.family
  {
    hide Step;
    SettingsAddresses(r, e);
    if e.AddSubnet? || e.RemoveSubnet? {
      GrowthExact(r.config.addresses, e.subnet.address, limit);
    }
  }

  /** A router stops being audible exactly if an address too many is added. */
  lemma AudibleExact(r: Router, e: Event, limit: nat)
    requires Sound(r) && Audible(r.config, limit)
    ensures Audible(Step(r, e).config, limit) <==> !Overfills(r, e, limit)
    ensures Step(r, e).config.family == r.config.family
  {
    hide Step, Emits;
    StepEmits(r, e);
    if Configures(e) {
      SettingsAudible(r, e, limit);
    }
  }

  ghost predicate NeverOverfills(r: Router, events: seq<Event>, limit: nat) {
    events == [] ||
    (NeverOverfills(r, events[..|events| - 1], limit) &&
     !Overfills(Run(r, events[..|events| - 1]), events[|events| - 1], limit))
  }

  lemma {:induction false} AudibleAlways(r: Router, events: seq<Event>, limit: nat)
    requires Sound(r) && Audible(r.config, limit) && NeverOverfills(r, events, limit)
    ensures Sound(Run(r, events)) && Audible(Run(r, events).config, limit)
    ensures Run(r, events).config.family == r.config.family
  {
    hide Step, Audible, Sound, Overfills;
    if events != [] {
      var before, e := events[..|events| - 1], events[|events| - 1];
      AudibleAlways(r, before, limit);
      SoundKept(Run(r, before), e);
      AudibleExact(Run(r, before), e, limit);
    }
  }

  /** A router with a primary address, and never more addresses than there is
      room for, sends every advertisement it should, in every run. */
  lemma {:induction false} AllSentAlways(r: Router, events: seq<Event>)
    requires Sound(r) && CanSend(r.config) && AllSent(r.log)
    requires NeverOverfills(r, events, Capacity(r.config.family))
    ensures AllSent(Run(r, events).log)
  {
    hide Step, AllSent, CanSend, Audible;
    CanSendIffAudible(r.config);
    if events != [] {
      var before, e := events[..|events| - 1], events[|events| - 1];
      AllSentAlways(r, before);
      AudibleAlways(r, before, Capacity(r.config.family));
      AllSentExact(Run(r, before), e);
    }
  }

  /** Advertisements of priority zero that were really sent. */
  function SentZeros(log: seq<LogItem>): nat {
    if log == [] then 0
    else
      var last := log[|log| - 1];
      SentZeros(log[..|log| - 1]) + if last.Advert? && last.priority == 0 then 1 else 0
  }

  ghost predicate UnsentZero(log: seq<LogItem>) {
    exists item :: item in log && item.Unsent? && item.priority == 0
  }

  lemma {:induction false} ZerosExact(log: seq<LogItem>)
    ensures SentZeros(log) <= Read(log).zeros
    ensures SentZeros(log) == Read(log).zeros <==> !UnsentZero(log)
  {
    hide PhaseStep;
    if log != [] {
      var before, last := log[..|log| - 1], log[|log| - 1];
      ZerosExact(before);
      assert log == before + [last];
      assert UnsentZero(log) <==> UnsentZero(before) || (last.Unsent? && last.priority == 0);
    }
  }

  /** statsSentPriZeroPackets counts attempts: it is the number of packets sent
      exactly when none of them came to nothing. */
  lemma SentPriZeroExact(r: Router)
    requires Inv(r)
    ensures r.stats.sentPriZero == SentZeros(r.log) <==> !UnsentZero(r.log)
  {
    ZerosExact(r.log);
  }

  function Run3(r: Router, a: Event, b: Event, c: Event): Router {
    Step(Step(Step(r, a), b), c)
  }

  /** A router that is enabled, hears nothing, and becomes Master. */
  function Promoted(r: Router): Router {
    Run3(r, EnableRouter(true), Elapse(100000), MasterDownTimer)
  }

  lemma PromotedForm(r: Router)
    requires TimersAgree(r) && r.state == Disabled && r.config.priority == 100 && r.config.interval == 100
    ensures var p, now := Promoted(r), r.now + 100000;
      p.state == Master && p.config == r.config && p.now == now && p.placed == Added(r.placed, r.config) &&
      p.stats.sentPriZero == r.stats.sentPriZero && p.log == r.log +
        [Changed(Disabled, Backup), Changed(Backup, Master), AdvertOf(r.config, now, 100), AnnouncementOf(r.config)]
  {
    hide BecomeMaster, Added;
    var b := Step(Step(r, EnableRouter(true)), Elapse(100000));
    ToBackupForm(r);
    EntryForm(b.(masterDown := IDLE), b.pending);
  }

  /** A new service on an interface without an address becomes Master, and is
      never heard: not as Master, and not when it resigns, which is counted all
      the same. */
  lemma MasterCanBeMute(interface: int, vrid: Byte)
    ensures var c := Defaults(AF_INET, interface, interface, 0, vrid, IpAddress(AF_UNSPEC, []));
      var r := Promoted(Created(c, 0));
      r.state == Master && Disable(r).stats.sentPriZero == 1 && forall item :: item in Disable(r).log ==> !item.Advert?
  {
    hide Promoted;
    var c := Defaults(AF_INET, interface, interface, 0, vrid, IpAddress(AF_UNSPEC, []));
    PromotedForm(Created(c, 0));
    ResignForm(Promoted(Created(c, 0)), Disabled);
  }

  // ------------------------------------------------------------ zero durations

  /** An armed master-down timer will eventually expire. */
  ghost predicate DeadlinePending(r: Router) {
    r.masterDown.armed ==> r.masterDown.deadline.Some?
  }

  /** The events that start the master-down timer with duration zero: priority
      zero when the skew time truncates to zero, or an advertised interval of
      zero from a sender that is accepted or yielded to. */
  ghost predicate ZeroDuration(r: Router, e: Event) {
    e.Receive? &&
    match r.state
    case Backup =>
      if e.priority == 0 then (256 - r.config.priority as int) * r.masterInterval < 256
      else Accepts(r, e.priority) && e.interval == 0
    case Master =>
      e.priority != 0 && YieldsTo(r.config.priority, r.config.primary, e.priority, e.source) && e.interval == 0
    case _ => false
  }

  lemma SkewZero(priority: Byte, m: nat)
    ensures SkewTime(priority, m) == 0 <==> (256 - priority as int) * m < 256
    ensures MasterDownInterval(priority, m) == 0 <==> m == 0
  {}

  /** A pending deadline is lost exactly by a zero duration. */
  lemma DeadlinePendingExact(r: Router, e: Event)
    requires Inv(r) && DeadlinePending(r)
    ensures DeadlinePending(Step(r, e)) <==> !ZeroDuration(r, e)
  {
    hide TraceAgrees;
  }

  ghost predicate NeverZero(r: Router, events: seq<Event>) {
    events == [] ||
    (NeverZero(r, events[..|events| - 1]) &&
     !ZeroDuration(Run(r, events[..|events| - 1]), events[|events| - 1]))
  }

  /** In every run without zero durations an armed master-down timer has a
      deadline. */
  lemma {:induction false} DeadlinePendingAlways(r: Router, events: seq<Event>)
    requires Inv(r) && DeadlinePending(r) && NeverZero(r, events)
    ensures DeadlinePending(Run(r, events))
  {
    if events != [] {
      var before := events[..|events| - 1];
      DeadlinePendingAlways(r, before);
      InvAlways(r, before);
      DeadlinePendingExact(Run(r, before), events[|events| - 1]);
    }
  }

  predicate Waiting(e: Event) {
    e.Elapse? || e.MasterDownTimer? || e.AdvertisementTimer?
  }

  /** A Backup without a deadline waits for ever: no amount of time makes it
      Master. */
  lemma {:induction false} LostDeadlineIsStuck(r: Router, events: seq<Event>)
    requires TimersAgree(r) && r.state == Backup && r.masterDown.deadline == None
    requires forall e :: e in events ==> Waiting(e)
    ensures Run(r, events) == r.(now := Run(r, events).now)
  {
    if events != [] {
      LostDeadlineIsStuck(r, events[..|events| - 1]);
      assert Waiting(events[|events| - 1]);
    }
  }

  /** It happens with the default interval at priority 254: the master resigns
      and this backup never takes over. */
  lemma PriorityZeroCanStrand(r: Router, source: IpAddress, interval: Interval12, events: seq<Event>)
    requires Inv(r) && r.state == Disabled && r.config.interval == 100
    requires forall e :: e in events ==> Waiting(e)
    ensures var s := Run3(r, ChangePriority(254), EnableRouter(true), Receive(source, 0, interval, []));
      Run(s, events).state == Backup
  {
    var s := Run3(r, ChangePriority(254), EnableRouter(true), Receive(source, 0, interval, []));
    assert SkewTime(254, 100) == 0;
    LostDeadlineIsStuck(s, events);
  }

  // ------------------------------------------------------------------ disable

  /** disable() takes a router out of service except when its link is down, and
      then the next link-up starts it again. */
  lemma DisableExact(r: Router)
    requires Inv(r)
    ensures Disable(r).state == Disabled <==> r.state != LinkDown
    ensures r.state == LinkDown ==> LinkChanged(Disable(r), true).state in {Backup, Master}
  {}
}
