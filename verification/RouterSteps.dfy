/** The steps of a router: which handler an event runs, each handler in closed
    form, and what it logs. */
module RouterSteps {
  import opened Addresses
  import opened Timers
  import opened RouterSpec

  // ------------------------------------------------------- the kinds of events

  predicate Configures(e: Event) {
    e.ChangePriority? || e.ChangeInterval? || e.ChangePreempt? || e.ChangeAccept? || e.ChangePrimary? ||
    e.AddSubnet? || e.RemoveSubnet?
  }

  predicate StartsOrStops(e: Event) {
    e.Link? || e.EnableRouter? || e.DisableRouter?
  }

  predicate IsTimer(e: Event) {
    e.MasterDownTimer? || e.AdvertisementTimer?
  }

  /** Events that have no part in the protocol. */
  predicate Quiet(e: Event) {
    Configures(e) || e.Elapse? || e.ReceiveError?
  }

  predicate Down(s: State) {
    s == Disabled || s == LinkDown
  }

  // -------------------------------------------------------- ranges and timers

  ghost predicate ConfigRanges(c: Config) {
    && c.priority >= 1
    && 1 <= c.interval <= 4095
    && (forall s :: s in c.subnets ==> s.address.family == c.family)
    && (forall a :: a in c.addresses ==> a.family == c.family)
    && (c.primary.family == c.family || c.primary.family == AF_UNSPEC)
    && (c.family == AF_INET6 || c.vlanId != 0 ==> c.accept)
  }

  ghost predicate Ranges(r: Router) {
    ConfigRanges(r.config) && r.masterInterval <= 4095
  }

  /** Backup has only the master-down timer armed, Master only the advertisement
      timer, and that one always has a deadline; otherwise neither is armed. */
  ghost predicate TimersAgree(r: Router) {
    match r.state
    case Backup => r.masterDown.armed && r.adver == IDLE
    case Master => r.adver.armed && r.adver.deadline.Some? && r.masterDown == IDLE
    case _ => r.masterDown == IDLE && r.adver == IDLE
  }

  ghost predicate Sound(r: Router) {
    Ranges(r) && TimersAgree(r)
  }

  // ----------------------------------------------------------- what steps log

  function EntryItems(r: Router): seq<LogItem> {
    [Changed(r.state, Master), AdvertOf(r.config, r.now, r.config.priority), AnnouncementOf(r.config)]
  }

  function StartItems(r: Router): seq<LogItem> {
    if r.config.priority == 255 then EntryItems(r) else [Changed(r.state, Backup)]
  }

  function StopItems(r: Router, s: State): seq<LogItem> {
    if r.state == Master then [AdvertOf(r.config, r.now, 0), Changed(Master, s)]
    else if r.state == Backup then [Changed(Backup, s)]
    else []
  }

  /** What an event makes a router log, told from its state and the event. */
  function Emits(r: Router, e: Event): seq<LogItem> {
    match e
    case MasterDownTimer => if Due(r.masterDown, r.now) && r.state == Backup then EntryItems(r) else []
    case AdvertisementTimer =>
      if Due(r.adver, r.now) && r.state == Master then [AdvertOf(r.config, r.now, r.config.priority)] else []
    case Receive(source, priority, _, _) =>
      if r.state != Master then []
      else if priority == 0 then [AdvertOf(r.config, r.now, r.config.priority)]
      else if YieldsTo(r.config.priority, r.config.primary, priority, source) then [Changed(Master, Backup)]
      else []
    case Link(up) =>
      if up then (if r.state == LinkDown then StartItems(r) else [])
      else StopItems(r, LinkDown)
    case EnableRouter(up) =>
      if r.state != Disabled then [] else if up then StartItems(r) else [Changed(Disabled, LinkDown)]
    case DisableRouter => StopItems(r, Disabled)
    case _ => []
  }

  // Each handler in closed form.

  lemma EntryForm(r: Router, reason: Reason)
    requires r.state != Master
    ensures BecomeMaster(r, reason) == r.(
      state := Master, log := r.log + EntryItems(r), placed := Added(r.placed, r.config),
      adver := Started(r.config.interval * 10, r.now), master := r.config.primary,
      stats := r.stats.(masterTransitions := r.stats.masterTransitions + 1, newMasterReason := reason))
  {
    var a, b, c := Changed(r.state, Master), AdvertOf(r.config, r.now, r.config.priority), AnnouncementOf(r.config);
    assert ((r.log + [a]) + [b]) + [c] == r.log + [a, b, c];
  }

  lemma ToBackupForm(r: Router)
    requires Down(r.state) && r.config.priority != 255
    ensures Startup(r) == r.(
      state := Backup, log := r.log + [Changed(r.state, Backup)], masterInterval := r.config.interval,
      masterDown := Started(MasterDownInterval(r.config.priority, r.config.interval) * 10, r.now),
      stats := r.stats.(newMasterReason := NotMaster))
  {}

  lemma ResignForm(r: Router, s: State)
    requires r.state == Master && Down(s)
    ensures Shutdown(r, s) == r.(
      state := s, log := r.log + StopItems(r, s), placed := Removed(r.placed, r.config), adver := Stopped(r.adver),
      stats := r.stats.(sentPriZero := r.stats.sentPriZero + 1))
  {
    var a, b := AdvertOf(r.config, r.now, 0), Changed(Master, s);
    assert (r.log + [a]) + [b] == r.log + [a, b];
  }

  lemma LeaveBackupForm(r: Router, s: State)
    requires r.state == Backup && Down(s)
    ensures Shutdown(r, s) == r.(
      state := s, log := r.log + StopItems(r, s), masterDown := Stopped(r.masterDown))
  {}

  lemma YieldForm(r: Router, interval: nat)
    requires r.state == Master
    ensures InState(WaitForMaster(r.(adver := Stopped(r.adver), masterInterval := interval)), Backup) == r.(
      state := Backup, log := r.log + [Changed(Master, Backup)], placed := Removed(r.placed, r.config),
      adver := Stopped(r.adver), masterInterval := interval,
      masterDown := Started(MasterDownInterval(r.config.priority, interval) * 10, r.now))
  {}

  lemma ReadvertiseForm(r: Router)
    ensures Readvertise(r) == r.(
      log := r.log + [AdvertOf(r.config, r.now, r.config.priority)], adver := Started(r.config.interval * 10, r.now))
  {}

  lemma StartForm(r: Router)
    requires Down(r.state)
    ensures Startup(r).log == r.log + StartItems(r) && Startup(r).config == r.config
  {
    hide BecomeMaster;
    if r.config.priority == 255 {
      EntryForm(r, Preempted);
    } else {
      ToBackupForm(r);
    }
  }

  lemma StopForm(r: Router, s: State)
    requires Down(s)
    ensures Shutdown(r, s).log == r.log + StopItems(r, s) && Shutdown(r, s).config == r.config
  {
    hide AdvertOf;
    if r.state == Master {
      ResignForm(r, s);
    } else if r.state == Backup {
      LeaveBackupForm(r, s);
    }
  }

  // Which handler a step is.

  lemma StartStopCases(r: Router, e: Event)
    requires StartsOrStops(e)
    ensures
      || (Step(r, e) == r && Emits(r, e) == [])
      || (Down(r.state) && Step(r, e) == Startup(r) && Emits(r, e) == StartItems(r))
      || (r.state == Disabled && Step(r, e) == InState(r, LinkDown) && Emits(r, e) == [Changed(Disabled, LinkDown)])
      || (!Down(r.state) && Step(r, e) == Shutdown(r, LinkDown) && Emits(r, e) == StopItems(r, LinkDown))
      || (!Down(r.state) && Step(r, e) == Shutdown(r, Disabled) && Emits(r, e) == StopItems(r, Disabled))
  {
    hide Startup, StartItems, InState;
  }

  lemma TimerCases(r: Router, e: Event)
    requires TimersAgree(r) && IsTimer(e)
    ensures
      || (Step(r, e) == r && Emits(r, e) == [])
      || (r.state == Backup && Step(r, e) == BecomeMaster(r.(masterDown := IDLE), r.pending) &&
          Emits(r, e) == EntryItems(r))
      || (r.state == Master && Step(r, e) == Readvertise(r.(adver := IDLE)) &&
          Emits(r, e) == [AdvertOf(r.config, r.now, r.config.priority)])
  {
    hide BecomeMaster, Readvertise, EntryItems, AdvertOf;
  }

  /** A packet that changes neither state nor log, but perhaps the timer of a
      Backup. */
  predicate Absorbed(r: Router, r': Router) {
    && r' == r.(masterDown := r'.masterDown, masterInterval := r'.masterInterval, master := r'.master,
                pending := r'.pending, stats := r'.stats)
    && r'.stats.masterTransitions == r.stats.masterTransitions && r'.stats.sentPriZero == r.stats.sentPriZero
    && (if r.state == Backup then r.masterDown.armed ==> r'.masterDown.armed
        else r'.masterDown == r.masterDown && r'.masterInterval == r.masterInterval)
  }

  lemma BackupAbsorbs(r: Router, source: IpAddress, priority: Byte, interval: nat, addresses: seq<IpAddress>)
    requires r.state == Backup
    ensures Absorbed(r, BackupReceives(r, source, priority, interval, addresses))
    ensures interval <= 4095 && r.masterInterval <= 4095 ==>
      BackupReceives(r, source, priority, interval, addresses).masterInterval <= 4095
  {
    hide MasterDownInterval, SkewTime, Accepts;
  }

  lemma ReceiveCases(r: Router, e: Event)
    requires e.Receive?
    ensures var r' := Received(r, e.interval);
      && r' == r.(stats := r'.stats) && Absorbed(r, r')
      && Step(r, e) == (match r.state
          case Backup => BackupReceives(r', e.source, e.priority, e.interval, e.addresses)
          case Master => MasterReceives(r', e.source, e.priority, e.interval)
          case _ => r')
  {}

  lemma MasterReceiveCases(r: Router, source: IpAddress, priority: Byte, interval: nat)
    requires r.state == Master
    ensures var r' := MasterReceives(r, source, priority, interval);
      if priority == 0 then
        r' == Readvertise(r).(stats := r.stats.(rcvdPriZero := r.stats.rcvdPriZero + 1), pending := Priority)
      else if YieldsTo(r.config.priority, r.config.primary, priority, source) then
        r' == InState(WaitForMaster(r.(adver := Stopped(r.adver), masterInterval := interval)), Backup)
              .(pending := Priority)
      else r' == r
  {
    hide InState, WaitForMaster, AdvertOf;
  }

  lemma QuietCases(r: Router, e: Event)
    requires Quiet(e)
    ensures Emits(r, e) == []
    ensures var s := Step(r, e);
      s == r.(config := s.config, placed := s.placed, stats := s.stats, now := s.now) &&
      s.stats.masterTransitions == r.stats.masterTransitions && s.stats.sentPriZero == r.stats.sentPriZero &&
      (!Configures(e) ==> s.config == r.config && s.placed == r.placed)
  {
    hide MovedToInterface, MovedToArp, HoldsAddresses;
  }

  lemma ReceiveEmits(r: Router, e: Event)
    requires e.Receive?
    ensures Step(r, e).log == r.log + Emits(r, e) && Step(r, e).config == r.config
  {
    hide Step, Received, BackupReceives, MasterReceives, Readvertise, InState, WaitForMaster, YieldsTo, AdvertOf;
    ReceiveCases(r, e);
    var r' := Received(r, e.interval);
    if r.state == Backup {
      BackupAbsorbs(r', e.source, e.priority, e.interval, e.addresses);
    } else if r.state == Master {
      MasterReceiveCases(r', e.source, e.priority, e.interval);
      ReadvertiseForm(r');
      YieldForm(r', e.interval);
    }
  }

  lemma TimerEmits(r: Router, e: Event)
    requires TimersAgree(r) && IsTimer(e)
    ensures Step(r, e).log == r.log + Emits(r, e) && Step(r, e).config == r.config
  {
    hide Step, Emits, EntryItems, BecomeMaster, Readvertise, AdvertOf;
    TimerCases(r, e);
    if r.state == Backup {
      EntryForm(r.(masterDown := IDLE), r.pending);
      assert EntryItems(r.(masterDown := IDLE)) == EntryItems(r) by { EntryItemsOf(r, IDLE); }
    }
    ReadvertiseForm(r.(adver := IDLE));
  }

  lemma EntryItemsOf(r: Router, t: TimerState)
    ensures EntryItems(r.(masterDown := t)) == EntryItems(r)
  {}

  lemma StartStopEmits(r: Router, e: Event)
    requires StartsOrStops(e)
    ensures Step(r, e).log == r.log + Emits(r, e) && Step(r, e).config == r.config
  {
    hide Step, Emits, Startup, Shutdown, StartItems, StopItems;
    StartStopCases(r, e);
    if Down(r.state) {
      StartForm(r);
    }
    StopForm(r, LinkDown);
    StopForm(r, Disabled);
  }

  /** The log grows by exactly these items. */
  lemma StepEmits(r: Router, e: Event)
    requires TimersAgree(r)
    ensures Step(r, e).log == r.log + Emits(r, e)
    ensures !Configures(e) ==> Step(r, e).config == r.config
  {
    hide Step, Emits;
    if IsTimer(e) {
      TimerEmits(r, e);
    } else if e.Receive? {
      ReceiveEmits(r, e);
    } else if StartsOrStops(e) {
      StartStopEmits(r, e);
    } else {
      QuietCases(r, e);
    }
  }
}
