/** The receive counters of a router are tallies of its run. */
module RouterStatistics {
  import opened Sockets
  import opened RouterSpec
  import opened RouterSteps
  import opened RouterInvariants

  predicate IsPacket(r: Router, e: Event) {
    e.Receive?
  }

  predicate IsPriorityZero(r: Router, e: Event) {
    e.Receive? && e.priority == 0 && (r.state == Backup || r.state == Master)
  }

  /** A Backup accepts an advertisement that lists an address it does not have,
      or one of them twice. */
  predicate IsForeignList(r: Router, e: Event) {
    e.Receive? && e.priority != 0 && r.state == Backup && Accepts(r, e.priority) &&
    !(multiset(e.addresses) <= multiset(r.config.addresses))
  }

  /** The interval test compares a truth value with the own interval: every
      packet counts as an error, except an interval of 0 met by an own one of 1. */
  predicate IsIntervalError(r: Router, e: Event) {
    e == ReceiveError(AdvIntervalError) || (e.Receive? && !(r.config.interval == 1 && e.interval == 0))
  }

  predicate IsTypeError(r: Router, e: Event) {
    e == ReceiveError(InvalidTypeError)
  }

  predicate IsLengthError(r: Router, e: Event) {
    e == ReceiveError(PacketLengthError)
  }

  /** In how many steps of a run something happens. */
  function Tally(r: Router, events: seq<Event>, happens: (Router, Event) -> bool): nat {
    if events == [] then 0
    else
      var before := events[..|events| - 1];
      Tally(r, before, happens) + if happens(Run(r, before), events[|events| - 1]) then 1 else 0
  }

  function One(b: bool): nat {
    if b then 1 else 0
  }

  /** What one step adds to the receive counters. */
  ghost predicate CountsRight(r: Router, e: Event) {
    var s, t := r.stats, Step(r, e).stats;
    && t.rcvdAdvertisements == s.rcvdAdvertisements + One(IsPacket(r, e))
    && t.rcvdPriZero == s.rcvdPriZero + One(IsPriorityZero(r, e))
    && t.addressListErrors == s.addressListErrors + One(IsForeignList(r, e))
    && t.advIntervalErrors == s.advIntervalErrors + One(IsIntervalError(r, e))
    && t.invalidType == s.invalidType + One(IsTypeError(r, e))
    && t.packetLengthErrors == s.packetLengthErrors + One(IsLengthError(r, e))
  }

  lemma PacketCounts(r: Router, e: Event)
    requires Sound(r) && e.Receive?
    ensures CountsRight(r, e)
  {
    hide MasterDownInterval, SkewTime, Removed, YieldsTo;
  }

  lemma OtherCounts(r: Router, e: Event)
    requires Sound(r) && !e.Receive? && !StartsOrStops(e)
    ensures CountsRight(r, e)
  {
    hide Added, MovedToInterface, MovedToArp;
  }

  lemma StartStopCounts(r: Router, e: Event)
    requires StartsOrStops(e)
    ensures CountsRight(r, e)
  {
    hide MasterDownInterval, SkewTime, Added, Removed;
  }

  lemma StatisticsStep(r: Router, e: Event)
    requires Sound(r)
    ensures CountsRight(r, e)
  {
    hide CountsRight;
    if e.Receive? {
      PacketCounts(r, e);
    } else if StartsOrStops(e) {
      StartStopCounts(r, e);
    } else {
      OtherCounts(r, e);
    }
  }

  /** Over every run each receive counter grows by the number of steps it is
      there to count. */
  lemma {:induction false} StatisticsAreTallies(r: Router, events: seq<Event>)
    requires Sound(r)
    ensures Sound(Run(r, events))
    ensures var s, t := r.stats, Run(r, events).stats;
      && t.rcvdAdvertisements == s.rcvdAdvertisements + Tally(r, events, IsPacket)
      && t.rcvdPriZero == s.rcvdPriZero + Tally(r, events, IsPriorityZero)
      && t.addressListErrors == s.addressListErrors + Tally(r, events, IsForeignList)
      && t.advIntervalErrors == s.advIntervalErrors + Tally(r, events, IsIntervalError)
      && t.invalidType == s.invalidType + Tally(r, events, IsTypeError)
      && t.packetLengthErrors == s.packetLengthErrors + Tally(r, events, IsLengthError)
  {
    hide Step, Ranges, TimersAgree, IsPriorityZero, IsForeignList, IsIntervalError;
    if events != [] {
      var before, e := events[..|events| - 1], events[|events| - 1];
      StatisticsAreTallies(r, before);
      SoundKept(Run(r, before), e);
      StatisticsStep(Run(r, before), e);
    }
  }
}
