/** A Backup in preempt mode against a running Master of lower priority: it takes
    over when its time runs out, whatever the Master sends, and the Master gives
    way as soon as losses and delay let it hear. */
module Preemption {
  import opened Addresses
  import opened Timers
  import opened RouterSpec
  import opened RouterSteps
  import opened Stability
  import opened Takeover

  // A system of two: its master is the challenger, its one backup the rival, the
  // Master that is running.

  datatype Bout =
    | Await(msec: nat)
    | RivalTimer                                                  // the rival's advertisement timer, on time or late
    | Provoke(interval: Interval12, addresses: seq<IpAddress>)    // any advertisement of the rival, at any time
    | Challenge(lost: bool)                                       // the challenger's master-down timer
    | Contend(action: Action)                                     // once the challenger is Master

  function Rival(s: System): Router
    requires |s.backups| == 1
  {
    s.backups[0]
  }

  function Provocation(s: System, interval: Interval12, addresses: seq<IpAddress>): Event
    requires |s.backups| == 1
  {
    Receive(Rival(s).config.primary, Rival(s).config.priority, interval, addresses)
  }

  function LostFor(lost: bool): set<nat> {
    if lost then {0} else {}
  }

  ghost predicate Possible(s: System, b: Bout, limits: Limits) {
    |s.backups| == 1 && s.master.config.interval <= 4095 &&
    match b
    case Await(msec) => Permitted(s, Idle(msec), limits)
    case RivalTimer => true
    case Provoke(_, _) => true
    case Challenge(lost) => Permitted(s, Expire(LostFor(lost)), limits)
    case Contend(action) => Permitted(s, Then(action), limits)
  }

  ghost function After(s: System, b: Bout, limits: Limits): System
    requires Possible(s, b, limits)
  {
    match b
    case Await(msec) => Moved(s, Idle(msec), limits)
    case RivalTimer => s.(backups := [Step(Rival(s), AdvertisementTimer)])
    case Provoke(interval, addresses) => s.(master := Step(s.master, Provocation(s, interval, addresses)))
    case Challenge(lost) => Moved(s, Expire(LostFor(lost)), limits)
    case Contend(action) => Moved(s, Then(action), limits)
  }

  // ---------------------------------------------------------------- invariant

  /** The challenger ignores the rival. */
  ghost predicate Superior(s: System) {
    |s.backups| == |s.channels| == 1 && s.master.config.preempt && Sender(s.master) &&
    1 <= Rival(s).config.priority < s.master.config.priority
  }

  ghost predicate Reigns(r: Router, now: nat) {
    r.state == Master && r.masterDown == IDLE && r.now == now
  }

  /** Before the challenge. */
  ghost predicate Lurks(s: System, time: nat) {
    && Superior(s) && Candidate(s.master, time) && Reigns(Rival(s), s.master.now)
    && s.channels[0] == Fresh(time, Period(s))
  }

  /** Both are Master, and the rival has heard nothing yet. */
  ghost predicate Fights(s: System, time: nat, limits: Limits) {
    && Superior(s) && MasterOnTime(s) && Reigns(Rival(s), s.master.now) && s.master.now >= time
    && s.channels[0].newest == time - Period(s)
    && Chained(s.channels[0], s.lastSent, Period(s), limits) && InTime(s.channels[0], s.master.now, limits)
  }

  /** The rival has given way. */
  ghost predicate Rules(s: System, time: nat, limits: Limits) {
    Superior(s) && Stable(s, limits) && s.master.now >= time && !Rival(s).adver.armed
  }

  /** One of the three; a rival that has heard stays covered. */
  ghost predicate Ordered(s: System, time: nat, limits: Limits) {
    (Lurks(s, time) || Fights(s, time, limits) || Rules(s, time, limits)) &&
    |s.backups| == 1 && Covers(Rival(s), s.master.config.interval, limits)
  }

  /** As long as the rival has heard nothing, the first advertisement can only be
      overdue by losses and delay. */
  lemma FightIsShort(s: System, time: nat, limits: Limits)
    requires Fights(s, time, limits)
    ensures s.master.now <= time + limits.losses * Period(s) + limits.delay
  {
    var c := s.channels[0];
    assert (limits.losses + 1) * Period(s) == limits.losses * Period(s) + Period(s);
    if c.pending == [] {
      LossBound(c.lost, limits.losses, Period(s));
    }
  }

  lemma Ignores(s: System, interval: Interval12, addresses: seq<IpAddress>)
    requires Superior(s) && (s.master.state == Backup || s.master.state == Master)
    ensures var m := Step(s.master, Provocation(s, interval, addresses));
      m == s.master.(pending := m.pending, stats := m.stats)
  {
    hide MasterDownInterval, SkewTime, AdvertOf, Removed, InState;
  }

  lemma RivalAdvertises(r: Router)
    requires r.state == Master
    ensures var r' := Step(r, AdvertisementTimer);
      r'.state == Master && r'.config == r.config && r'.masterDown == r.masterDown && r'.now == r.now
  {
    hide AdvertOf;
  }

  /** The rival hears the challenger. */
  lemma GivesWay(s: System, addresses: seq<IpAddress>)
    requires Superior(s) && MasterOnTime(s) && Reigns(Rival(s), s.master.now)
    ensures var r := Step(Rival(s), Advertised(s, addresses));
      && BackupOf(s.master, r) && r.config == Rival(s).config && !r.adver.armed
      && r.masterDown.deadline
           == Some(s.master.now + 10 * MasterDownInterval(Rival(s).config.priority, s.master.config.interval))
  {
    hide MasterReceives, Readvertise, InState, WaitForMaster, Removed, Received, MasterDownInterval;
    var e := Advertised(s, addresses);
    var r' := Received(Rival(s), e.interval);
    ReceiveCases(Rival(s), e);
    MasterReceiveCases(r', e.source, e.priority, e.interval);
    YieldForm(r', e.interval);
    WaitsLong(r'.config.priority, e.interval);
  }

  lemma WaitsLong(priority: Byte, interval: nat)
    ensures MasterDownInterval(priority, interval) >= 3 * interval
  {}

  // ------------------------------------------------------------------ each bout

  lemma AwaitOrdered(s: System, msec: nat, time: nat, limits: Limits)
    requires Lurks(s, time) && Possible(s, Await(msec), limits)
    ensures Lurks(After(s, Await(msec), limits), time)
  {
    hide Step;
    TimePasses(s.master, msec);
    TimePasses(Rival(s), msec);
  }

  lemma RivalTimerOrdered(s: System, time: nat, limits: Limits)
    requires Ordered(s, time, limits) && Possible(s, RivalTimer, limits)
    ensures Ordered(After(s, RivalTimer, limits), time, limits)
  {
    hide Stable, Chained, InTime, Candidate, AdvertisementExpired;
    if Rules(s, time, limits) {
      RivalIsBackup(s, limits);
      assert [Rival(s)] == s.backups;
    } else {
      RivalAdvertises(Rival(s));
    }
  }

  lemma RivalIsBackup(s: System, limits: Limits)
    requires Stable(s, limits) && |s.backups| == 1
    ensures s.master.state == Master && Rival(s).state == Backup && BackupOf(s.master, Rival(s))
  {
    assert Follows(s, 0, limits);
  }

  lemma ProvokeStable(s: System, m: Router, limits: Limits)
    requires Stable(s, limits) && m == s.master.(pending := m.pending, stats := m.stats)
    ensures Stable(s.(master := m), limits)
  {
    hide Chained, InTime, Covers, Silence;
    forall i | 0 <= i < |s.backups|
      ensures Follows(s.(master := m), i, limits)
    {
      assert Follows(s, i, limits);
    }
  }

  lemma ProvokeOrdered(s: System, interval: Interval12, addresses: seq<IpAddress>, time: nat, limits: Limits)
    requires Ordered(s, time, limits) && Possible(s, Provoke(interval, addresses), limits)
    ensures Ordered(After(s, Provoke(interval, addresses), limits), time, limits)
  {
    hide Step, Stable, Chained, InTime;
    if Rules(s, time, limits) {
      RivalIsBackup(s, limits);
    }
    Ignores(s, interval, addresses);
    if Rules(s, time, limits) {
      ProvokeStable(s, Step(s.master, Provocation(s, interval, addresses)), limits);
    }
  }

  lemma ChallengeOrdered(s: System, lost: bool, time: nat, limits: Limits)
    requires Lurks(s, time) && Possible(s, Challenge(lost), limits)
    ensures Fights(After(s, Challenge(lost), limits), time, limits)
  {
    hide Step, Chained, InTime;
    CandidateExpires(s.master, time);
    FirstSending(time, lost, Period(s), limits);
  }

  lemma FightWaits(s: System, msec: nat, time: nat, limits: Limits)
    requires Fights(s, time, limits) && Allowed(s, Wait(msec), limits)
    ensures Fights(Act(s, Wait(msec), limits), time, limits)
  {
    hide Step;
    TimePasses(s.master, msec);
    TimePasses(Rival(s), msec);
  }

  lemma FightSends(s: System, lostFor: set<nat>, time: nat, limits: Limits)
    requires Fights(s, time, limits) && Allowed(s, Send(lostFor), limits)
    ensures Fights(Act(s, Send(lostFor), limits), time, limits)
  {
    hide Step, Chained, InTime;
    MasterAdvertises(s);
    SentChained(s.channels[0], 0 in lostFor, s.lastSent, Period(s), limits);
    SentInTime(s.channels[0], 0 in lostFor, s.master.now, limits);
  }

  /** An advertisement ends the fight. */
  lemma FightEnds(s: System, c: Channel, addresses: seq<IpAddress>, time: nat, limits: Limits)
    requires Fights(s, time, limits) && Covers(Rival(s), s.master.config.interval, limits)
    requires Chained(c, s.lastSent, Period(s), limits) && InTime(c, s.master.now, limits)
    ensures Rules(s.(backups := [Step(Rival(s), Advertised(s, addresses))], channels := [c]), time, limits)
  {
    hide Step, Chained, Silence, MasterDownInterval;
    GivesWay(s, addresses);
    var s' := s.(backups := [Step(Rival(s), Advertised(s, addresses))], channels := [c]);
    assert Follows(s', 0, limits);
  }

  lemma FightOrdered(s: System, a: Action, time: nat, limits: Limits)
    requires Fights(s, time, limits) && Allowed(s, a, limits)
    requires Covers(Rival(s), s.master.config.interval, limits)
    ensures Ordered(Act(s, a, limits), time, limits)
  {
    hide Step, Chained, InTime, Stable, Silence, MasterDownInterval;
    match a
    case Wait(msec) =>
      FightWaits(s, msec, time, limits);
      TimePasses(Rival(s), msec);
    case Send(lostFor) =>
      FightSends(s, lostFor, time, limits);
      MasterAdvertises(s);
    case Arrive(b, k, addresses) =>
      ArrivedChained(s.channels[0], k, s.lastSent, s.master.now, Period(s), limits);
      FightEnds(s, Arrived(s.channels[0], k), addresses, time, limits);
      GivesWay(s, addresses);
      assert s.backups[0 := Step(Rival(s), Advertised(s, addresses))] == [Step(Rival(s), Advertised(s, addresses))];
      assert s.channels[0 := Arrived(s.channels[0], k)] == [Arrived(s.channels[0], k)];
    case Repeat(b, addresses) =>
      FightEnds(s, s.channels[0], addresses, time, limits);
      GivesWay(s, addresses);
      assert s.backups[0 := Step(Rival(s), Advertised(s, addresses))] == [Step(Rival(s), Advertised(s, addresses))];
      assert s.channels == [s.channels[0]];
    case BackupTimer(b) =>
      NotWaiting(Rival(s));
      assert s.backups[0 := Rival(s)] == s.backups;
  }

  lemma NotWaiting(r: Router)
    requires r.masterDown == IDLE
    ensures Step(r, MasterDownTimer) == r
  {}

  /** A Backup that hears the challenger keeps its settings. */
  lemma SettingsKept(s: System, addresses: seq<IpAddress>)
    requires |s.backups| == 1 && Rival(s).state == Backup && s.master.config.interval <= 4095
    ensures var r := Step(Rival(s), Advertised(s, addresses));
      r.config == Rival(s).config && r.adver == Rival(s).adver
  {
    hide Step, Received, BackupReceives;
    var e := Advertised(s, addresses);
    ReceiveCases(Rival(s), e);
    BackupAbsorbs(Received(Rival(s), e.interval), e.source, e.priority, e.interval, e.addresses);
  }

  lemma RuleOrdered(s: System, a: Action, time: nat, limits: Limits)
    requires Rules(s, time, limits) && Allowed(s, a, limits) && Covers(Rival(s), s.master.config.interval, limits)
    ensures Ordered(Act(s, a, limits), time, limits)
  {
    hide Step, Stable, Silence, MasterDownInterval;
    ActStable(s, a, limits);
    ActTime(s, a, limits);
    RivalIsBackup(s, limits);
    match a
    case Wait(msec) =>
      TimePasses(Rival(s), msec);
      TimePasses(s.master, msec);
    case Send(lostFor) => StableOnTime(s, limits); MasterAdvertises(s);
    case Arrive(b, k, addresses) => SettingsKept(s, addresses);
    case Repeat(b, addresses) => SettingsKept(s, addresses);
    case BackupTimer(b) => BackupTimerIdles(s, b, limits);
  }

  lemma StableOnTime(s: System, limits: Limits)
    requires Stable(s, limits)
    ensures MasterOnTime(s) && |s.backups| == |s.channels|
  {}

  lemma BoutOrdered(s: System, b: Bout, time: nat, limits: Limits)
    requires Ordered(s, time, limits) && Possible(s, b, limits)
    ensures Ordered(After(s, b, limits), time, limits)
  {
    hide Step, Act, Allowed, Stable, Chained, InTime, Silence, MasterDownInterval;
    if Rules(s, time, limits) {
      StableOnTime(s, limits);
    }
    match b
    case Await(msec) =>
      AwaitOrdered(s, msec, time, limits);
      TimePasses(Rival(s), msec);
      TimePasses(s.master, msec);
    case RivalTimer => RivalTimerOrdered(s, time, limits);
    case Provoke(interval, addresses) => ProvokeOrdered(s, interval, addresses, time, limits);
    case Challenge(lost) =>
      ChallengeOrdered(s, lost, time, limits);
      CandidateExpires(s.master, time);
    case Contend(action) =>
      if Fights(s, time, limits) {
        FightOrdered(s, action, time, limits);
      } else {
        RuleOrdered(s, action, time, limits);
      }
  }

  // --------------------------------------------------------------------- runs

  ghost predicate IsBout(s: System, b: Bout, s': System, limits: Limits) {
    Possible(s, b, limits) && s' == After(s, b, limits)
  }

  ghost predicate IsDuel(run: seq<System>, bouts: seq<Bout>, limits: Limits) {
    && |run| == |bouts| + 1
    && forall k :: 0 <= k < |bouts| ==> IsBout(run[k], bouts[k], run[k + 1], limits)
  }

  lemma {:induction false} OrderedAlways(run: seq<System>, bouts: seq<Bout>, time: nat, limits: Limits, k: nat)
    requires IsDuel(run, bouts, limits) && k < |run| && Ordered(run[0], time, limits)
    ensures Ordered(run[k], time, limits)
  {
    hide Ordered, Possible, After;
    if k > 0 {
      OrderedAlways(run, bouts, time, limits, k - 1);
      assert IsBout(run[k - 1], bouts[k - 1], run[k], limits);
      BoutOrdered(run[k - 1], bouts[k - 1], time, limits);
    }
  }

  /** A Master and a Backup in preempt mode with a higher priority, which is
      waiting for its time to run out. */
  ghost predicate Faces(challenger: Router, rival: Router, time: nat) {
    && Candidate(challenger, time) && challenger.config.preempt
    && Reigns(rival, challenger.now)
    && 1 <= rival.config.priority < challenger.config.priority
  }

  function Duel(challenger: Router, rival: Router, time: nat): System {
    System(challenger, [rival], [Fresh(time, 10 * challenger.config.interval)], challenger.now)
  }

  /** Preemption. In every run the challenger becomes Master when its time runs out
      and not before, whatever advertisements of the running Master reach it, and
      stays Master; the other one is Master until then, gives way before losses and
      delay have held up the first advertisement for longer than they can, and
      stays Backup. */
  lemma Preempts(challenger: Router, rival: Router, time: nat, limits: Limits,
                 run: seq<System>, bouts: seq<Bout>, k: nat)
    requires Faces(challenger, rival, time) && Covers(rival, challenger.config.interval, limits)
    requires IsDuel(run, bouts, limits) && run[0] == Duel(challenger, rival, time) && k < |run|
    ensures |run[k].backups| == 1
    ensures var me, other, now := run[k].master, Rival(run[k]), run[k].master.now;
      && (me.state == Backup || me.state == Master) && (other.state == Backup || other.state == Master)
      && (now < time ==> me.state == Backup) && (now > time ==> me.state == Master)
      && (me.state == Backup ==> other.state == Master)
      && (now > time + limits.losses * (10 * challenger.config.interval) + limits.delay ==> other.state == Backup)
      && (other.state == Backup ==> !Due(other.masterDown, other.now))
      && me.config == challenger.config
  {
    hide Possible, After, Stable, Chained, InTime, Covers;
    OrderedAlways(run, bouts, time, limits, k);
    SameChallenger(run, bouts, time, limits, k);
    if Fights(run[k], time, limits) {
      FightIsShort(run[k], time, limits);
    } else if Rules(run[k], time, limits) {
      RivalIsBackup(run[k], limits);
      NotDue(run[k], 0, limits);
    }
  }

  lemma SameConfig(s: System, b: Bout, time: nat, limits: Limits)
    requires Ordered(s, time, limits) && Possible(s, b, limits)
    ensures After(s, b, limits).master.config == s.master.config
  {
    hide Step, Stable, Chained, InTime, Silence, MasterDownInterval;
    if Rules(s, time, limits) {
      StableOnTime(s, limits);
    }
    match b
    case Await(msec) => TimePasses(s.master, msec);
    case RivalTimer =>
    case Provoke(interval, addresses) => Ignores(s, interval, addresses);
    case Challenge(lost) => CandidateExpires(s.master, time);
    case Contend(action) =>
      if action.Send? {
        MasterAdvertises(s);
      } else if action.Wait? {
        TimePasses(s.master, action.msec);
      }
  }

  lemma {:induction false} SameChallenger(run: seq<System>, bouts: seq<Bout>, time: nat, limits: Limits, k: nat)
    requires IsDuel(run, bouts, limits) && k < |run| && Ordered(run[0], time, limits)
    ensures run[k].master.config == run[0].master.config
  {
    hide Ordered, Possible, After;
    if k > 0 {
      SameChallenger(run, bouts, time, limits, k - 1);
      OrderedAlways(run, bouts, time, limits, k - 1);
      assert IsBout(run[k - 1], bouts[k - 1], run[k], limits);
      SameConfig(run[k - 1], bouts[k - 1], time, limits);
    }
  }
}
