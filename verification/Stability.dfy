/** Timed stability: one Master and any number of Backups that accept it, on a
    network with bounded consecutive losses and bounded delay. */
module Stability {
  import opened Addresses
  import opened Timers
  import opened RouterSpec

  /** At most losses advertisements in a row are lost on the way to one backup,
      and one that is not lost arrives within delay milliseconds. */
  datatype Limits = Limits(losses: nat, delay: nat)

  /** The way from the Master to one backup. newest is the sending time of the
      newest advertisement that has arrived; pending holds the sending times of
      newer ones still to arrive, in sending order; lost counts the losses since
      the last one that was not lost. */
  datatype Channel = Channel(newest: int, pending: seq<nat>, lost: nat)

  datatype System = System(master: Router, backups: seq<Router>, channels: seq<Channel>, lastSent: nat)

  datatype Action =
    | Wait(msec: nat)
    | Send(lostFor: set<nat>)                                  // the backups that will not get it
    | Arrive(b: nat, k: nat, addresses: seq<IpAddress>)        // any pending one, overtaking older ones
    | Repeat(b: nat, addresses: seq<IpAddress>)                // a duplicate or overtaken one
    | BackupTimer(b: nat)

  function Period(s: System): nat {
    10 * s.master.config.interval
  }

  function Advertised(s: System, addresses: seq<IpAddress>): Event
    requires s.master.config.interval <= 4095
  {
    Receive(s.master.config.primary, s.master.config.priority, s.master.config.interval, addresses)
  }

  /** The network keeps its limits and the Master's timer fires on time. */
  ghost predicate Allowed(s: System, a: Action, limits: Limits) {
    match a
    case Wait(msec) =>
      (forall t :: s.master.adver.deadline == Some(t) ==> s.master.now + msec <= t) &&
      (forall b, k :: 0 <= b < |s.channels| && 0 <= k < |s.channels[b].pending| ==>
        s.master.now + msec <= s.channels[b].pending[k] + limits.delay)
    case Send(lostFor) =>
      Due(s.master.adver, s.master.now) &&
      (forall b :: 0 <= b < |s.channels| && b in lostFor ==> s.channels[b].lost < limits.losses)
    case Arrive(b, k, _) => b < |s.backups| && b < |s.channels| && k < |s.channels[b].pending|
    case Repeat(b, _) => b < |s.backups|
    case BackupTimer(b) => b < |s.backups|
  }

  function Sent(c: Channel, lost: bool, now: nat): Channel {
    if lost then c.(lost := c.lost + 1) else c.(pending := c.pending + [now], lost := 0)
  }

  function Arrived(c: Channel, k: nat): Channel
    requires k < |c.pending|
  {
    Channel(c.pending[k], c.pending[k + 1..], c.lost)
  }

  ghost function Act(s: System, a: Action, limits: Limits): System
    requires Allowed(s, a, limits) && s.master.config.interval <= 4095
  {
    match a
    case Wait(msec) =>
      s.(master := Step(s.master, Elapse(msec)),
         backups := seq(|s.backups|, b requires 0 <= b < |s.backups| => Step(s.backups[b], Elapse(msec))))
    case Send(lostFor) =>
      s.(master := Step(s.master, AdvertisementTimer), lastSent := s.master.now,
         channels := seq(|s.channels|, b requires 0 <= b < |s.channels| =>
           Sent(s.channels[b], b in lostFor, s.master.now)))
    case Arrive(b, k, addresses) =>
      s.(backups := s.backups[b := Step(s.backups[b], Advertised(s, addresses))],
         channels := s.channels[b := Arrived(s.channels[b], k)])
    case Repeat(b, addresses) => s.(backups := s.backups[b := Step(s.backups[b], Advertised(s, addresses))])
    case BackupTimer(b) => s.(backups := s.backups[b := Step(s.backups[b], MasterDownTimer)])
  }

  // ---------------------------------------------------------------- invariant

  /** Consecutive advertisements that are not lost are at most losses + 1
      periods apart. */
  ghost predicate Chained(c: Channel, lastSent: nat, period: nat, limits: Limits) {
    var gap := (limits.losses + 1) * period;
    && (c.pending != [] ==> c.pending[0] <= c.newest + gap)
    && (forall k :: 0 < k < |c.pending| ==> c.pending[k] <= c.pending[k - 1] + gap)
    && lastSent <= (if c.pending == [] then c.newest else c.pending[|c.pending| - 1]) + c.lost * period
    && c.lost <= limits.losses
  }

  ghost predicate InTime(c: Channel, now: nat, limits: Limits) {
    c.newest <= now && forall k :: 0 <= k < |c.pending| ==> c.pending[k] <= now <= c.pending[k] + limits.delay
  }

  /** The longest that an advertisement can be overdue, from the sending of the
      newest one that arrived. */
  function Silence(period: nat, limits: Limits): nat {
    (limits.losses + 1) * period + limits.delay
  }

  /** The condition on the limits, for one backup and an advertised interval. */
  ghost predicate Covers(b: Router, interval: nat, limits: Limits) {
    Silence(10 * interval, limits) < 10 * MasterDownInterval(b.config.priority, interval)
  }

  ghost predicate BackupOf(master: Router, b: Router) {
    && b.state == Backup && b.now == master.now
    && Accepts(b, master.config.priority)
    && b.masterDown.deadline.Some?
  }

  ghost predicate Follows(s: System, i: nat, limits: Limits)
    requires i < |s.backups| && i < |s.channels|
  {
    var b, c := s.backups[i], s.channels[i];
    && BackupOf(s.master, b) && Covers(b, s.master.config.interval, limits)
    && Chained(c, s.lastSent, Period(s), limits) && InTime(c, s.master.now, limits)
    && c.newest + Silence(Period(s), limits) < b.masterDown.deadline.value
  }

  ghost predicate MasterOnTime(s: System) {
    var m := s.master;
    && m.state == Master && m.adver == TimerState(true, Some(s.lastSent + Period(s)))
    && s.lastSent <= m.now <= s.lastSent + Period(s)
    && m.config.priority != 0 && 1 <= m.config.interval <= 4095 && CanSend(m.config)
  }

  ghost predicate Stable(s: System, limits: Limits) {
    && MasterOnTime(s) && |s.backups| == |s.channels|
    && forall i :: 0 <= i < |s.backups| ==> Follows(s, i, limits)
  }

  /** In a stable system no backup's master-down timer is due. */
  lemma NotDue(s: System, i: nat, limits: Limits)
    requires Stable(s, limits) && i < |s.backups|
    ensures !Due(s.backups[i].masterDown, s.backups[i].now)
  {
    var b, c := s.backups[i], s.channels[i];
    assert Follows(s, i, limits);
    if c.pending == [] {
      LossBound(c.lost, limits.losses, Period(s));
    }
  }

  lemma LossBound(lost: nat, losses: nat, period: nat)
    requires lost <= losses
    ensures lost * period + period <= (losses + 1) * period
  {}

  // ------------------------------------------------------------ each action

  lemma SentChained(c: Channel, lost: bool, lastSent: nat, period: nat, limits: Limits)
    requires Chained(c, lastSent, period, limits) && (lost ==> c.lost < limits.losses)
    ensures Chained(Sent(c, lost, lastSent + period), lastSent + period, period, limits)
  {}

  lemma SentInTime(c: Channel, lost: bool, now: nat, limits: Limits)
    requires InTime(c, now, limits)
    ensures InTime(Sent(c, lost, now), now, limits)
  {}

  lemma ArrivedChained(c: Channel, k: nat, lastSent: nat, now: nat, period: nat, limits: Limits)
    requires Chained(c, lastSent, period, limits) && InTime(c, now, limits) && k < |c.pending|
    ensures Chained(Arrived(c, k), lastSent, period, limits) && InTime(Arrived(c, k), now, limits)
  {}

  /** Hearing the Master restarts the master-down timer in full. */
  lemma HearsMaster(s: System, b: Router, addresses: seq<IpAddress>)
    requires MasterOnTime(s) && BackupOf(s.master, b)
    ensures var b' := Step(b, Advertised(s, addresses));
      BackupOf(s.master, b') && b'.config == b.config && b'.masterDown ==
        TimerState(true, Some(b.now + 10 * MasterDownInterval(b.config.priority, s.master.config.interval)))
  {}

  lemma TimePasses(b: Router, msec: nat)
    ensures Step(b, Elapse(msec)) == b.(now := b.now + msec)
  {}

  lemma MasterAdvertises(s: System)
    requires MasterOnTime(s) && Due(s.master.adver, s.master.now)
    ensures var m := Step(s.master, AdvertisementTimer);
      s.master.now == s.lastSent + Period(s) && m.state == Master && m.config == s.master.config &&
      m.now == s.master.now && m.adver == TimerState(true, Some(s.master.now + Period(s)))
  {}

  lemma WaitStable(s: System, msec: nat, limits: Limits)
    requires Stable(s, limits) && Allowed(s, Wait(msec), limits)
    ensures Stable(Act(s, Wait(msec), limits), limits)
  {
    var s' := Act(s, Wait(msec), limits);
    TimePasses(s.master, msec);
    forall i | 0 <= i < |s'.backups|
      ensures Follows(s', i, limits)
    {
      assert Follows(s, i, limits);
      TimePasses(s.backups[i], msec);
    }
  }

  lemma SendFollows(s: System, lostFor: set<nat>, i: nat, limits: Limits)
    requires Stable(s, limits) && Allowed(s, Send(lostFor), limits) && i < |s.backups|
    ensures Follows(Act(s, Send(lostFor), limits), i, limits)
  {
    hide Step, Chained, InTime, Covers, MasterDownInterval;
    var c := s.channels[i];
    assert Follows(s, i, limits);
    MasterAdvertises(s);
    SentChained(c, i in lostFor, s.lastSent, Period(s), limits);
    SentInTime(c, i in lostFor, s.master.now, limits);
  }

  lemma SendStable(s: System, lostFor: set<nat>, limits: Limits)
    requires Stable(s, limits) && Allowed(s, Send(lostFor), limits)
    ensures Stable(Act(s, Send(lostFor), limits), limits)
  {
    MasterAdvertises(s);
    forall i | 0 <= i < |s.backups|
      ensures Follows(Act(s, Send(lostFor), limits), i, limits)
    {
      SendFollows(s, lostFor, i, limits);
    }
  }

  /** An action that touches one backup and its channel keeps the others. */
  lemma OthersFollow(s: System, s': System, b: nat, limits: Limits)
    requires Stable(s, limits) && b < |s.backups|
    requires s'.master == s.master && s'.lastSent == s.lastSent
    requires |s'.backups| == |s.backups| && |s'.channels| == |s.channels|
    requires forall i :: 0 <= i < |s.backups| && i != b ==>
      s'.backups[i] == s.backups[i] && s'.channels[i] == s.channels[i]
    requires Follows(s', b, limits)
    ensures Stable(s', limits)
  {
    forall i | 0 <= i < |s'.backups|
      ensures Follows(s', i, limits)
    {
      assert i != b ==> Follows(s, i, limits);
    }
  }

  lemma ArriveStable(s: System, b: nat, k: nat, addresses: seq<IpAddress>, limits: Limits)
    requires Stable(s, limits) && Allowed(s, Arrive(b, k, addresses), limits)
    ensures Stable(Act(s, Arrive(b, k, addresses), limits), limits)
  {
    assert Follows(s, b, limits);
    HearsMaster(s, s.backups[b], addresses);
    ArrivedChained(s.channels[b], k, s.lastSent, s.master.now, Period(s), limits);
    OthersFollow(s, Act(s, Arrive(b, k, addresses), limits), b, limits);
  }

  lemma RepeatStable(s: System, b: nat, addresses: seq<IpAddress>, limits: Limits)
    requires Stable(s, limits) && Allowed(s, Repeat(b, addresses), limits)
    ensures Stable(Act(s, Repeat(b, addresses), limits), limits)
  {
    assert Follows(s, b, limits);
    HearsMaster(s, s.backups[b], addresses);
    OthersFollow(s, Act(s, Repeat(b, addresses), limits), b, limits);
  }

  lemma BackupTimerIdles(s: System, b: nat, limits: Limits)
    requires Stable(s, limits) && Allowed(s, BackupTimer(b), limits)
    ensures Act(s, BackupTimer(b), limits) == s
  {
    NotDue(s, b, limits);
    assert s.backups[b := s.backups[b]] == s.backups;
  }

  lemma ActStable(s: System, a: Action, limits: Limits)
    requires Stable(s, limits) && Allowed(s, a, limits)
    ensures Stable(Act(s, a, limits), limits)
  {
    match a
    case Wait(msec) => WaitStable(s, msec, limits);
    case Send(lostFor) => SendStable(s, lostFor, limits);
    case Arrive(b, k, addresses) => ArriveStable(s, b, k, addresses, limits);
    case Repeat(b, addresses) => RepeatStable(s, b, addresses, limits);
    case BackupTimer(b) => BackupTimerIdles(s, b, limits);
  }

  // --------------------------------------------------------------------- runs

  /** The systems that a run visits. */
  ghost predicate IsRun(run: seq<System>, actions: seq<Action>, limits: Limits) {
    && |run| == |actions| + 1
    && forall k :: 0 <= k < |actions| ==> IsStep(run[k], actions[k], run[k + 1], limits)
  }

  ghost predicate IsStep(s: System, a: Action, s': System, limits: Limits) {
    s.master.config.interval <= 4095 && Allowed(s, a, limits) && s' == Act(s, a, limits)
  }

  /** Timed stability. While at most losses advertisements in a row are lost to a
      backup and delays stay below delay, with
      (losses + 1) * 10 * interval + delay < 10 * masterDownInterval,
      no master-down timer ever falls due: the Master stays Master and every other
      router stays Backup, at every point of every run. */
  lemma {:induction false} StableAlways(run: seq<System>, actions: seq<Action>, limits: Limits, k: nat)
    requires IsRun(run, actions, limits) && k < |run| && Stable(run[0], limits)
    ensures Stable(run[k], limits)
    ensures run[k].master.state == Master
    ensures forall i :: 0 <= i < |run[k].backups| ==>
      run[k].backups[i].state == Backup && !Due(run[k].backups[i].masterDown, run[k].backups[i].now)
  {
    if k > 0 {
      StableAlways(run, actions, limits, k - 1);
      assert IsStep(run[k - 1], actions[k - 1], run[k], limits);
      ActStable(run[k - 1], actions[k - 1], limits);
    }
    forall i | 0 <= i < |run[k].backups|
      ensures run[k].backups[i].state == Backup && !Due(run[k].backups[i].masterDown, run[k].backups[i].now)
    {
      assert Follows(run[k], i, limits);
      NotDue(run[k], i, limits);
    }
  }

  // ------------------------------------------------------- the exact condition

  /** A Master that has just advertised and Backups that accept it. */
  ghost predicate Ready(master: Router, backups: seq<Router>) {
    && master.state == Master && master.config.priority != 0 && 1 <= master.config.interval <= 4095
    && CanSend(master.config)
    && master.adver == Started(10 * master.config.interval, master.now)
    && (forall i :: 0 <= i < |backups| ==>
          backups[i].state == Backup && backups[i].now == master.now && Accepts(backups[i], master.config.priority))
  }

  /** The system in which every backup has received that advertisement at once. */
  function Start(master: Router, backups: seq<Router>, addresses: seq<IpAddress>): (s: System)
    requires master.config.interval <= 4095
    ensures s.master == master && |s.backups| == |s.channels| == |backups| && s.lastSent == master.now
  {
    var hello := Receive(master.config.primary, master.config.priority, master.config.interval, addresses);
    System(master, seq(|backups|, i requires 0 <= i < |backups| => Step(backups[i], hello)),
           seq(|backups|, _ => Channel(master.now, [], 0)), master.now)
  }

  ghost predicate AllCovered(s: System, limits: Limits) {
    forall i :: 0 <= i < |s.backups| ==> Covers(s.backups[i], s.master.config.interval, limits)
  }

  lemma StartFacts(master: Router, backups: seq<Router>, addresses: seq<IpAddress>, i: nat)
    requires Ready(master, backups) && i < |backups|
    ensures var b := Start(master, backups, addresses).backups[i];
      BackupOf(master, b) && b.config == backups[i].config &&
      b.masterDown == TimerState(true, Some(b.now + 10 * MasterDownInterval(b.config.priority, master.config.interval)))
  {}

  lemma StartsStable(master: Router, backups: seq<Router>, addresses: seq<IpAddress>, limits: Limits)
    requires Ready(master, backups) && AllCovered(Start(master, backups, addresses), limits)
    ensures Stable(Start(master, backups, addresses), limits)
  {
    var s := Start(master, backups, addresses);
    forall i | 0 <= i < |s.backups|
      ensures Follows(s, i, limits)
    {
      StartFacts(master, backups, addresses, i);
    }
  }

  ghost predicate NoneDue(s: System) {
    forall i :: 0 <= i < |s.backups| ==> !Due(s.backups[i].masterDown, s.backups[i].now)
  }

  /** No run from s ever lets a backup time out. */
  ghost predicate NeverDue(s: System, limits: Limits) {
    forall run, actions, k :: IsRun(run, actions, limits) && run[0] == s && 0 <= k < |run| ==> NoneDue(run[k])
  }

  // The worst network: it loses the first advertisements as long as it may and
  // then delays everything as long as it may.

  /** A channel of the worst network n advertisements after the one sent at the
      given time. */
  function WorstChannel(start: int, n: nat, period: nat, limits: Limits): Channel
    requires start + period >= 0
  {
    if n <= limits.losses then Channel(start, [], n)
    else Channel(start, seq<nat>(n - limits.losses, k requires 0 <= k < n - limits.losses =>
      Later(start, limits.losses + 1 + k, period)), 0)
  }

  function Later(start: int, n: nat, period: nat): nat
    requires start + period >= 0 && n > 0
  {
    assert n * period >= period;
    start + n * period
  }

  /** t milliseconds after the start, and n advertisements later, no backup of
      the first system has heard anything. */
  ghost predicate Silent(s: System, first: System, start: int, n: nat, t: nat, limits: Limits) {
    && start + Period(first) >= 0 && s.master.now == start + t && s.lastSent == start + n * Period(first)
    && s.master.state == Master && s.master.config == first.master.config
    && s.master.adver == TimerState(true, Some(Later(start, n + 1, Period(first))))
    && |s.backups| == |first.backups| && |s.channels| == |first.channels|
    && (forall i :: 0 <= i < |s.backups| ==> s.backups[i] == first.backups[i].(now := s.master.now))
    && (forall i :: 0 <= i < |s.channels| ==> s.channels[i] == WorstChannel(start, n, Period(first), limits))
  }

  lemma WorstChannelSends(start: int, n: nat, period: nat, limits: Limits)
    requires start + period >= 0
    ensures var c := WorstChannel(start, n, period, limits);
      n < limits.losses <==> c.pending == [] && c.lost < limits.losses
    ensures WorstChannel(start, n + 1, period, limits)
         == Sent(WorstChannel(start, n, period, limits), n < limits.losses, Later(start, n + 1, period))
  {}

  lemma WorstChannelWaits(start: int, n: nat, period: nat, limits: Limits, t: nat, k: nat)
    requires start + period >= 0 && t <= Silence(period, limits)
    requires k < |WorstChannel(start, n, period, limits).pending|
    ensures start + t <= WorstChannel(start, n, period, limits).pending[k] + limits.delay
  {
    var m := limits.losses + 1;
    assert WorstChannel(start, n, period, limits).pending[k] == Later(start, m + k, period);
    assert (m + k) * period == m * period + k * period;
  }

  /** The backups that the worst network keeps the next advertisement from. */
  ghost function Deprived(s: System, limits: Limits): set<nat> {
    set b: nat | b < |s.channels| && s.channels[b].pending == [] && s.channels[b].lost < limits.losses
  }

  ghost predicate Sender(m: Router) {
    m.config.priority != 0 && 1 <= m.config.interval <= 4095 && CanSend(m.config)
  }

  lemma SilentSend(s: System, first: System, start: int, n: nat, limits: Limits)
    requires Silent(s, first, start, n, (n + 1) * Period(first), limits) && Sender(first.master)
    requires s.lastSent >= 0
    ensures var a := Send(Deprived(s, limits));
      Allowed(s, a, limits) && Silent(Act(s, a, limits), first, start, n + 1, (n + 1) * Period(first), limits)
  {
    hide Step, WorstChannel;
    WorstChannelSends(start, n, Period(first), limits);
    assert (n + 1) * Period(first) == n * Period(first) + Period(first);
    assert (n + 2) * Period(first) == (n + 1) * Period(first) + Period(first);
    MasterAdvertises(s);
  }

  lemma SilentWait(s: System, first: System, start: int, n: nat, t: nat, limits: Limits)
    requires Silent(s, first, start, n, n * Period(first), limits) && first.master.config.interval <= 4095
    requires n * Period(first) <= t <= (n + 1) * Period(first)
    requires t <= Silence(Period(first), limits)
    ensures var a := Wait(t - n * Period(first));
      Allowed(s, a, limits) && Silent(Act(s, a, limits), first, start, n, t, limits)
  {
    hide WorstChannel, Silence;
    forall b, k | 0 <= b < |s.channels| && 0 <= k < |s.channels[b].pending|
      ensures start + t <= s.channels[b].pending[k] + limits.delay
    {
      WorstChannelWaits(start, n, Period(first), limits, t, k);
    }
  }

  ghost predicate Leads(run: seq<System>, actions: seq<Action>, first: System, s: System, limits: Limits) {
    && IsRun(run, actions, limits) && run[0] == first && run[|run| - 1] == s
    && forall k :: 0 <= k < |run| ==> run[k].master.state == Master
  }

  lemma Extend(run: seq<System>, actions: seq<Action>, first: System, s: System, a: Action, limits: Limits)
    requires Leads(run, actions, first, s, limits)
    requires s.master.config.interval <= 4095 && Allowed(s, a, limits) && Act(s, a, limits).master.state == Master
    ensures Leads(run + [Act(s, a, limits)], actions + [a], first, Act(s, a, limits), limits)
  {
    hide Act, Allowed;
    var run', actions' := run + [Act(s, a, limits)], actions + [a];
    forall k | 0 <= k < |actions'|
      ensures IsStep(run'[k], actions'[k], run'[k + 1], limits)
    {
      assert k < |actions| ==> IsStep(run[k], actions[k], run[k + 1], limits);
    }
  }

  /** The worst network can keep all backups in silence for losses + 1 periods
      and the delay. */
  lemma {:induction false} SilenceLasts(first: System, start: int, n0: nat, n: nat, t: nat, limits: Limits)
    returns (run: seq<System>, actions: seq<Action>, s: System)
    requires Silent(first, first, start, n0, n0 * Period(first), limits) && Sender(first.master) && n0 <= n
    requires n * Period(first) <= t <= (n + 1) * Period(first)
    requires t <= Silence(Period(first), limits)
    ensures Leads(run, actions, first, s, limits) && Silent(s, first, start, n, t, limits)
    decreases n, t
  {
    hide Act, Allowed, Silent, Silence;
    var before := n * Period(first);
    SilentFacts(first, first, start, n0, n0 * Period(first), limits);
    if t > before {
      run, actions, s := SilenceLasts(first, start, n0, n, before, limits);
      var a := Wait(t - before);
      SilentWait(s, first, start, n, t, limits);
      SilentFacts(s, first, start, n, before, limits);
      SilentFacts(Act(s, a, limits), first, start, n, t, limits);
      Extend(run, actions, first, s, a, limits);
      run, actions, s := run + [Act(s, a, limits)], actions + [a], Act(s, a, limits);
    } else if n > n0 {
      run, actions, s := SilenceLasts(first, start, n0, n - 1, t, limits);
      var a := Send(Deprived(s, limits));
      SilentFacts(s, first, start, n - 1, t, limits);
      SilentSend(s, first, start, n - 1, limits);
      SilentFacts(Act(s, a, limits), first, start, n, t, limits);
      Extend(run, actions, first, s, a, limits);
      run, actions, s := run + [Act(s, a, limits)], actions + [a], Act(s, a, limits);
    } else {
      run, actions, s := [first], [], first;
    }
  }

  lemma SilentFacts(s: System, first: System, start: int, n: nat, t: nat, limits: Limits)
    requires Silent(s, first, start, n, t, limits)
    ensures s.master.state == Master && s.master.config == first.master.config && s.master.now == start + t
    ensures |s.backups| == |first.backups|
    ensures forall i :: 0 <= i < |s.backups| ==> s.backups[i] == first.backups[i].(now := s.master.now)
  {}

  lemma SplitTime(t: nat, period: nat)
    requires period > 0
    ensures (t / period) * period <= t <= (t / period + 1) * period
  {}

  /** A backup whose deadline comes within the longest silence can be starved. */
  lemma SilenceStarves(first: System, start: int, n0: nat, t: nat, limits: Limits, i: nat)
    returns (run: seq<System>, actions: seq<Action>, s: System)
    requires Silent(first, first, start, n0, n0 * Period(first), limits) && Sender(first.master)
    requires n0 * Period(first) <= t <= Silence(Period(first), limits) && i < |first.backups|
    requires first.backups[i].masterDown == TimerState(true, Some(start + t))
    ensures Leads(run, actions, first, s, limits) && !NoneDue(s)
  {
    hide Silent, Silence, Leads;
    SplitTime(t, Period(first));
    AtLeastQuotient(n0, t, Period(first));
    run, actions, s := SilenceLasts(first, start, n0, t / Period(first), t, limits);
    SilentFacts(s, first, start, t / Period(first), t, limits);
    assert Due(s.backups[i].masterDown, s.backups[i].now);
  }

  lemma AtLeastQuotient(n: nat, t: nat, period: nat)
    requires period > 0 && n * period <= t
    ensures n <= t / period
  {
    if n > t / period {
      assert n * period >= (t / period + 1) * period;
      SplitTime(t, period);
      StrictSplit(t, period);
    }
  }

  lemma StrictSplit(t: nat, period: nat)
    requires period > 0
    ensures t < (t / period + 1) * period
  {}

  /** An uncovered backup can be starved. */
  lemma UncoveredFalls(master: Router, backups: seq<Router>, addresses: seq<IpAddress>, limits: Limits, i: nat)
    requires Ready(master, backups) && i < |backups|
    requires !Covers(Start(master, backups, addresses).backups[i], master.config.interval, limits)
    ensures !NeverDue(Start(master, backups, addresses), limits)
  {
    hide Step, MasterDownInterval;
    var first := Start(master, backups, addresses);
    var b := first.backups[i];
    StartFacts(master, backups, addresses, i);
    StartSilent(master, backups, addresses, limits);
    var run, actions, s := SilenceStarves(first, master.now, 0,
      10 * MasterDownInterval(b.config.priority, master.config.interval), limits, i);
    assert !NoneDue(run[|run| - 1]);
  }

  lemma StartSilent(master: Router, backups: seq<Router>, addresses: seq<IpAddress>, limits: Limits)
    requires Ready(master, backups)
    ensures var first := Start(master, backups, addresses);
      Silent(first, first, master.now, 0, 0, limits) && Sender(first.master)
  {
    hide Step, MasterDownInterval;
    forall i | 0 <= i < |backups|
      ensures Start(master, backups, addresses).backups[i].now == master.now
    {
      StartFacts(master, backups, addresses, i);
    }
  }

  /** The bound is exact: after an advertisement that every backup has accepted,
      the network can bring a backup to time out exactly if
      (losses + 1) * 10 * interval + delay reaches 10 * masterDownInterval for one
      of them. */
  lemma StableExact(master: Router, backups: seq<Router>, addresses: seq<IpAddress>, limits: Limits)
    requires Ready(master, backups)
    ensures var s := Start(master, backups, addresses);
      NeverDue(s, limits) <==> AllCovered(s, limits)
  {
    var s := Start(master, backups, addresses);
    if AllCovered(s, limits) {
      StartsStable(master, backups, addresses, limits);
      forall run, actions, k | IsRun(run, actions, limits) && run[0] == s && 0 <= k < |run|
        ensures NoneDue(run[k])
      {
        StableAlways(run, actions, limits, k);
      }
    } else {
      var i :| 0 <= i < |s.backups| && !Covers(s.backups[i], s.master.config.interval, limits);
      UncoveredFalls(master, backups, addresses, limits, i);
    }
  }
}
