/** The Master falls silent: which Backup takes over, and whether the others let
    it, on a network with bounded consecutive losses and bounded delay. */
module Takeover {
  import opened Timers
  import opened RouterSpec
  import opened RouterSteps
  import opened Stability
  import ElectionTimes

  // A system whose master is a candidate: the Backup whose time runs out first.

  datatype Move =
    | Idle(msec: nat)
    | Impatience(b: nat)            // another backup's master-down timer, if due
    | Expire(lostFor: set<nat>)     // the candidate's; its first advertisement may be lost
    | Then(action: Action)          // once there is a Master again

  ghost predicate Permitted(s: System, m: Move, limits: Limits) {
    s.master.config.interval <= 4095 &&
    match m
    case Idle(msec) =>
      s.master.state == Backup && (forall t :: s.master.masterDown.deadline == Some(t) ==> s.master.now + msec <= t)
    case Impatience(b) => b < |s.backups|
    case Expire(lostFor) =>
      s.master.state == Backup && Due(s.master.masterDown, s.master.now) &&
      (forall b :: 0 <= b < |s.channels| && b in lostFor ==> s.channels[b].lost < limits.losses)
    case Then(action) => s.master.state == Master && Allowed(s, action, limits)
  }

  ghost function Moved(s: System, m: Move, limits: Limits): System
    requires Permitted(s, m, limits)
  {
    match m
    case Idle(msec) =>
      s.(master := Step(s.master, Elapse(msec)),
         backups := seq(|s.backups|, b requires 0 <= b < |s.backups| => Step(s.backups[b], Elapse(msec))))
    case Impatience(b) => s.(backups := s.backups[b := Step(s.backups[b], MasterDownTimer)])
    case Expire(lostFor) =>
      s.(master := Step(s.master, MasterDownTimer), lastSent := s.master.now,
         channels := seq(|s.channels|, b requires 0 <= b < |s.channels| =>
           Sent(s.channels[b], b in lostFor, s.master.now)))
    case Then(action) => Act(s, action, limits)
  }

  // ---------------------------------------------------------------- invariant

  ghost predicate Candidate(r: Router, takeover: nat) {
    && r.state == Backup && r.masterDown == TimerState(true, Some(takeover)) && r.now <= takeover
    && Sender(r)
  }

  /** The channels before the takeover, as if the candidate had been heard one
      period earlier. */
  function Fresh(takeover: nat, period: nat): Channel {
    Channel(takeover - period, [], 0)
  }

  ghost predicate Patient(s: System, i: nat, takeover: nat, limits: Limits)
    requires i < |s.backups|
  {
    var b := s.backups[i];
    && BackupOf(s.master, b) && Covers(b, s.master.config.interval, limits)
    && takeover - Period(s) + Silence(Period(s), limits) < b.masterDown.deadline.value
  }

  ghost predicate Waiting(s: System, takeover: nat, limits: Limits) {
    && Candidate(s.master, takeover) && |s.backups| == |s.channels|
    && forall i :: 0 <= i < |s.backups| ==>
         Patient(s, i, takeover, limits) && s.channels[i] == Fresh(takeover, Period(s))
  }

  /** Before the takeover everybody waits; afterwards the system is stable. */
  ghost predicate Orderly(s: System, takeover: nat, limits: Limits) {
    Waiting(s, takeover, limits) || (Stable(s, limits) && s.master.now >= takeover)
  }

  lemma PatientIsNotDue(s: System, i: nat, takeover: nat, limits: Limits)
    requires Waiting(s, takeover, limits) && i < |s.backups|
    ensures !Due(s.backups[i].masterDown, s.backups[i].now)
  {
    hide Covers;
    assert Patient(s, i, takeover, limits);
    assert limits.losses * Period(s) + Period(s) == (limits.losses + 1) * Period(s);
  }

  lemma CandidateExpires(r: Router, takeover: nat)
    requires Candidate(r, takeover) && Due(r.masterDown, r.now)
    ensures var m := Step(r, MasterDownTimer);
      r.now == takeover && m.state == Master && m.config == r.config && m.now == r.now &&
      m.adver == TimerState(true, Some(takeover + 10 * r.config.interval))
  {
    hide BecomeMaster, Added, EntryItems;
    EntryForm(r.(masterDown := IDLE), r.pending);
  }

  lemma FirstSending(takeover: nat, lost: bool, period: nat, limits: Limits)
    requires lost ==> 0 < limits.losses
    ensures Chained(Sent(Fresh(takeover, period), lost, takeover), takeover, period, limits)
    ensures period > 0 ==> InTime(Sent(Fresh(takeover, period), lost, takeover), takeover, limits)
    ensures Sent(Fresh(takeover, period), lost, takeover).newest == takeover - period
  {}

  lemma ExpireFollows(s: System, lostFor: set<nat>, takeover: nat, limits: Limits, i: nat)
    requires Waiting(s, takeover, limits) && Permitted(s, Expire(lostFor), limits) && i < |s.backups|
    ensures Follows(Moved(s, Expire(lostFor), limits), i, limits)
  {
    hide Step, Chained, InTime, Covers, Silence, Sent, Fresh;
    assert Patient(s, i, takeover, limits);
    CandidateExpires(s.master, takeover);
    assert Fresh(takeover, Period(s)).lost == 0 by { FreshIs(takeover, Period(s)); }
    FirstSending(takeover, i in lostFor, Period(s), limits);
  }

  lemma FreshIs(takeover: nat, period: nat)
    ensures Fresh(takeover, period).lost == 0
  {}

  lemma ExpireStable(s: System, lostFor: set<nat>, takeover: nat, limits: Limits)
    requires Waiting(s, takeover, limits) && Permitted(s, Expire(lostFor), limits)
    ensures var s' := Moved(s, Expire(lostFor), limits); Stable(s', limits) && s'.master.now >= takeover
  {
    hide Step, Follows, Patient;
    var s' := Moved(s, Expire(lostFor), limits);
    CandidateExpires(s.master, takeover);
    forall i | 0 <= i < |s'.backups|
      ensures Follows(s', i, limits)
    {
      ExpireFollows(s, lostFor, takeover, limits, i);
    }
  }

  lemma IdleWaits(s: System, msec: nat, takeover: nat, limits: Limits)
    requires Waiting(s, takeover, limits) && Permitted(s, Idle(msec), limits)
    ensures Waiting(Moved(s, Idle(msec), limits), takeover, limits)
  {
    hide Step, MasterDownInterval, Silence;
    var s' := Moved(s, Idle(msec), limits);
    TimePasses(s.master, msec);
    forall i | 0 <= i < |s'.backups|
      ensures Patient(s', i, takeover, limits) && s'.channels[i] == Fresh(takeover, Period(s'))
    {
      assert Patient(s, i, takeover, limits);
      TimePasses(s.backups[i], msec);
    }
  }

  lemma ImpatienceIdles(s: System, b: nat, takeover: nat, limits: Limits)
    requires Orderly(s, takeover, limits) && Permitted(s, Impatience(b), limits)
    ensures Moved(s, Impatience(b), limits) == s
  {
    hide Stable, Waiting;
    if Waiting(s, takeover, limits) {
      PatientIsNotDue(s, b, takeover, limits);
    } else {
      NotDue(s, b, limits);
    }
    assert s.backups[b := s.backups[b]] == s.backups;
  }

  lemma StableMaster(s: System, limits: Limits)
    requires Stable(s, limits)
    ensures s.master.state == Master
  {}

  lemma ActTime(s: System, a: Action, limits: Limits)
    requires Stable(s, limits) && Allowed(s, a, limits)
    ensures Act(s, a, limits).master.now >= s.master.now
  {
    hide Follows;
    if a.Send? {
      MasterAdvertises(s);
    }
  }

  lemma MovedOrderly(s: System, m: Move, takeover: nat, limits: Limits)
    requires Orderly(s, takeover, limits) && Permitted(s, m, limits)
    ensures Orderly(Moved(s, m, limits), takeover, limits)
  {
    hide Stable, Patient, Act, Allowed;
    if Stable(s, limits) {
      StableMaster(s, limits);
    }
    match m
    case Idle(msec) => IdleWaits(s, msec, takeover, limits);
    case Impatience(b) => ImpatienceIdles(s, b, takeover, limits);
    case Expire(lostFor) => ExpireStable(s, lostFor, takeover, limits);
    case Then(action) =>
      ActStable(s, action, limits);
      ActTime(s, action, limits);
  }

  // --------------------------------------------------------------------- runs

  ghost predicate IsMove(s: System, m: Move, s': System, limits: Limits) {
    Permitted(s, m, limits) && s' == Moved(s, m, limits)
  }

  ghost predicate IsTakeover(run: seq<System>, moves: seq<Move>, limits: Limits) {
    && |run| == |moves| + 1
    && forall k :: 0 <= k < |moves| ==> IsMove(run[k], moves[k], run[k + 1], limits)
  }

  lemma {:induction false} OrderlyAlways(run: seq<System>, moves: seq<Move>, takeover: nat, limits: Limits, k: nat)
    requires IsTakeover(run, moves, limits) && k < |run| && Waiting(run[0], takeover, limits)
    ensures Orderly(run[k], takeover, limits)
  {
    hide Waiting, Stable, IsMove;
    if k > 0 {
      OrderlyAlways(run, moves, takeover, limits, k - 1);
      assert IsMove(run[k - 1], moves[k - 1], run[k], limits);
      OneMove(run[k - 1], moves[k - 1], run[k], takeover, limits);
    }
  }

  lemma OneMove(s: System, m: Move, s': System, takeover: nat, limits: Limits)
    requires IsMove(s, m, s', limits) && Orderly(s, takeover, limits)
    ensures Orderly(s', takeover, limits)
  {
    hide Orderly, Permitted, Moved;
    MovedOrderly(s, m, takeover, limits);
  }

  /** The outcome: the others are Backup and not due to time out, and the candidate
      is Backup before its time and Master after it. */
  ghost predicate Succeeds(s: System, takeover: nat) {
    && NoneDue(s) && (forall i :: 0 <= i < |s.backups| ==> s.backups[i].state == Backup)
    && (s.master.state == Backup || s.master.state == Master)
    && (s.master.now < takeover ==> s.master.state == Backup)
    && (s.master.now > takeover ==> s.master.state == Master)
  }

  lemma OrderlySucceeds(s: System, takeover: nat, limits: Limits)
    requires Orderly(s, takeover, limits)
    ensures Succeeds(s, takeover)
  {
    forall i | 0 <= i < |s.backups|
      ensures !Due(s.backups[i].masterDown, s.backups[i].now) && s.backups[i].state == Backup
    {
      if Waiting(s, takeover, limits) {
        PatientIsNotDue(s, i, takeover, limits);
        assert Patient(s, i, takeover, limits);
      } else {
        NotDue(s, i, limits);
        assert Follows(s, i, limits);
      }
    }
  }

  // ------------------------------------------------------------- the takeover

  /** When a backup that accepts the advertisement now will time out. */
  function Expiry(r: Router, last: Event): nat
    requires last.Receive?
  {
    r.now + 10 * MasterDownInterval(r.config.priority, last.interval)
  }

  /** Backups about to accept their last advertisement of the old Master, each at
      its own time, and a moment when all have done so and the candidate is still
      waiting. The candidate has the highest priority. */
  ghost predicate Orphans(candidate: Router, backups: seq<Router>, last: Event, start: nat) {
    && last.Receive? && last.priority != 0 && last.interval != 0
    && candidate.state == Backup && Accepts(candidate, last.priority)
    && Sender(candidate) && candidate.now <= start <= Expiry(candidate, last)
    && (forall i :: 0 <= i < |backups| ==>
          backups[i].state == Backup && backups[i].now <= start && Accepts(backups[i], last.priority) &&
          1 <= backups[i].config.priority <= candidate.config.priority)
  }

  function Waited(r: Router, last: Event, start: nat): Router
    requires r.now <= start
  {
    Step(Step(r, last), Elapse(start - r.now))
  }

  ghost function Orphaned(candidate: Router, backups: seq<Router>, last: Event, start: nat): (s: System)
    requires Orphans(candidate, backups, last, start)
    ensures |s.backups| == |s.channels| == |backups|
  {
    var channel := Fresh(Expiry(candidate, last), 10 * candidate.config.interval);
    System(Waited(candidate, last, start),
           seq(|backups|, i requires 0 <= i < |backups| => Waited(backups[i], last, start)),
           seq(|backups|, _ => channel), start)
  }

  /** How much later than the candidate a backup times out. */
  function Gap(candidate: Router, b: Router, last: Event): int
    requires last.Receive?
  {
    Expiry(b, last) - Expiry(candidate, last)
  }

  /** The candidate is heard by b before b's own time runs out, and often enough
      afterwards. */
  ghost predicate Heeded(candidate: Router, b: Router, last: Event, limits: Limits)
    requires last.Receive?
  {
    && limits.losses * (10 * candidate.config.interval) + limits.delay < Gap(candidate, b, last)
    && Covers(b, candidate.config.interval, limits)
  }

  lemma HearsLast(r: Router, last: Event, start: nat)
    requires r.state == Backup && last.Receive? && last.priority != 0 && last.interval != 0
    requires Accepts(r, last.priority) && r.now <= start
    ensures var b := Waited(r, last, start);
      b.state == Backup && b.config == r.config && b.now == start &&
      b.masterDown == TimerState(true, Some(Expiry(r, last)))
  {}

  lemma OrphanPatient(candidate: Router, backups: seq<Router>, last: Event, start: nat, limits: Limits, i: nat)
    requires Orphans(candidate, backups, last, start) && i < |backups| && Heeded(candidate, backups[i], last, limits)
    ensures Patient(Orphaned(candidate, backups, last, start), i, Expiry(candidate, last), limits)
  {
    hide Step, Waited, MasterDownInterval;
    HearsLast(candidate, last, start);
    HearsLast(backups[i], last, start);
    var period := 10 * candidate.config.interval;
    assert (limits.losses + 1) * period == limits.losses * period + period;
  }

  lemma OrphansWait(candidate: Router, backups: seq<Router>, last: Event, start: nat, limits: Limits)
    requires Orphans(candidate, backups, last, start)
    requires forall i :: 0 <= i < |backups| ==> Heeded(candidate, backups[i], last, limits)
    ensures Waiting(Orphaned(candidate, backups, last, start), Expiry(candidate, last), limits)
  {
    hide Step, Waited, MasterDownInterval, Patient, Heeded;
    HearsLast(candidate, last, start);
    forall i | 0 <= i < |backups|
      ensures Patient(Orphaned(candidate, backups, last, start), i, Expiry(candidate, last), limits)
    {
      OrphanPatient(candidate, backups, last, start, limits, i);
    }
  }

  /** Takeover. Backups have accepted their last advertisement of the old Master,
      each at its own time, and each of the others times out later than the
      candidate by more than what losses and delay can hold up its first
      advertisement. Then in
      every run the candidate, and nobody else, becomes Master, when its time
      runs out and not before, and stays Master. */
  lemma CandidateTakesOver(candidate: Router, backups: seq<Router>, last: Event, start: nat, limits: Limits,
                           run: seq<System>, moves: seq<Move>, k: nat)
    requires Orphans(candidate, backups, last, start)
    requires forall i :: 0 <= i < |backups| ==> Heeded(candidate, backups[i], last, limits)
    requires IsTakeover(run, moves, limits) && run[0] == Orphaned(candidate, backups, last, start) && k < |run|
    ensures Succeeds(run[k], Expiry(candidate, last))
  {
    hide Waiting, Orderly, Succeeds, Heeded, Orphaned, IsMove;
    OrphansWait(candidate, backups, last, start, limits);
    OrderlyAlways(run, moves, Expiry(candidate, last), limits, k);
    OrderlySucceeds(run[k], Expiry(candidate, last), limits);
  }

  /** With an advertised interval of at least 255 centiseconds and no losses any
      difference of priorities is enough, if delay and lead in acceptance together
      stay below 10 ms. */
  lemma AnyDifferenceIsHeeded(candidate: Router, b: Router, last: Event, delay: nat)
    requires last.Receive? && last.interval >= 255 && delay < 10 && candidate.now + delay < b.now + 10
    requires 1 <= b.config.priority < candidate.config.priority && 1 <= candidate.config.interval
    ensures Heeded(candidate, b, last, Limits(0, delay))
  {
    ElectionTimes.StrictlyOrderedExact(last.interval);
    ElectionTimes.MasterDownBounds(b.config.priority, b.config.priority, candidate.config.interval);
  }

  // ------------------------------------------------------- the exact condition

  /** No run from s ever lets another backup time out. */
  ghost predicate NobodyElse(s: System, limits: Limits) {
    forall run, moves, k :: IsTakeover(run, moves, limits) && run[0] == s && 0 <= k < |run| ==> NoneDue(run[k])
  }

  ghost predicate Reaches(run: seq<System>, moves: seq<Move>, first: System, s: System, limits: Limits) {
    IsTakeover(run, moves, limits) && run[0] == first && run[|run| - 1] == s
  }

  lemma Prolong(run: seq<System>, moves: seq<Move>, first: System, s: System, m: Move, limits: Limits)
    requires Reaches(run, moves, first, s, limits) && Permitted(s, m, limits)
    ensures Reaches(run + [Moved(s, m, limits)], moves + [m], first, Moved(s, m, limits), limits)
  {
    hide Permitted, Moved;
    var run', moves' := run + [Moved(s, m, limits)], moves + [m];
    forall k | 0 <= k < |moves'|
      ensures IsMove(run'[k], moves'[k], run'[k + 1], limits)
    {
      assert k < |moves| ==> IsMove(run[k], moves[k], run[k + 1], limits);
    }
  }

  /** A run of a system with a Master is the end of a takeover. */
  lemma {:induction false} Append(run: seq<System>, moves: seq<Move>, first: System, middle: System,
                                  more: seq<System>, actions: seq<Action>, last: System, limits: Limits)
    returns (run': seq<System>, moves': seq<Move>)
    requires Reaches(run, moves, first, middle, limits) && Leads(more, actions, middle, last, limits)
    ensures Reaches(run', moves', first, last, limits)
    decreases |actions|
  {
    hide Permitted, Moved, Act, Allowed;
    if actions == [] {
      run', moves' := run, moves;
    } else {
      var n := |actions| - 1;
      assert IsStep(more[n], actions[n], more[n + 1], limits);
      assert Leads(more[..n + 1], actions[..n], middle, more[n], limits) by {
        forall k | 0 <= k < n
          ensures IsStep(more[..n + 1][k], actions[..n][k], more[..n + 1][k + 1], limits)
        {
          assert IsStep(more[k], actions[k], more[k + 1], limits);
        }
      }
      run', moves' := Append(run, moves, first, middle, more[..n + 1], actions[..n], more[n], limits);
      ThenIsAct(more[n], actions[n], limits);
      Prolong(run', moves', first, more[n], Then(actions[n]), limits);
      run', moves' := run' + [last], moves' + [Then(actions[n])];
    }
  }

  lemma ThenIsAct(s: System, a: Action, limits: Limits)
    requires s.master.state == Master && s.master.config.interval <= 4095 && Allowed(s, a, limits)
    ensures Permitted(s, Then(a), limits) && Moved(s, Then(a), limits) == Act(s, a, limits)
  {}

  /** Everything is set for the takeover. */
  ghost predicate Ripe(s: System, candidate: Router, backups: seq<Router>, last: Event)
    requires last.Receive?
  {
    var time := Expiry(candidate, last);
    && s.master.state == Backup && s.master.config == candidate.config && s.master.now == time
    && s.master.masterDown == TimerState(true, Some(time))
    && |s.backups| == |s.channels| == |backups|
    && (forall i :: 0 <= i < |s.channels| ==> s.channels[i] == Fresh(time, 10 * candidate.config.interval))
    && (forall i :: 0 <= i < |backups| ==>
          s.backups[i].state == Backup && s.backups[i].config == backups[i].config && s.backups[i].now == time &&
          s.backups[i].masterDown == TimerState(true, Some(Expiry(backups[i], last))))
  }

  lemma Ripens(candidate: Router, backups: seq<Router>, last: Event, start: nat, limits: Limits)
    returns (run: seq<System>, moves: seq<Move>, s: System)
    requires Orphans(candidate, backups, last, start)
    ensures Reaches(run, moves, Orphaned(candidate, backups, last, start), s, limits)
    ensures Ripe(s, candidate, backups, last)
  {
    hide Step, Waited, MasterDownInterval;
    var first := Orphaned(candidate, backups, last, start);
    var m := Idle(Expiry(candidate, last) - start);
    HearsLast(candidate, last, start);
    TimePasses(first.master, m.msec);
    forall i | 0 <= i < |backups|
      ensures var b := Step(Waited(backups[i], last, start), Elapse(m.msec));
        b.state == Backup && b.config == backups[i].config && b.now == Expiry(candidate, last) &&
        b.masterDown == TimerState(true, Some(Expiry(backups[i], last)))
    {
      HearsLast(backups[i], last, start);
      TimePasses(Waited(backups[i], last, start), m.msec);
    }
    run, moves, s := [first, Moved(first, m, limits)], [m], Moved(first, m, limits);
    assert IsMove(run[0], moves[0], run[1], limits);
  }

  /** The candidate's first advertisement, lost for some. */
  lemma ExpireForm(s: System, candidate: Router, backups: seq<Router>, last: Event, lostFor: set<nat>, limits: Limits)
    requires last.Receive? && Ripe(s, candidate, backups, last) && Sender(candidate)
    requires lostFor == {} || 0 < limits.losses
    ensures Permitted(s, Expire(lostFor), limits)
    ensures var s', time, period :=
        Moved(s, Expire(lostFor), limits), Expiry(candidate, last), 10 * candidate.config.interval;
      && s'.master.state == Master && s'.master.config == candidate.config && s'.master.now == time
      && s'.master.adver == TimerState(true, Some(time + period)) && s'.lastSent == time
      && s'.backups == s.backups && |s'.channels| == |s.backups|
      && forall i :: 0 <= i < |s'.channels| ==>
           s'.channels[i] == if i in lostFor then Channel(time - period, [], 1) else Channel(time - period, [time], 0)
  {
    hide Step, MasterDownInterval, Gap;
    CandidateExpires(s.master, Expiry(candidate, last));
  }

  /** A backup that cannot be sure to hear the candidate's first advertisement in
      time. */
  lemma FirstCanMiss(candidate: Router, backups: seq<Router>, last: Event, start: nat, limits: Limits, i: nat)
    requires Orphans(candidate, backups, last, start) && i < |backups|
    requires limits.losses * (10 * candidate.config.interval) + limits.delay >= Gap(candidate, backups[i], last)
    ensures !NobodyElse(Orphaned(candidate, backups, last, start), limits)
  {
    hide Step, MasterDownInterval, Permitted, Moved, WorstChannel;
    var time, period, gap :=
      Expiry(candidate, last), 10 * candidate.config.interval, Gap(candidate, backups[i], last);
    var run, moves, s := Ripens(candidate, backups, last, start, limits);
    if gap <= 0 {
      assert Due(s.backups[i].masterDown, s.backups[i].now);
      assert !NoneDue(run[|run| - 1]);
    } else {
      var lostFor := Deprived(s, limits);
      ExpireForm(s, candidate, backups, last, lostFor, limits);
      var s' := Moved(s, Expire(lostFor), limits);
      Prolong(run, moves, Orphaned(candidate, backups, last, start), s, Expire(lostFor), limits);
      WorstChannelOne(time - period, period, limits);
      assert (limits.losses + 1) * period == limits.losses * period + period;
      assert Silent(s', s', time - period, 1, period, limits);
      var more, actions, end := SilenceStarves(s', time - period, 1, period + gap, limits, i);
      var run', moves' := Append(run + [s'], moves + [Expire(lostFor)], Orphaned(candidate, backups, last, start), s',
        more, actions, end, limits);
      assert !NoneDue(run'[|run'| - 1]);
    }
  }

  lemma WorstChannelOne(start: int, period: nat, limits: Limits)
    requires start + period >= 0
    ensures WorstChannel(start, 0, period, limits) == Channel(start, [], 0)
    ensures WorstChannel(start, 1, period, limits)
         == if limits.losses > 0 then Channel(start, [], 1) else Channel(start, [start + period], 0)
  {}

  /** s is s0 after the first n backups have received the first advertisement. */
  ghost predicate Served(s0: System, s: System, n: nat, time: nat) {
    && s.master == s0.master && s.lastSent == s0.lastSent && s0.master.config.interval <= 4095
    && |s.backups| == |s.channels| == |s0.backups| == |s0.channels| && n <= |s.backups|
    && (forall i :: 0 <= i < n ==>
          s.backups[i] == Step(s0.backups[i], Advertised(s0, [])) && s.channels[i] == Channel(time, [], 0))
    && (forall i :: n <= i < |s.backups| ==> s.backups[i] == s0.backups[i] && s.channels[i] == s0.channels[i])
  }

  lemma {:induction false} DeliverTo(run: seq<System>, moves: seq<Move>, first: System, s0: System, n: nat, time: nat,
                                     limits: Limits)
    returns (run': seq<System>, moves': seq<Move>, s: System)
    requires Reaches(run, moves, first, s0, limits) && n <= |s0.backups| == |s0.channels|
    requires s0.master.state == Master && s0.master.config.interval <= 4095
    requires forall i :: 0 <= i < |s0.channels| ==>
      s0.channels[i].pending == [time] && s0.channels[i].lost == 0
    ensures Reaches(run', moves', first, s, limits) && Served(s0, s, n, time)
  {
    hide Step;
    if n == 0 {
      run', moves', s := run, moves, s0;
    } else {
      run', moves', s := DeliverTo(run, moves, first, s0, n - 1, time, limits);
      var m := Then(Arrive(n - 1, 0, []));
      Prolong(run', moves', first, s, m, limits);
      run', moves', s := run' + [Moved(s, m, limits)], moves' + [m], Moved(s, m, limits);
    }
  }

  /** A backup that can be starved once it has heard the candidate. */
  lemma LaterCanMiss(candidate: Router, backups: seq<Router>, last: Event, start: nat, limits: Limits, i: nat)
    requires Orphans(candidate, backups, last, start) && i < |backups|
    requires !Covers(backups[i], candidate.config.interval, limits)
    ensures !NobodyElse(Orphaned(candidate, backups, last, start), limits)
  {
    hide Step, MasterDownInterval, Gap, Permitted, Moved, WorstChannel, Silence;
    var time, period := Expiry(candidate, last), 10 * candidate.config.interval;
    var first := Orphaned(candidate, backups, last, start);
    var run, moves, s := Ripens(candidate, backups, last, start, limits);
    ExpireForm(s, candidate, backups, last, {}, limits);
    var s0 := Moved(s, Expire({}), limits);
    Prolong(run, moves, first, s, Expire({}), limits);
    run, moves, s := DeliverTo(run + [s0], moves + [Expire({})], first, s0, |backups|, time, limits);
    forall j | 0 <= j < |backups|
      ensures s.backups[j].now == time && s.backups[j].masterDown ==
        TimerState(true, Some(time + 10 * MasterDownInterval(backups[j].config.priority, candidate.config.interval)))
    {
      HearsMaster(s0, s0.backups[j], []);
    }
    WorstChannelOne(time, period, limits);
    assert Silent(s, s, time, 0, 0, limits);
    var more, actions, end := SilenceStarves(s, time, 0,
      10 * MasterDownInterval(backups[i].config.priority, candidate.config.interval), limits, i);
    var run', moves' := Append(run, moves, first, s, more, actions, end, limits);
    assert !NoneDue(run'[|run'| - 1]);
  }

  /** The condition is exact: the network can bring another backup to time out
      exactly if it can hold up the candidate's first advertisement for as long as
      that backup waits longer, or starve it afterwards. */
  lemma TakeoverExact(candidate: Router, backups: seq<Router>, last: Event, start: nat, limits: Limits)
    requires Orphans(candidate, backups, last, start)
    ensures NobodyElse(Orphaned(candidate, backups, last, start), limits)
       <==> forall i :: 0 <= i < |backups| ==> Heeded(candidate, backups[i], last, limits)
  {
    hide Orphaned, Covers, Gap;
    var s := Orphaned(candidate, backups, last, start);
    if i :| 0 <= i < |backups| && !Heeded(candidate, backups[i], last, limits) {
      if Covers(backups[i], candidate.config.interval, limits) {
        FirstCanMiss(candidate, backups, last, start, limits, i);
      } else {
        LaterCanMiss(candidate, backups, last, start, limits, i);
      }
    } else {
      forall run, moves, k | IsTakeover(run, moves, limits) && run[0] == s && 0 <= k < |run|
        ensures NoneDue(run[k])
      {
        CandidateTakesOver(candidate, backups, last, start, limits, run, moves, k);
      }
    }
  }
}
