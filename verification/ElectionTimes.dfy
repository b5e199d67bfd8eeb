/** The arithmetic of section 6.1 of RFC 5798 as the code computes it, with
    integer division. */
module ElectionTimes {
  import opened Addresses
  import opened Timers
  import opened RouterSpec

  /** n * m / 256, where n is 256 minus a priority. */
  function Share(n: nat, m: nat): nat {
    n * m / 256
  }

  lemma DivisionMonotone(a: nat, b: nat)
    requires a <= b
    ensures a / 256 <= b / 256
  {}

  lemma ShareBounds(n: nat, m: nat)
    requires n <= 255
    ensures Share(n, m) <= m
    ensures m >= 1 ==> Share(n, m) < m
  {}

  lemma ShareStep(n: nat, m: nat)
    requires m >= 255 && 1 <= n <= 254
    ensures Share(n + 1, m) > Share(n, m)
  {}

  lemma {:induction false} ShareIncreases(a: nat, b: nat, m: nat)
    requires m >= 255 && 1 <= a < b <= 255
    ensures Share(a, m) < Share(b, m)
    decreases b
  {
    ShareStep(b - 1, m);
    if a < b - 1 {
      ShareIncreases(a, b - 1, m);
    }
  }

  lemma ShareMonotone(a: nat, b: nat, m: nat)
    requires a <= b
    ensures Share(a, m) <= Share(b, m)
  {
    assert a * m <= b * m;
    DivisionMonotone(a * m, b * m);
  }

  /** For any priority in use the master-down interval is at least three and
      less than four master intervals, a higher priority never waits longer, and
      no 32-bit intermediate result overflows. */
  lemma MasterDownBounds(p: Byte, q: Byte, m: nat)
    requires 1 <= p <= q && m >= 1
    ensures 3 * m <= MasterDownInterval(p, m) <= 4 * m - 1
    ensures MasterDownInterval(q, m) <= MasterDownInterval(p, m)
    ensures m <= 4095 ==> (256 - p as int) * m < 0x1_0000_0000 && 10 * MasterDownInterval(p, m) < 0x1_0000_0000
  {
    ShareBounds(256 - p, m);
    ShareMonotone(256 - q, 256 - p, m);
    assert (256 - p as int) * m <= 255 * m;
  }

  /** Waits strictly fall as the priority rises. */
  ghost predicate StrictlyOrdered(m: nat) {
    forall p: Byte, q: Byte :: 1 <= p < q ==> MasterDownInterval(q, m) < MasterDownInterval(p, m)
  }

  lemma {:induction false} StrictSharesGrow(n: nat, m: nat)
    requires StrictlyOrdered(m) && 1 <= n <= 255
    ensures Share(n, m) >= n - 1
  {
    if n > 1 {
      StrictSharesGrow(n - 1, m);
      var p: Byte, q: Byte := 256 - n, 257 - n;
      assert MasterDownInterval(q, m) < MasterDownInterval(p, m);
    }
  }

  /** Integer division keeps backups of all different priorities apart exactly
      when the master interval is at least 255 centiseconds; with the default of
      100 some of them tie. */
  lemma StrictlyOrderedExact(m: nat)
    ensures StrictlyOrdered(m) <==> m >= 255
  {
    if m >= 255 {
      forall p: Byte, q: Byte | 1 <= p < q
        ensures MasterDownInterval(q, m) < MasterDownInterval(p, m)
      {
        ShareIncreases(256 - q, 256 - p, m);
      }
    } else if StrictlyOrdered(m) {
      StrictSharesGrow(255, m);
      DivisionMonotone(255 * m, 255 * 254);
    }
  }

  /** Backups that accept the same advertisement at the same moment time out in
      the order of their priorities: never later for a higher one, and strictly
      earlier when the advertised interval is at least 255 centiseconds. */
  lemma TimeoutsFollowPriority(a: Router, b: Router, e: Event)
    requires a.state == Backup && b.state == Backup && a.now == b.now
    requires 1 <= a.config.priority < b.config.priority
    requires e.Receive? && e.priority != 0 && e.interval != 0 && Accepts(a, e.priority) && Accepts(b, e.priority)
    ensures var x, y := Step(a, e).masterDown.deadline, Step(b, e).masterDown.deadline;
      x.Some? && y.Some? && y.value <= x.value && (e.interval >= 255 ==> y.value < x.value)
  {
    MasterDownBounds(a.config.priority, b.config.priority, e.interval);
    StrictlyOrderedExact(e.interval);
    Deadline(a, e);
    Deadline(b, e);
  }

  lemma Deadline(r: Router, e: Event)
    requires r.state == Backup && e.Receive? && e.priority != 0 && e.interval != 0 && Accepts(r, e.priority)
    ensures Step(r, e).masterDown.deadline == Some(r.now + 10 * MasterDownInterval(r.config.priority, e.interval))
  {}
}
