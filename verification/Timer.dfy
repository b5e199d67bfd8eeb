/** One-shot timers on a timerfd. Time is a ghost clock in milliseconds. */
module Timers {

  datatype Option<T> = None | Some(value: T)

  /** armed is the flag of the class; deadline is when the descriptor becomes
      readable, if it ever does. */
  datatype TimerState = TimerState(armed: bool, deadline: Option<nat>)

  const IDLE := TimerState(false, None)

  /** A zero it_value disarms a timerfd, so a timer started with 0 is armed but
      has no deadline. */
  function Started(msec: nat, now: nat): TimerState {
    TimerState(true, if msec == 0 then None else Some(now + msec))
  }

  function Stopped(t: TimerState): TimerState {
    if t.armed then IDLE else t
  }

  predicate Due(t: TimerState, now: nat) {
    t.armed && t.deadline.Some? && t.deadline.value <= now
  }

  class Timer {
    var armed: bool
    ghost var deadline: Option<nat>

    constructor ()
      ensures Value() == IDLE
    {
      armed, deadline := false, None;
    }

    ghost function Value(): TimerState
      reads this
    {
      TimerState(armed, deadline)
    }

    /** The effect of timerfd_settime with a relative it_value. */
    ghost method SetTime(seconds: nat, nanoseconds: nat, now: nat)
      requires nanoseconds < 1_000_000_000
      modifies this`deadline
      ensures deadline == if seconds == 0 && nanoseconds == 0 then None
                          else Some(now + 1000 * seconds + nanoseconds / 1_000_000)
    {
      deadline := if seconds == 0 && nanoseconds == 0 then None
                  else Some(now + 1000 * seconds + nanoseconds / 1_000_000);
    }

    method Start(msec: nat, ghost now: nat)
      modifies this
      ensures Value() == Started(msec, now)
    {
      SetTime(msec / 1000, (msec % 1000) * 1_000_000, now);
      armed := true;
    }

    method Stop()
      modifies this
      ensures Value() == Stopped(old(Value()))
    {
      if armed {
        SetTime(0, 0, 0);
        armed := false;
      }
    }
  }
}
