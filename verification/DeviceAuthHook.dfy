/** The device-code hook as it runs: the browser's timers, the store of the two
    handles, and the hook's state, changed in place. Each method is one step of
    `DeviceAuth`; `Snapshot` gives the state those steps speak of. */
module DeviceAuthHook {
  import opened Tables
  import D = DeviceAuth
  import Proofs = DeviceAuthProofs
  import Effects = DeviceAuthEffects

  /** The active timers and the clock. */
  class Browser {
    var timers: map<int, D.Timer>
    var nextTimer: int
    var now: int

    constructor (start: int)
      ensures timers == map[] && nextTimer == 0 && now == start
    {
      timers, nextTimer, now := map[], 0, start;
    }

    method SetTimer(callback: D.Callback, delay: int) returns (id: int)
      modifies this`timers, this`nextTimer
      ensures id == old(nextTimer) && nextTimer == id + 1
      ensures timers == old(timers)[id := D.Timer(callback, now + delay)]
    {
      id := nextTimer;
      timers := timers[id := D.Timer(callback, now + delay)];
      nextTimer := nextTimer + 1;
    }

    method ClearTimer(id: int)
      modifies this`timers
      ensures timers == old(timers) - {id}
    {
      timers := timers - {id};
    }
  }

  /** Holds at most one poll timer and one countdown. */
  class TimerStore {
    const browser: Browser
    var pollTimer: Option<int>
    var countdownTimer: Option<int>

    constructor (browser: Browser)
      ensures this.browser == browser && pollTimer.None? && countdownTimer.None?
    {
      this.browser := browser;
      pollTimer, countdownTimer := None, None;
    }

    method ClearPoll()
      modifies this`pollTimer, browser`timers
      ensures pollTimer.None?
      ensures browser.timers == old(browser.timers) - (if old(pollTimer).None? then {} else {old(pollTimer).value})
    {
      if pollTimer.Some? {
        browser.ClearTimer(pollTimer.value);
        pollTimer := None;
      }
    }

    method ClearCountdown()
      modifies this`countdownTimer, browser`timers
      ensures countdownTimer.None?
      ensures browser.timers == old(browser.timers) - (if old(countdownTimer).None? then {} else {old(countdownTimer).value})
    {
      if countdownTimer.Some? {
        browser.ClearTimer(countdownTimer.value);
        countdownTimer := None;
      }
    }

    method ClearAll()
      modifies this, browser`timers
      ensures pollTimer.None? && countdownTimer.None?
      ensures browser.timers == old(browser.timers)
                                - (if old(pollTimer).None? then {} else {old(pollTimer).value})
                                - (if old(countdownTimer).None? then {} else {old(countdownTimer).value})
    {
      ClearPoll();
      ClearCountdown();
    }

    method SchedulePoll(callback: D.Callback, delay: int)
      modifies this`pollTimer, browser`timers, browser`nextTimer
      ensures pollTimer == Some(old(browser.nextTimer)) && browser.nextTimer == old(browser.nextTimer) + 1
      ensures browser.timers == (old(browser.timers) - (if old(pollTimer).None? then {} else {old(pollTimer).value}))
                                [old(browser.nextTimer) := D.Timer(callback, browser.now + delay)]
    {
      ClearPoll();
      var id := browser.SetTimer(callback, delay);
      pollTimer := Some(id);
    }

    method ScheduleCountdown(callback: D.Callback)
      modifies this`countdownTimer, browser`timers, browser`nextTimer
      ensures countdownTimer == Some(old(browser.nextTimer)) && browser.nextTimer == old(browser.nextTimer) + 1
      ensures browser.timers == (old(browser.timers) - (if old(countdownTimer).None? then {} else {old(countdownTimer).value}))
                                [old(browser.nextTimer) := D.Timer(callback, browser.now + D.SECOND)]
    {
      ClearCountdown();
      var id := browser.SetTimer(callback, D.SECOND);
      countdownTimer := Some(id);
    }
  }

  class HookInstance {
    const timers: TimerStore
    var phase: D.Phase
    var session: Option<D.Session>
    var error: Option<string>
    var timeLeft: Option<int>
    var generation: nat
    var mounted: bool

    // what is awaited of the outside, and what only observers look at
    ghost var initiating: set<nat>
    ghost var flights: multiset<D.Callback>
    ghost var endings: seq<D.Ending>
    ghost var since: int
    ghost var polls: nat
    ghost var earned: int
    var successCalls: nat

    ghost function Snapshot(): D.Hook
      reads this, timers, timers.browser
    {
      D.Hook(phase, session, error, timeLeft, generation, mounted,
             timers.pollTimer, timers.countdownTimer, timers.browser.timers, timers.browser.nextTimer,
             initiating, flights, timers.browser.now, endings, successCalls, since, polls, earned)
    }

    /** The hook's invariant, of the objects as they are. */
    ghost predicate Valid()
      reads this, timers, timers.browser
    {
      D.Inv(Snapshot())
    }

    constructor (browser: Browser)
      requires browser.timers == map[] && browser.nextTimer == 0
      ensures fresh(timers) && timers.browser == browser
      ensures Valid() && Snapshot() == D.Mounted(browser.now)
    {
      Proofs.MountedInv(browser.now);
      timers := new TimerStore(browser);
      phase, session, error, timeLeft, generation, mounted := D.Idle, None, None, None, 0, true;
      initiating, flights, endings, since, polls, earned, successCalls := {}, multiset{}, [], browser.now, 0, 0, 0;
    }

    method Invalidate() returns (run: nat)
      modifies this`generation, timers, timers.browser`timers
      ensures run == generation == old(generation) + 1 && timers.pollTimer.None? && timers.countdownTimer.None?
      ensures Snapshot() == D.Invalidate(old(Snapshot()))
    {
      generation := generation + 1;
      timers.ClearAll();
      run := generation;
    }

    /** Cleanups and effects of a commit outside polling. */
    method LeavePolling()
      modifies this`timeLeft, timers, timers.browser`timers
      ensures timeLeft.None? && timers.pollTimer.None? && timers.countdownTimer.None?
      ensures Snapshot() == D.LeavePolling(old(Snapshot()))
    {
      timers.ClearAll();
      timeLeft := None;
    }

    method Expire(run: nat)
      modifies this, timers, timers.browser`timers
      ensures Snapshot() == D.Expire(old(Snapshot()), run)
    {
      hide D.Invalidate;
      var _ := Invalidate();
      timeLeft := None;
      phase := D.Error;
      error := Some(D.EXPIRED);
      endings := endings + [D.Expired(run)];
    }

    method Tick(run: nat, current: D.Session)
      modifies this, timers, timers.browser`timers
      ensures Snapshot() == D.Tick(old(Snapshot()), run, current)
    {
      hide D.Expire;
      if generation != run {
        return;
      }
      var left := current.expiresAtMs - timers.browser.now;
      var remaining := if left < 0 then 0 else left / D.SECOND;
      if remaining > 0 {
        timeLeft := Some(remaining);
      } else {
        Expire(run);
      }
    }

    method SchedulePoll(flight: D.Callback)
      modifies timers`pollTimer, timers.browser`timers, timers.browser`nextTimer
      ensures Snapshot() == D.SchedulePoll(old(Snapshot()), flight, D.Delay(flight.session))
    {
      timers.SchedulePoll(flight, D.Delay(flight.session));
    }

    method ScheduleCountdown(callback: D.Callback)
      modifies timers`countdownTimer, timers.browser`timers, timers.browser`nextTimer
      ensures Snapshot() == D.ScheduleCountdown(old(Snapshot()), callback)
    {
      timers.ScheduleCountdown(callback);
    }

    method EnterPolling(current: D.Session)
      modifies this, timers, timers.browser
      ensures Snapshot() == D.EnterPolling(old(Snapshot()), current)
    {
      hide D.SchedulePoll, D.ScheduleCountdown, D.Tick, D.ClearAll, D.Delay;
      var run := generation;
      SchedulePoll(D.Poll(run, current));
      since, polls, earned := timers.browser.now, 0, 0;
      Tick(run, current);
      ScheduleCountdown(D.Countdown(run, current));
      if phase != D.Polling {
        LeavePolling();
      }
    }

    method Cancel()
      requires Valid()
      modifies this, timers, timers.browser
      ensures Valid() && Snapshot() == D.Cancel(old(Snapshot()))
    {
      hide D.Inv, D.Invalidate, D.LeavePolling;
      Proofs.StartKeepsInv(Snapshot());
      var _ := Invalidate();
      if mounted {
        phase, session, error, timeLeft := D.Idle, None, None, None;
        LeavePolling();
      }
    }

    /** Up to where `initiate` is awaited. */
    method Start() returns (run: nat)
      requires Valid()
      modifies this, timers, timers.browser
      ensures Valid() && run == generation && Snapshot() == D.Start(old(Snapshot()))
    {
      hide D.Inv, D.Invalidate, D.LeavePolling;
      Proofs.StartKeepsInv(Snapshot());
      run := Invalidate();
      initiating := initiating + {run};
      if mounted {
        phase, session, error, timeLeft := D.Loading, None, None, None;
        LeavePolling();
      }
    }

    method Initiated(run: nat, current: D.Session, thrown: Option<string>)
      requires Valid() && run in initiating
      modifies this, timers, timers.browser
      ensures Valid() && Snapshot() == D.Initiated(old(Snapshot()), run, current, thrown)
    {
      hide D.Inv, D.EnterPolling, D.LeavePolling;
      Proofs.InitiatedKeepsInv(Snapshot(), run, current, thrown);
      initiating := initiating - {run};
      if !mounted || generation != run {
        return;
      }
      session, phase := Some(current), D.Polling;
      if thrown.None? {
        EnterPolling(current);
      } else {
        phase, error := D.Error, thrown;
        endings := endings + [D.NotStarted(run)];
        LeavePolling();
      }
    }

    method InitiateFailed(run: nat, message: string)
      requires Valid() && run in initiating
      modifies this, timers, timers.browser
      ensures Valid() && Snapshot() == D.InitiateFailed(old(Snapshot()), run, message)
    {
      hide D.Inv, D.EnterPolling, D.LeavePolling;
      Proofs.InitiateFailedKeepsInv(Snapshot(), run, message);
      initiating := initiating - {run};
      if !mounted || generation != run {
        return;
      }
      phase, error := D.Error, Some(message);
      endings := endings + [D.NotStarted(run)];
      LeavePolling();
    }

    method Unmount()
      requires Valid()
      modifies this, timers, timers.browser
      ensures Valid() && Snapshot() == D.Unmount(old(Snapshot()))
    {
      hide D.Inv, D.Invalidate, D.LeavePolling;
      Proofs.StartKeepsInv(Snapshot());
      mounted := false;
      var _ := Invalidate();
    }

    /** The poll timer fires: up to where `poll` is awaited. */
    method Execute(flight: D.Callback)
      modifies this
      ensures Snapshot() == (if old(generation) != flight.run then old(Snapshot())
                             else old(Snapshot()).(flights := old(flights) + multiset{flight}, polls := old(polls) + 1,
                                                   earned := old(earned) + D.Delay(flight.session)))
    {
      if generation != flight.run {
        return;
      }
      flights, polls, earned := flights + multiset{flight}, polls + 1, earned + D.Delay(flight.session);
    }

    method PollAnswered(flight: D.Callback, outcome: D.PollOutcome)
      requires Valid() && flight in flights
      modifies this, timers, timers.browser
      ensures Valid() && Snapshot() == D.PollAnswered(old(Snapshot()), flight, outcome)
      ensures flights == old(flights) - multiset{flight} && session == old(session)
      ensures old(generation) != flight.run ==>
                phase == old(phase) && error == old(error) && endings == old(endings) && successCalls == old(successCalls)
      ensures old(generation) == flight.run && outcome.Authorized? ==>
                && phase == D.Success && error == old(error) && successCalls == old(successCalls) + 1
                && endings == old(endings) + [D.Won(flight.run)] && timers.browser.timers == map[]
      ensures old(generation) == flight.run && outcome.Denied? ==>
                && phase == D.Error && error == Some(outcome.message) && successCalls == old(successCalls)
                && endings == old(endings) + [D.Refused(flight.run)] && timers.browser.timers == map[]
      ensures old(generation) == flight.run && (outcome.Pending? || outcome.Thrown?) ==>
                && phase == D.Polling && error == old(error) && successCalls == old(successCalls) && endings == old(endings)
                && Effects.PollDue(Snapshot(), flight.run, flight.session)
    {
      hide D.Inv, D.SchedulePoll, D.Finish, D.Delay;
      Proofs.PollAnsweredKeepsInv(Snapshot(), flight, outcome);
      if generation == flight.run {
        Effects.PollDecides(Snapshot(), flight, outcome);
      }
      flights := flights - multiset{flight};
      if generation != flight.run {
        return;
      }
      if outcome.Pending? || outcome.Thrown? {
        SchedulePoll(flight);
      } else {
        Finish(flight.run, outcome);
      }
    }

    method Refuse(run: nat, message: string)
      modifies this, timers, timers.browser`timers
      ensures Snapshot() == D.Finish(old(Snapshot()), run, D.Denied(message))
      ensures generation == old(generation) + 1 && timeLeft.None? && timers.pollTimer.None? && timers.countdownTimer.None?
      ensures phase == D.Error && error == Some(message)
      ensures successCalls == old(successCalls) && endings == old(endings) + [D.Refused(run)]
    {
      hide D.Invalidate, D.LeavePolling;
      var _ := Invalidate();
      timeLeft := None;
      phase := D.Error;
      error := Some(message);
      endings := endings + [D.Refused(run)];
      LeavePolling();
    }

    method Succeed(run: nat)
      modifies this, timers, timers.browser`timers
      ensures Snapshot() == D.Finish(old(Snapshot()), run, D.Authorized)
      ensures generation == old(generation) + 1 && timeLeft.None? && timers.pollTimer.None? && timers.countdownTimer.None?
      ensures phase == D.Success && error == old(error)
      ensures successCalls == old(successCalls) + 1 && endings == old(endings) + [D.Won(run)]
    {
      hide D.Invalidate, D.LeavePolling;
      var _ := Invalidate();
      timeLeft := None;
      phase := D.Success;
      successCalls := successCalls + 1;
      endings := endings + [D.Won(run)];
      LeavePolling();
    }

    method Finish(run: nat, outcome: D.PollOutcome)
      requires outcome.Authorized? || outcome.Denied?
      modifies this, timers, timers.browser`timers
      ensures Snapshot() == D.Finish(old(Snapshot()), run, outcome)
      ensures generation == old(generation) + 1 && timeLeft.None? && timers.pollTimer.None? && timers.countdownTimer.None?
      ensures outcome.Denied? ==>
                && phase == D.Error && error == Some(outcome.message)
                && successCalls == old(successCalls) && endings == old(endings) + [D.Refused(run)]
      ensures outcome.Authorized? ==>
                && phase == D.Success && error == old(error)
                && successCalls == old(successCalls) + 1 && endings == old(endings) + [D.Won(run)]
    {
      hide D.Finish;
      if outcome.Denied? {
        Refuse(run, outcome.message);
      } else {
        Succeed(run);
      }
    }

    /** An active timer fires: once for a poll, every second for the countdown. */
    method Fire(id: int)
      requires Valid() && id in timers.browser.timers
      modifies this, timers, timers.browser
      ensures Valid() && Snapshot() == D.Fire(old(Snapshot()), id)
    {
      hide D.Inv, D.Tick, D.LeavePolling, D.Delay;
      Proofs.FireKeepsInv(Snapshot(), id);
      var browser := timers.browser;
      var callback, due := browser.timers[id].callback, browser.timers[id].due;
      match callback {
        case Poll(run, current) =>
          browser.timers := browser.timers - {id};
          Execute(callback);
        case Countdown(run, current) =>
          browser.timers := browser.timers[id := D.Timer(callback, due + D.SECOND)];
          var before := phase;
          Tick(run, current);
          if phase != before {
            LeavePolling();
          }
      }
    }
  }
}
