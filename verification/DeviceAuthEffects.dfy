/** What each event does to the fields of the device-code hook. */
module DeviceAuthEffects {
  import opened Tables
  import opened DeviceAuth
  import opened DeviceAuthProofs

  /** Nothing ticks and nothing is scheduled. */
  ghost predicate Quiet(s: Hook) {
    s.timers == map[] && s.pollTimer.None? && s.countdownTimer.None? && s.timeLeft.None?
  }

  /** The two states show the same. */
  ghost predicate ShowsSame(s: Hook, s': Hook) {
    s'.phase == s.phase && s'.session == s.session && s'.error == s.error && s'.timeLeft == s.timeLeft && s'.mounted == s.mounted
  }

  /** A poll timer with this callback is active and falls due after the session's
      interval, but not before a millisecond. */
  ghost predicate PollDue(s: Hook, run: nat, session: Session) {
    && s.pollTimer.Some? && s.pollTimer.value in s.timers
    && s.timers[s.pollTimer.value].callback == Poll(run, session)
    && s.timers[s.pollTimer.value].due == s.now + if session.pollIntervalMs > 1 then session.pollIntervalMs else 1
  }

  /** The answer to a poll of the current run, which is live: success ends it in `Success` and
      calls `onSuccess`, a refusal ends it in `Error` with the message given, and
      a pending or failed poll is repeated. */
  lemma PollDecides(s: Hook, flight: Callback, outcome: PollOutcome)
    requires Inv(s) && flight in s.flights && flight.run == s.generation
    ensures Live(s)
    ensures var s' := Next(s, GotPoll(flight, outcome));
            && s'.flights == s.flights - multiset{flight} && s'.session == s.session && s'.mounted
            && (outcome.Authorized? ==>
                  && s'.phase == Success && s'.error == s.error && Quiet(s') && s'.generation == s.generation + 1
                  && s'.successCalls == s.successCalls + 1 && s'.endings == s.endings + [Won(s.generation)])
            && (outcome.Denied? ==>
                  && s'.phase == Error && s'.error == Some(outcome.message) && Quiet(s') && s'.generation == s.generation + 1
                  && s'.successCalls == s.successCalls && s'.endings == s.endings + [Refused(s.generation)])
            && (outcome.Pending? || outcome.Thrown? ==>
                  && Live(s') && ShowsSame(s, s') && PollDue(s', s.generation, flight.session)
                  && s'.generation == s.generation && s'.successCalls == s.successCalls && s'.endings == s.endings
                  && s'.countdownTimer == s.countdownTimer && s'.since == s.since && s'.polls == s.polls)
  {
    InvalidateClears(s.(flights := s.flights - multiset{flight}));
    hide Wins, LiveTimers, Concluded;
  }

  /** The answer to a poll of any earlier run is taken off the awaited ones, and that is all. */
  lemma StalePollDecides(s: Hook, flight: Callback, outcome: PollOutcome)
    requires flight in s.flights && flight.run != s.generation
    ensures Next(s, GotPoll(flight, outcome)) == s.(flights := s.flights - multiset{flight})
  {
  }

  /** A session arrives for the awaited run: with a second left it is polled and
      counted down, without it the run is over, and what `onSessionStarted` throws
      is shown. For any other run nothing happens. */
  lemma SessionDecides(s: Hook, run: nat, session: Session, thrown: Option<string>)
    requires Inv(s) && run in s.initiating
    ensures var s' := Next(s, GotSession(run, session, thrown));
            && s'.initiating == s.initiating - {run} && s'.flights == s.flights && s'.successCalls == s.successCalls
            && if !s.mounted || s.generation != run then s' == s.(initiating := s'.initiating)
               else if thrown.Some? then
                 && s'.phase == Error && s'.error == thrown && s'.session == Some(session) && Quiet(s')
                 && s'.generation == run && s'.endings == s.endings + [NotStarted(run)]
               else if session.expiresAtMs - s.now < 1000 then
                 && s'.phase == Error && s'.error == Some("Device code expired") && s'.session == Some(session) && Quiet(s')
                 && s'.generation == run + 1 && s'.endings == s.endings + [Expired(run)]
               else
                 && s'.phase == Polling && s'.error == s.error && s'.session == Some(session)
                 && s'.timeLeft == Some((session.expiresAtMs - s.now) / 1000)
                 && PollDue(s', run, session) && s'.countdownTimer.Some? && s'.countdownTimer.value in s'.timers
                 && s'.timers[s'.countdownTimer.value] == Timer(Countdown(run, session), s.now + 1000)
                 && s'.timers.Keys == {s'.pollTimer.value, s'.countdownTimer.value}
                 && s'.generation == run && s'.endings == s.endings && s'.since == s.now && s'.polls == 0
  {
    hide Wins, Concluded, LiveTimers, EnterPolling;
    if Current(s, run) {
      ClearAllClears(s);
      EnterPollingMeans(s.(initiating := s.initiating - {run}, session := Some(session), phase := Polling), session);
    }
  }

  lemma StartErrorDecides(s: Hook, run: nat, message: string)
    requires Inv(s) && run in s.initiating
    ensures var s' := Next(s, GotStartError(run, message));
            && s'.initiating == s.initiating - {run} && s'.flights == s.flights && s'.successCalls == s.successCalls
            && if !s.mounted || s.generation != run then s' == s.(initiating := s'.initiating)
               else
                 && s'.phase == Error && s'.error == Some(message) && s'.session == s.session && Quiet(s')
                 && s'.generation == run && s'.endings == s.endings + [NotStarted(run)]
  {
    ClearAllClears(s);
    hide Wins, Concluded, LiveTimers;
  }

  /** A poll timer that fires is gone and its poll is awaited. */
  lemma PollTimerDecides(s: Hook, id: int)
    requires Inv(s) && id in s.timers && s.timers[id].due <= s.now && s.timers[id].callback.Poll?
    ensures var s' := Next(s, TimerFires(id));
            && s'.timers == s.timers - {id} && s'.flights == s.flights + multiset{s.timers[id].callback}
            && ShowsSame(s, s') && s'.generation == s.generation && s'.initiating == s.initiating
            && s'.successCalls == s.successCalls && s'.endings == s.endings && s'.since == s.since && s'.polls == s.polls + 1
  {
    hide Wins, Concluded;
  }

  /** A countdown that fires shows the whole seconds left and is due again a second
      later, or ends the run when none is left. */
  lemma CountdownDecides(s: Hook, id: int)
    requires Inv(s) && id in s.timers && s.timers[id].due <= s.now && s.timers[id].callback.Countdown?
    ensures var s', session := Next(s, TimerFires(id)), s.timers[id].callback.session;
            && s'.session == s.session && s'.flights == s.flights && s'.successCalls == s.successCalls && s'.mounted == s.mounted
            && if session.expiresAtMs - s.now < 1000 then
                 && s'.phase == Error && s'.error == Some("Device code expired") && Quiet(s')
                 && s'.generation == s.generation + 1 && s'.endings == s.endings + [Expired(s.generation)]
               else
                 && s'.phase == s.phase && s'.error == s.error && s'.generation == s.generation && s'.endings == s.endings
                 && s'.timeLeft == Some((session.expiresAtMs - s.now) / 1000)
                 && s'.timers == s.timers[id := Timer(s.timers[id].callback, s.timers[id].due + 1000)]
                 && s'.since == s.since && s'.polls == s.polls
  {
    var session := s.timers[id].callback.session;
    var again := s.(timers := s.timers[id := Timer(s.timers[id].callback, s.timers[id].due + 1000)]);
    CountdownIsLive(s, id);
    SecondsLeft(session, s.now);
    InvalidateClears(again);
    hide Inv, Live, Handles, Invalidate, Remaining;
  }

  lemma CountdownIsLive(s: Hook, id: int)
    requires Inv(s) && id in s.timers && s.timers[id].callback.Countdown?
    ensures Handles(s) && s.phase == Polling && s.countdownTimer == Some(id) && s.timers[id].callback.run == s.generation
    ensures Handles(s.(timers := s.timers[id := Timer(s.timers[id].callback, s.timers[id].due + 1000)]))
  {
    hide Wins, Concluded;
  }

  /** The rounding of the countdown: whole seconds, none in the last one. */
  lemma SecondsLeft(session: Session, now: int)
    ensures var left := session.expiresAtMs - now;
            Remaining(session, now) == if left < 1000 then 0 else left / 1000
  {
  }

  /** A new generation in which nothing ticks; what is awaited and what is over stays. */
  ghost predicate Renewed(s: Hook, s': Hook) {
    && s'.generation == s.generation + 1 && s'.timers == map[] && s'.pollTimer.None? && s'.countdownTimer.None?
    && s'.flights == s.flights && s'.endings == s.endings && s'.successCalls == s.successCalls && s'.now == s.now
  }

  /** A start awaits its session. A hook that is not mounted shows what it showed. */
  lemma StartDecides(s: Hook)
    requires Inv(s)
    ensures var s' := Next(s, DoStart);
            && Renewed(s, s') && s'.initiating == s.initiating + {s.generation + 1} && s'.mounted == s.mounted
            && (if s.mounted then s'.phase == Loading && s'.session.None? && s'.error.None? && s'.timeLeft.None? else ShowsSame(s, s'))
  {
    InvalidateClears(s);
    hide Wins, Concluded, LiveTimers;
  }

  lemma CancelDecides(s: Hook)
    requires Inv(s)
    ensures var s' := Next(s, DoCancel);
            && Renewed(s, s') && s'.initiating == s.initiating && s'.mounted == s.mounted
            && (if s.mounted then s'.phase == Idle && s'.session.None? && s'.error.None? && s'.timeLeft.None? else ShowsSame(s, s'))
  {
    InvalidateClears(s);
    hide Wins, Concluded, LiveTimers;
  }

  /** Unmounting leaves what is shown; waiting changes the clock only. */
  lemma UnmountDecides(s: Hook)
    requires Inv(s)
    ensures var s' := Next(s, DoUnmount);
            Renewed(s, s') && s'.initiating == s.initiating && !s'.mounted && ShowsSame(s.(mounted := false), s')
    ensures forall ms: nat :: Next(s, Wait(ms)) == s.(now := s.now + ms)
  {
    InvalidateClears(s.(mounted := false));
    hide Wins, Concluded, LiveTimers;
  }
}
