/** What every run of the device-code hook keeps. */
module DeviceAuthProofs {
  import opened Tables
  import opened DeviceAuth

  /** A hook just mounted shows nothing and has nothing outstanding. */
  lemma MountedInv(now: int)
    ensures Inv(Mounted(now))
    ensures var s := Mounted(now);
            && s.mounted && s.phase == Idle && s.session.None? && s.error.None? && s.timeLeft.None? && s.now == now
            && s.timers == map[] && s.initiating == {} && s.flights == multiset{} && s.endings == [] && s.successCalls == 0
  {
  }

  /** Invalidation leaves no timer, and nothing outstanding that is current. */
  lemma InvalidateClears(s: Hook)
    requires Handles(s)
    ensures Invalidate(s) == s.(generation := s.generation + 1, timers := map[], pollTimer := None, countdownTimer := None)
  {
    ClearAllClears(s.(generation := s.generation + 1));
  }

  lemma ClearAllClears(s: Hook)
    requires Handles(s)
    ensures ClearAll(s) == s.(timers := map[], pollTimer := None, countdownTimer := None)
  {
    forall id
      ensures id !in ClearAll(s).timers
    {
    }
    assert ClearAll(s).timers == map[];
  }

  /** A new generation: everything known so far is of an earlier one. */
  lemma NewGeneration(s: Hook, s': Hook)
    requires Inv(s)
    requires s'.generation == s.generation + 1 && s'.timers == map[] && s'.pollTimer.None? && s'.countdownTimer.None?
    requires s'.flights == s.flights && s'.endings == s.endings && s'.successCalls == s.successCalls
    requires s'.initiating == s.initiating || (s'.initiating == s.initiating + {s'.generation} && (s'.mounted ==> s'.phase == Loading))
    requires s'.mounted ==> s'.phase != Polling
    ensures Inv(s')
  {
    hide Wins, LiveTimers;
  }

  lemma StartKeepsInv(s: Hook)
    requires Inv(s)
    ensures Inv(Start(s)) && Inv(Cancel(s)) && Inv(Unmount(s))
  {
    InvalidateClears(s);
    InvalidateClears(s.(mounted := false));
    NewGeneration(s, Start(s));
    NewGeneration(s, Cancel(s));
    NewGeneration(s, Unmount(s));
    hide Inv;
  }

  /** A run that ends with its generation: `e` is its one and only ending. */
  lemma EndKeepsConcluded(s: Hook, s': Hook, e: Ending)
    requires Concluded(s) && (forall x | x in s.endings :: x.run != e.run) && e.run <= s'.generation && s.generation <= s'.generation
    requires e.run == s'.generation ==> s'.phase == Error && s'.generation !in s'.initiating
    requires s.generation == s'.generation ==> forall x | x in s.endings :: x.run < s.generation
    requires s'.endings == s.endings + [e] && s'.successCalls == s.successCalls + if e.Won? then 1 else 0
    ensures Concluded(s')
  {
    WinsAppend(s.endings, e);
    hide Wins;
  }

  /** An answer for a run that is not current is dropped. */
  lemma DropKeepsInv(s: Hook, run: nat)
    requires Inv(s) && !Current(s, run)
    ensures Inv(s.(initiating := s.initiating - {run}))
  {
    hide Wins;
  }

  lemma NotStartedKeepsInv(s: Hook, run: nat, s': Hook)
    requires Inv(s) && run in s.initiating && Current(s, run)
    requires s' == s.(initiating := s.initiating - {run}, phase := Error, session := s'.session, error := s'.error,
                      timeLeft := None, pollTimer := None, countdownTimer := None, endings := s.endings + [NotStarted(run)])
    ensures Inv(s')
  {
    hide LiveTimers;
    EndKeepsConcluded(s, s', NotStarted(run));
    hide Wins;
  }

  /** What entering polling does, spelled out. */
  lemma EnterPollingMeans(s: Hook, session: Session)
    requires Handles(s) && s.timers == map[] && s.phase == Polling
    ensures var p, c := s.nextTimer, s.nextTimer + 1;
            EnterPolling(s, session) ==
            if Remaining(session, s.now) > 0 then
              s.(timers := map[p := Timer(Poll(s.generation, session), s.now + Delay(session)),
                               c := Timer(Countdown(s.generation, session), s.now + SECOND)],
                 pollTimer := Some(p), countdownTimer := Some(c), nextTimer := c + 1,
                 timeLeft := Some(Remaining(session, s.now)), since := s.now, polls := 0, earned := 0)
            else
              s.(timers := map[], pollTimer := None, countdownTimer := None, nextTimer := c + 1,
                 generation := s.generation + 1, timeLeft := None, phase := Error, error := Some(EXPIRED),
                 endings := s.endings + [Expired(s.generation)], since := s.now, polls := 0, earned := 0)
  {
  }

  /** A run that begins to poll has its two timers and no poll yet. */
  lemma PollingKeepsInv(s: Hook, run: nat, session: Session, s': Hook)
    requires Inv(s) && run in s.initiating && Current(s, run)
    requires s' == s.(initiating := s.initiating - {run}, session := Some(session), phase := Polling, timeLeft := s'.timeLeft,
                      timers := s'.timers, pollTimer := s'.pollTimer, countdownTimer := s'.countdownTimer, nextTimer := s'.nextTimer,
                      since := s'.since, polls := s'.polls, earned := s'.earned)
    requires s'.nextTimer == s.nextTimer + 2 && s'.pollTimer == Some(s.nextTimer) && s'.countdownTimer == Some(s.nextTimer + 1)
    requires s'.timers.Keys == {s.nextTimer, s.nextTimer + 1}
    requires s'.timers[s.nextTimer].callback == Poll(run, session) && s'.timers[s.nextTimer + 1].callback == Countdown(run, session)
    ensures Inv(s')
  {
    assert s'.flights[Poll(run, session)] == 0;
    assert Concluded(s');
    hide Wins, Concluded;
    assert Handles(s');
    hide Handles;
  }

  lemma EnteredKeepsInv(s: Hook, run: nat, session: Session)
    requires Inv(s) && run in s.initiating && Current(s, run) && Remaining(session, s.now) > 0
    ensures Inv(Initiated(s, run, session, None))
  {
    var entered := s.(initiating := s.initiating - {run}, session := Some(session), phase := Polling);
    EnterPollingMeans(entered, session);
    hide EnterPolling, Wins, Concluded, LiveTimers, Remaining, Delay;
    var s' := Initiated(s, run, session, None);
    assert s'.timers.Keys == {s.nextTimer, s.nextTimer + 1};
    PollingKeepsInv(s, run, session, s');
  }

  /** A run that begins to poll after its expiry ends at once. */
  lemma OverAtOnceKeepsInv(s: Hook, run: nat, s': Hook)
    requires Inv(s) && run in s.initiating && Current(s, run)
    requires s' == s.(initiating := s.initiating - {run}, session := s'.session, generation := run + 1, timers := map[],
                      pollTimer := None, countdownTimer := None, nextTimer := s'.nextTimer, timeLeft := None,
                      phase := Error, error := s'.error, endings := s.endings + [Expired(run)],
                      since := s'.since, polls := s'.polls, earned := s'.earned)
    ensures Inv(s')
  {
    EndKeepsConcluded(s, s', Expired(run));
    hide LiveTimers, Wins, Concluded;
  }

  lemma ExpiredAtOnceKeepsInv(s: Hook, run: nat, session: Session)
    requires Inv(s) && run in s.initiating && Current(s, run) && Remaining(session, s.now) <= 0
    ensures Inv(Initiated(s, run, session, None))
  {
    hide EnterPolling, Remaining, Delay, LiveTimers, Concluded;
    EnterPollingMeans(s.(initiating := s.initiating - {run}, session := Some(session), phase := Polling), session);
    OverAtOnceKeepsInv(s, run, Initiated(s, run, session, None));
  }

  lemma InitiatedKeepsInv(s: Hook, run: nat, session: Session, thrown: Option<string>)
    requires Inv(s) && run in s.initiating
    ensures Inv(Initiated(s, run, session, thrown))
  {
    if !Current(s, run) {
      DropKeepsInv(s, run);
    } else if thrown.Some? {
      ClearAllClears(s);
      NotStartedKeepsInv(s, run, Initiated(s, run, session, thrown));
    } else if Remaining(session, s.now) > 0 {
      EnteredKeepsInv(s, run, session);
    } else {
      ExpiredAtOnceKeepsInv(s, run, session);
    }
  }

  lemma InitiateFailedKeepsInv(s: Hook, run: nat, message: string)
    requires Inv(s) && run in s.initiating
    ensures Inv(InitiateFailed(s, run, message))
  {
    if !Current(s, run) {
      DropKeepsInv(s, run);
    } else {
      ClearAllClears(s);
      NotStartedKeepsInv(s, run, InitiateFailed(s, run, message));
    }
  }

  // ------------------------------------------------------- polls and ticks

  /** A poll or a tick ends the live run. */
  lemma FinishedKeepsInv(s: Hook, s': Hook, e: Ending)
    requires Inv(s) && Live(s) && e.run == s.generation
    requires s' == s.(generation := s.generation + 1, timers := map[], pollTimer := None, countdownTimer := None,
                      flights := s'.flights, timeLeft := None, phase := s'.phase, error := s'.error,
                      endings := s.endings + [e], successCalls := s'.successCalls)
    requires s'.successCalls == s.successCalls + (if e.Won? then 1 else 0)
    requires s'.flights <= s.flights && s'.phase != Polling && s'.phase != Loading
    ensures Inv(s')
  {
    EndKeepsConcluded(s, s', e);
    hide Wins, Concluded, LiveTimers;
    assert forall f | f in s'.flights :: f in s.flights;
  }

  lemma StalePollKeepsInv(s: Hook, flight: Callback)
    requires Inv(s) && flight in s.flights && s.generation != flight.run
    ensures Inv(s.(flights := s.flights - multiset{flight}))
  {
    var s' := s.(flights := s.flights - multiset{flight});
    hide Wins;
    assert Concluded(s');
    hide Concluded;
    assert forall f :: f in s'.flights ==> f in s.flights;
    assert s.session.Some? ==> s'.flights[Poll(s.generation, s.session.value)] == s.flights[Poll(s.generation, s.session.value)];
  }

  lemma PollAgainKeepsInv(s: Hook, flight: Callback, outcome: PollOutcome)
    requires Inv(s) && flight in s.flights && s.generation == flight.run && (outcome.Pending? || outcome.Thrown?)
    ensures Inv(PollAnswered(s, flight, outcome))
  {
    assert Live(s) && flight == Poll(s.generation, s.session.value);
    var s' := PollAnswered(s, flight, outcome);
    assert Concluded(s');
    hide Wins, Concluded;
    assert Handles(s') && Outstanding(s');
    hide Handles, Outstanding;
    assert s'.flights[flight] == 0;
    assert s'.timers.Keys == {s'.pollTimer.value, s'.countdownTimer.value};
  }

  lemma PollAnsweredKeepsInv(s: Hook, flight: Callback, outcome: PollOutcome)
    requires Inv(s) && flight in s.flights
    ensures Inv(PollAnswered(s, flight, outcome))
  {
    if s.generation != flight.run {
      StalePollKeepsInv(s, flight);
    } else if outcome.Pending? || outcome.Thrown? {
      PollAgainKeepsInv(s, flight, outcome);
    } else {
      var s1 := s.(flights := s.flights - multiset{flight});
      InvalidateClears(s1);
      FinishedKeepsInv(s, PollAnswered(s, flight, outcome), if outcome.Denied? then Refused(flight.run) else Won(flight.run));
    }
  }

  lemma PollSentKeepsInv(s: Hook, id: int)
    requires Inv(s) && id in s.timers && s.timers[id].callback.Poll?
    ensures Inv(Fire(s, id))
  {
    var s' := Fire(s, id);
    assert Live(s) && s.pollTimer == Some(id) && s.timers[id].callback == Poll(s.generation, s.session.value);
    assert Concluded(s');
    hide Wins, Concluded;
    assert Handles(s') && Outstanding(s');
    hide Handles, Outstanding;
    assert s'.flights[Poll(s.generation, s.session.value)] == 1;
    assert s'.timers.Keys == {s'.countdownTimer.value};
  }

  lemma CountdownKeepsInv(s: Hook, id: int)
    requires Inv(s) && id in s.timers && s.timers[id].callback.Countdown?
    ensures Inv(Fire(s, id))
  {
    var s' := Fire(s, id);
    assert Live(s) && s.countdownTimer == Some(id) && s.timers[id].callback == Countdown(s.generation, s.session.value);
    var s1 := s.(timers := s.timers[id := Timer(s.timers[id].callback, s.timers[id].due + SECOND)]);
    if Remaining(s.session.value, s.now) > 0 {
      assert s'.timers.Keys == s.timers.Keys;
      assert Concluded(s');
      hide Wins, Concluded;
      assert Handles(s') && Outstanding(s');
      hide Handles, Outstanding;
    } else {
      InvalidateClears(s1);
      FinishedKeepsInv(s, s', Expired(s.generation));
    }
  }

  lemma FireKeepsInv(s: Hook, id: int)
    requires Inv(s) && id in s.timers
    ensures Inv(Fire(s, id))
  {
    hide Inv, Fire;
    if s.timers[id].callback.Poll? { PollSentKeepsInv(s, id); } else { CountdownKeepsInv(s, id); }
  }

  lemma StepKeepsInv(s: Hook, e: Event)
    requires Inv(s) && Enabled(s, e)
    ensures Inv(Next(s, e))
  {
    hide Handles, Outstanding, Ticking, Concluded;
    match e
    case DoStart => StartKeepsInv(s);
    case DoCancel => StartKeepsInv(s);
    case DoUnmount => StartKeepsInv(s);
    case GotSession(run, session, thrown) => InitiatedKeepsInv(s, run, session, thrown);
    case GotStartError(run, message) => InitiateFailedKeepsInv(s, run, message);
    case GotPoll(flight, outcome) => PollAnsweredKeepsInv(s, flight, outcome);
    case TimerFires(id) => FireKeepsInv(s, id);
    case Wait(ms) => WaitKeepsInv(s, ms);
  }

  lemma WaitKeepsInv(s: Hook, ms: nat)
    requires Inv(s)
    ensures Inv(s.(now := s.now + ms))
  {
    hide Wins;
  }
}
