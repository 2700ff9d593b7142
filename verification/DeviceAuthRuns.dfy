/** Whole runs of the device-code hook: what any interleaving of starts,
    cancellations, answers and timers can do, and how long a run can poll. */
module DeviceAuthRuns {
  import opened Tables
  import opened DeviceAuth
  import opened DeviceAuthProofs

  ghost predicate Legal(s: Hook, events: seq<Event>)
    decreases |events|
  {
    events != [] ==> Enabled(s, events[0]) && Legal(Next(s, events[0]), events[1..])
  }

  ghost function After(s: Hook, events: seq<Event>): Hook
    requires Legal(s, events)
    decreases |events|
  {
    if events == [] then s else After(Next(s, events[0]), events[1..])
  }

  lemma {:induction false} RunKeepsInv(s: Hook, events: seq<Event>)
    requires Inv(s) && Legal(s, events)
    ensures Inv(After(s, events))
    decreases |events|
  {
    hide Inv, Next, Enabled;
    if events == [] {
    } else {
      StepKeepsInv(s, events[0]);
      RunKeepsInv(Next(s, events[0]), events[1..]);
    }
  }

  // --------------------------------------------------------- stale results

  /** What a stale result must leave alone: all but the promises awaited. */
  function Visible(s: Hook): Hook {
    s.(initiating := {}, flights := multiset{})
  }

  ghost predicate Supersedes(e: Event) {
    e.DoStart? || e.DoCancel? || e.DoUnmount?
  }

  ghost predicate Answers(e: Event, run: nat) {
    match e
    case GotSession(r, _, _) => r == run
    case GotStartError(r, _) => r == run
    case GotPoll(flight, _) => flight.run == run
    case _ => false
  }

  lemma InitiatedGrows(s: Hook, run: nat, session: Session, thrown: Option<string>)
    ensures s.generation <= Initiated(s, run, session, thrown).generation
  {
    hide ClearPoll, ClearCountdown, ClearAll, SchedulePoll, ScheduleCountdown, Remaining, Delay;
  }

  lemma FireGrows(s: Hook, id: int)
    requires id in s.timers
    ensures s.generation <= Fire(s, id).generation
  {
    hide ClearPoll, ClearCountdown, ClearAll, Remaining, Delay;
  }

  lemma GenerationGrows(s: Hook, e: Event)
    requires Enabled(s, e)
    ensures s.generation <= Next(s, e).generation
    ensures Supersedes(e) ==> s.generation < Next(s, e).generation
  {
    hide ClearPoll, ClearCountdown, ClearAll, SchedulePoll, Delay, Initiated, Fire;
    match e
    case GotSession(run, session, thrown) => InitiatedGrows(s, run, session, thrown);
    case TimerFires(id) => FireGrows(s, id);
    case _ =>
  }

  lemma {:induction false} GenerationsGrow(s: Hook, events: seq<Event>)
    requires Legal(s, events)
    ensures s.generation <= After(s, events).generation
    decreases |events|
  {
    if events == [] {
    } else {
      GenerationGrows(s, events[0]);
      hide Next, Enabled;
      GenerationsGrow(Next(s, events[0]), events[1..]);
    }
  }

  /** Once a run is superseded, whatever its initiation or its polls bring, and
      whenever, changes neither what is shown nor a timer nor a count. */
  lemma SupersededResultsAreIgnored(s: Hook, e: Event, events: seq<Event>, run: nat, result: Event)
    requires Supersedes(e) && run <= s.generation && Legal(Next(s, e), events)
    requires Answers(result, run) && Enabled(After(Next(s, e), events), result)
    ensures var last := After(Next(s, e), events); Visible(Next(last, result)) == Visible(last)
  {
    GenerationGrows(s, e);
    GenerationsGrow(Next(s, e), events);
  }

  /** Nor does any timer of an earlier run survive: what ticks belongs to the run that polls. */
  lemma TimersAreOfTheLiveRun(s: Hook, id: int)
    requires Inv(s) && id in s.timers
    ensures Live(s) && s.session.Some?
    ensures s.timers[id].callback in {Poll(s.generation, s.session.value), Countdown(s.generation, s.session.value)}
  {
    hide Wins, Concluded;
  }

  // --------------------------------------------------- one poll in the hand

  ghost function PollTimers(s: Hook): set<int> {
    set id | id in s.timers && s.timers[id].callback.Poll?
  }

  /** A live run has one armed poll timer or one unanswered poll, never both and
      never neither; without a live run there is no timer and no poll of the current generation. */
  lemma OnePollInHand(s: Hook)
    requires Inv(s)
    ensures Live(s) ==> s.session.Some? && |PollTimers(s)| + s.flights[Poll(s.generation, s.session.value)] == 1
    ensures Live(s) ==> forall f | f in s.flights && f.run == s.generation :: f == Poll(s.generation, s.session.value)
    ensures !Live(s) ==> PollTimers(s) == {} && forall f | f in s.flights :: f.run != s.generation
  {
    hide Wins, Concluded;
    if Live(s) {
      if s.flights[Poll(s.generation, s.session.value)] == 0 {
        assert PollTimers(s) == {s.pollTimer.value};
      } else {
        assert PollTimers(s) == {};
      }
    }
  }

  // -------------------------------------------------- one ending per start

  /** The runs that `events` start. */
  ghost function Started(s: Hook, events: seq<Event>): set<nat>
    requires Legal(s, events)
    decreases |events|
  {
    if events == [] then {}
    else (if events[0].DoStart? then {s.generation + 1} else {}) + Started(Next(s, events[0]), events[1..])
  }

  /** Whatever is initiating, polling or over was started. */
  ghost predicate From(s: Hook, started: set<nat>) {
    && s.initiating <= started
    && (Live(s) ==> s.generation in started)
    && (forall e | e in s.endings :: e.run in started)
  }

  /** The run that a step may end: the one that polls or is about to. */
  ghost predicate Running(s: Hook, run: nat) {
    run == s.generation && (Live(s) || run in s.initiating)
  }

  ghost predicate Ends(s: Hook, s': Hook) {
    s'.endings != [] && var last := s'.endings[|s'.endings| - 1]; s'.endings == s.endings + [last] && Running(s, last.run)
  }

  /** A step keeps the current run going, or ends it, or starts one. */
  ghost predicate Proceeds(s: Hook, s': Hook) {
    && (Live(s') ==> Running(s, s'.generation))
    && (s'.endings == s.endings || Ends(s, s'))
  }

  /** A step that starts nothing: it proceeds, and no new initiation is awaited. */
  ghost predicate Continues(s: Hook, s': Hook) {
    Proceeds(s, s') && s'.initiating <= s.initiating
  }

  lemma StartProceeds(s: Hook)
    ensures Proceeds(s, Start(s)) && Start(s).initiating == s.initiating + {s.generation + 1}
    ensures Continues(s, Cancel(s)) && Continues(s, Unmount(s))
  {
    hide ClearPoll, ClearCountdown, ClearAll;
  }

  lemma InitiatedProceeds(s: Hook, run: nat, session: Session, thrown: Option<string>)
    requires run in s.initiating
    ensures Continues(s, Initiated(s, run, session, thrown))
  {
    hide ClearPoll, ClearCountdown, ClearAll, SchedulePoll, ScheduleCountdown, Remaining, Delay;
  }

  lemma InitiateFailedProceeds(s: Hook, run: nat, message: string)
    requires run in s.initiating
    ensures Continues(s, InitiateFailed(s, run, message))
  {
    hide ClearPoll, ClearCountdown, ClearAll;
  }

  lemma FireProceeds(s: Hook, id: int)
    requires Inv(s) && id in s.timers
    ensures Continues(s, Fire(s, id))
  {
    TimersAreOfTheLiveRun(s, id);
    hide Inv, ClearPoll, ClearCountdown, ClearAll, Remaining, Delay;
  }

  lemma PollAnsweredProceeds(s: Hook, flight: Callback, outcome: PollOutcome)
    requires Inv(s) && flight in s.flights
    ensures Continues(s, PollAnswered(s, flight, outcome))
  {
    OnePollInHand(s);
    hide Inv, ClearPoll, ClearCountdown, ClearAll, SchedulePoll, Delay;
  }

  lemma WaitProceeds(s: Hook, ms: nat)
    ensures Continues(s, s.(now := s.now + ms))
  {
  }

  lemma StepProceeds(s: Hook, e: Event)
    requires Inv(s) && Enabled(s, e)
    ensures Proceeds(s, Next(s, e))
    ensures Next(s, e).initiating <= s.initiating + if e.DoStart? then {s.generation + 1} else {}
  {
    hide Inv, Proceeds, Start, Cancel, Unmount, Initiated, InitiateFailed, PollAnswered, Fire;
    match e
    case DoStart => StartProceeds(s);
    case DoCancel => StartProceeds(s);
    case DoUnmount => StartProceeds(s);
    case GotSession(run, session, thrown) => InitiatedProceeds(s, run, session, thrown);
    case GotStartError(run, message) => InitiateFailedProceeds(s, run, message);
    case TimerFires(id) => FireProceeds(s, id);
    case GotPoll(flight, outcome) => PollAnsweredProceeds(s, flight, outcome);
    case Wait(ms) => WaitProceeds(s, ms);
  }

  lemma StepKeepsFrom(s: Hook, e: Event, started: set<nat>)
    requires Inv(s) && Enabled(s, e) && From(s, started)
    ensures From(Next(s, e), started + if e.DoStart? then {s.generation + 1} else {})
  {
    StepProceeds(s, e);
    hide Inv, Next, Enabled, Live;
    var s' := Next(s, e);
    if s'.endings != s.endings {
      assert forall x | x in s'.endings :: x in s.endings || x == s'.endings[|s'.endings| - 1];
    }
  }

  lemma {:induction false} RunKeepsFrom(s: Hook, events: seq<Event>, started: set<nat>)
    requires Inv(s) && Legal(s, events) && From(s, started)
    ensures From(After(s, events), started + Started(s, events))
    decreases |events|
  {
    hide Inv, Next, Enabled, From;
    if events == [] {
      assert started + {} == started;
    } else {
      var more := if events[0].DoStart? then {s.generation + 1} else {};
      StepKeepsInv(s, events[0]);
      StepKeepsFrom(s, events[0], started);
      RunKeepsFrom(Next(s, events[0]), events[1..], started + more);
      assert started + more + Started(Next(s, events[0]), events[1..]) == started + Started(s, events);
    }
  }

  /** Each start ends by at most one of success, refusal, expiry and failure to
      start, and `onSuccess` is called as often as a run ends in success. */
  lemma EachStartEndsOnce(now: int, events: seq<Event>)
    requires Legal(Mounted(now), events)
    ensures var s := After(Mounted(now), events);
            && (forall e | e in s.endings :: e.run in Started(Mounted(now), events))
            && (forall i, j | 0 <= i < j < |s.endings| :: s.endings[i].run != s.endings[j].run)
            && (forall e | e in s.endings :: Live(s) ==> e.run != s.generation)
            && s.successCalls == Wins(s.endings) <= |s.endings| <= |Started(Mounted(now), events)|
  {
    MountedInv(now);
    RunKeepsInv(Mounted(now), events);
    RunKeepsFrom(Mounted(now), events, {});
    hide Next, Enabled;
    var s := After(Mounted(now), events);
    assert {} + Started(Mounted(now), events) == Started(Mounted(now), events);
    WinsAreEndings(s.endings);
    DistinctRunsFit(s.endings, Started(Mounted(now), events));
  }

  lemma {:induction false} WinsAreEndings(endings: seq<Ending>)
    ensures Wins(endings) <= |endings|
  {
    if endings == [] {
    } else {
      WinsAreEndings(endings[..|endings| - 1]);
    }
  }

  lemma {:induction false} DistinctRunsFit(endings: seq<Ending>, runs: set<nat>)
    requires forall e | e in endings :: e.run in runs
    requires forall i, j | 0 <= i < j < |endings| :: endings[i].run != endings[j].run
    ensures |endings| <= |runs|
    decreases |endings|
  {
    if endings == [] {
    } else {
      var last := |endings| - 1;
      forall e | e in endings[..last]
        ensures e.run in runs - {endings[last].run}
      {
        var i :| 0 <= i < last && endings[i] == e;
      }
      DistinctRunsFit(endings[..last], runs - {endings[last].run});
    }
  }

  // ------------------------------------------------------- what is shown

  /** An error message exactly in the error phase, a time left exactly while
      polling; success and error tell how the last run that ended did end. */
  ghost predicate Told(s: Hook) {
    && (s.error.Some? <==> s.phase == Error)
    && (s.timeLeft.Some? <==> s.phase == Polling)
    && (s.phase == Polling ==> s.session.Some?)
    && (s.phase == Loading ==> s.session.None?)
    && (s.phase == Success || s.phase == Error ==>
          s.endings != [] && (s.phase == Success <==> s.endings[|s.endings| - 1].Won?))
  }

  lemma EnteringIsTold(s: Hook, session: Session)
    requires s.phase == Polling && s.error.None? && s.session.Some?
    ensures Told(EnterPolling(s, session))
  {
    hide ClearPoll, ClearCountdown, ClearAll, SchedulePoll, ScheduleCountdown, Delay, Remaining;
  }

  lemma InitiatedKeepsTold(s: Hook, run: nat, session: Session, thrown: Option<string>)
    requires Inv(s) && Told(s) && run in s.initiating
    ensures Told(Initiated(s, run, session, thrown))
  {
    assert Current(s, run) ==> s.phase == Loading;
    hide Inv, EnterPolling, ClearAll;
    if Current(s, run) && thrown.None? {
      EnteringIsTold(s.(initiating := s.initiating - {run}, session := Some(session), phase := Polling), session);
    }
  }

  lemma FireKeepsTold(s: Hook, id: int)
    requires Inv(s) && Told(s) && id in s.timers
    ensures Told(Fire(s, id))
  {
    TimersAreOfTheLiveRun(s, id);
    hide Inv, Delay, Remaining, ClearPoll, ClearCountdown, ClearAll;
  }

  lemma PollAnsweredKeepsTold(s: Hook, flight: Callback, outcome: PollOutcome)
    requires Inv(s) && Told(s) && flight in s.flights
    ensures Told(PollAnswered(s, flight, outcome))
  {
    OnePollInHand(s);
    hide Inv, Delay, ClearPoll, ClearCountdown, ClearAll, SchedulePoll;
  }

  lemma StepKeepsTold(s: Hook, e: Event)
    requires Inv(s) && Enabled(s, e) && Told(s)
    ensures Told(Next(s, e))
  {
    hide ClearPoll, ClearCountdown, ClearAll;
    match e
    case GotSession(run, session, thrown) => InitiatedKeepsTold(s, run, session, thrown); hide Told;
    case TimerFires(id) => FireKeepsTold(s, id); hide Told;
    case GotPoll(flight, outcome) => PollAnsweredKeepsTold(s, flight, outcome); hide Told;
    case _ => hide Inv;
  }

  lemma {:induction false} ShownStateIsTrue(s: Hook, events: seq<Event>)
    requires Inv(s) && Told(s) && Legal(s, events)
    ensures Told(After(s, events))
    decreases |events|
  {
    hide Inv, Next, Enabled, Told;
    if events == [] {
    } else {
      StepKeepsInv(s, events[0]);
      StepKeepsTold(s, events[0]);
      ShownStateIsTrue(Next(s, events[0]), events[1..]);
    }
  }

  lemma ShownIsTrueFromMount(now: int, events: seq<Event>)
    requires Legal(Mounted(now), events)
    ensures Told(After(Mounted(now), events)) && Inv(After(Mounted(now), events))
  {
    MountedInv(now);
    assert Told(Mounted(now));
    RunKeepsInv(Mounted(now), events);
    hide Inv, Told, Next, Enabled;
    ShownStateIsTrue(Mounted(now), events);
  }

  /** A start shows nothing but that it is loading, a cancellation shows nothing
      at all; neither leaves a timer or a poll that could still count. */
  lemma FreshAttempt(s: Hook)
    requires Inv(s) && s.mounted
    ensures Start(s).phase == Loading && Start(s).generation in Start(s).initiating
    ensures Cancel(s).phase == Idle && Cancel(s).generation !in Cancel(s).initiating
    ensures forall s' | s' in {Start(s), Cancel(s)} ::
              && s'.session.None? && s'.error.None? && s'.timeLeft.None? && s'.timers == map[]
              && s'.generation > s.generation && forall f | f in s'.flights :: f.run != s'.generation
  {
    InvalidateClears(s);
    ClearAllClears(s.(generation := s.generation + 1, timers := map[], pollTimer := None, countdownTimer := None));
    hide Wins, Concluded, LiveTimers, Invalidate;
  }

  // ------------------------------------------------------------- in time

  /** Ideal ticks: time never passes over a second at which the countdown is due. */
  ghost predicate Ideal(s: Hook, e: Event) {
    e.Wait? && s.countdownTimer.Some? && s.countdownTimer.value in s.timers
    ==> s.now + e.ms <= s.timers[s.countdownTimer.value].due
  }

  ghost predicate IdealRun(s: Hook, events: seq<Event>)
    decreases |events|
  {
    events != [] ==> Enabled(s, events[0]) && Ideal(s, events[0]) && IdealRun(Next(s, events[0]), events[1..])
  }

  /** The live run's next tick is at most a second away and not after its expiry;
      the time left was right at its last tick. */
  ghost predicate CountingDown(s: Hook)
    requires LiveTimers(s)
  {
    var due := s.timers[s.countdownTimer.value].due;
    && due - SECOND <= s.now <= due <= s.session.value.expiresAtMs
    && s.timeLeft == Some(Remaining(s.session.value, due - SECOND))
  }

  /** Every poll of the live run came at least one delay after the one before. */
  ghost predicate Paced(s: Hook)
    requires LiveTimers(s)
  {
    && s.earned == s.polls * Delay(s.session.value)
    && s.since + s.earned <= s.now
    && (s.flights[Poll(s.generation, s.session.value)] == 0 ==>
          s.since + s.earned + Delay(s.session.value) <= s.timers[s.pollTimer.value].due)
  }

  ghost predicate Timed(s: Hook) {
    Live(s) ==> LiveTimers(s) && CountingDown(s) && Paced(s)
  }

  lemma OneMore(n: nat, d: int)
    ensures (n + 1) * d == n * d + d
  {
  }

  lemma EnterKeepsTimed(s: Hook, run: nat, session: Session)
    requires Inv(s) && run in s.initiating && Current(s, run)
    ensures Timed(Initiated(s, run, session, None))
  {
    var entered := s.(initiating := s.initiating - {run}, session := Some(session), phase := Polling);
    InitiatedKeepsInv(s, run, session, None);
    EnterPollingMeans(entered, session);
    hide EnterPolling, Wins, Concluded, Handles, Delay;
    assert 0 * Delay(session) == 0;
  }

  lemma PollAnsweredKeepsTimed(s: Hook, flight: Callback, outcome: PollOutcome)
    requires Inv(s) && Timed(s) && flight in s.flights
    ensures Timed(PollAnswered(s, flight, outcome))
  {
    PollAnsweredKeepsInv(s, flight, outcome);
    hide Wins, Concluded, Handles, Delay, Remaining;
  }

  lemma PollSentKeepsTimed(s: Hook, id: int)
    requires Inv(s) && Timed(s) && id in s.timers && s.timers[id].callback.Poll? && s.timers[id].due <= s.now
    ensures Timed(Fire(s, id))
  {
    PollSentKeepsInv(s, id);
    TimersAreOfTheLiveRun(s, id);
    OneMore(s.polls, Delay(s.session.value));
    hide Wins, Concluded, Delay, Remaining;
  }

  lemma TickKeepsTimed(s: Hook, id: int)
    requires Inv(s) && Timed(s) && id in s.timers && s.timers[id].callback.Countdown? && s.timers[id].due <= s.now
    ensures Timed(Fire(s, id))
  {
    CountdownKeepsInv(s, id);
    TimersAreOfTheLiveRun(s, id);
    hide Wins, Concluded, Delay;
  }

  lemma StepKeepsTimed(s: Hook, e: Event)
    requires Inv(s) && Timed(s) && Enabled(s, e) && Ideal(s, e)
    ensures Timed(Next(s, e))
  {
    match e
    case GotSession(run, session, thrown) =>
      if Current(s, run) && thrown.None? { EnterKeepsTimed(s, run, session); }
    case GotPoll(flight, outcome) => PollAnsweredKeepsTimed(s, flight, outcome);
    case TimerFires(id) =>
      if s.timers[id].callback.Poll? { PollSentKeepsTimed(s, id); } else { TickKeepsTimed(s, id); }
    case _ =>
  }

  lemma {:induction false} IdealRunKeepsTimed(s: Hook, events: seq<Event>)
    requires Inv(s) && Timed(s) && IdealRun(s, events)
    ensures Legal(s, events) && Timed(After(s, events)) && Inv(After(s, events))
    decreases |events|
  {
    hide Inv, Next, Enabled, Timed, Ideal;
    if events == [] {
    } else {
      StepKeepsInv(s, events[0]);
      StepKeepsTimed(s, events[0]);
      IdealRunKeepsTimed(Next(s, events[0]), events[1..]);
    }
  }

  /** With ideal ticks no run polls past its expiry, and it sends at most one poll
      per `max(1, pollIntervalMs)` since it began, whatever the polls answer or throw. */
  lemma PollsAreBounded(now: int, events: seq<Event>)
    requires IdealRun(Mounted(now), events)
    ensures Legal(Mounted(now), events)
    ensures var s := After(Mounted(now), events);
            Live(s) ==> s.session.Some?
                        && s.now <= s.session.value.expiresAtMs
                        && s.polls * (if s.session.value.pollIntervalMs > 1 then s.session.value.pollIntervalMs else 1)
                           <= s.now - s.since <= s.session.value.expiresAtMs - s.since
  {
    MountedInv(now);
    IdealRunKeepsTimed(Mounted(now), events);
    hide Next, Enabled, Delay, Remaining, Inv;
  }

  /** Each ideal tick takes exactly one second off the countdown; the tick that
      finds less than one second left expires the run. */
  lemma CountdownStrictlyDecreases(s: Hook, id: int)
    requires Inv(s) && Timed(s) && Enabled(s, TimerFires(id)) && s.timers[id].callback.Countdown?
    ensures s.timeLeft.Some? && s.timeLeft.value >= 1 && s.session.Some?
    ensures var s' := Fire(s, id);
            if s.timeLeft.value > 1 then Live(s') && s'.timeLeft == Some(s.timeLeft.value - 1)
            else s'.phase == Error && s'.error == Some(EXPIRED) && s'.endings == s.endings + [Expired(s.generation)]
    ensures s.timeLeft.value == 1 <==> s.session.value.expiresAtMs - s.now < SECOND
  {
    TimersAreOfTheLiveRun(s, id);
    hide Wins, Concluded, Delay, Paced;
  }
}
