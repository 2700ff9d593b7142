/** Device-code sign-in: initiation, polling, countdown and cancellation, as steps
    between two turns of the event loop.

    `Hook` holds the hook's React state, its refs and timer handles, and what the
    browser has outstanding for it: active timers, unanswered initiations and
    unanswered polls. Effects run together with the change that triggers them. */
module DeviceAuth {
  import opened Tables

  datatype Phase = Idle | Loading | Polling | Success | Error

  datatype Session = Session(deviceCode: string, pollIntervalMs: int, expiresAtMs: int)

  datatype PollOutcome = Pending | Authorized | Denied(message: string) | Thrown

  datatype Callback = Poll(run: nat, session: Session) | Countdown(run: nat, session: Session)

  datatype Timer = Timer(callback: Callback, due: int)

  /** How a started run came to its end. */
  datatype Ending = Won(run: nat) | Refused(run: nat) | Expired(run: nat) | NotStarted(run: nat)

  /** `since`, `polls` and `earned` only observe: when the current run began to
      poll, how many polls it has sent, and how much time they must have taken. */
  datatype Hook = Hook(
    phase: Phase, session: Option<Session>, error: Option<string>, timeLeft: Option<int>,
    generation: nat, mounted: bool,
    pollTimer: Option<int>, countdownTimer: Option<int>, timers: map<int, Timer>, nextTimer: int,
    initiating: set<nat>, flights: multiset<Callback>, now: int,
    endings: seq<Ending>, successCalls: nat,
    since: int, polls: nat, earned: int)

  const EXPIRED := "Device code expired"
  const SECOND: int := 1000

  function Mounted(now: int): Hook {
    Hook(Idle, None, None, None, 0, true, None, None, map[], 0, {}, multiset{}, now, [], 0, now, 0, 0)
  }

  // ----------------------------------------------------------- timer store

  function ClearPoll(s: Hook): (r: Hook)
    ensures r == s.(timers := r.timers, pollTimer := None)
  {
    if s.pollTimer.None? then s
    else s.(timers := s.timers - {s.pollTimer.value}, pollTimer := None)
  }

  function ClearCountdown(s: Hook): (r: Hook)
    ensures r == s.(timers := r.timers, countdownTimer := None)
  {
    if s.countdownTimer.None? then s
    else s.(timers := s.timers - {s.countdownTimer.value}, countdownTimer := None)
  }

  function ClearAll(s: Hook): (r: Hook)
    ensures r == s.(timers := r.timers, pollTimer := None, countdownTimer := None)
  {
    ClearCountdown(ClearPoll(s))
  }

  function SchedulePoll(s: Hook, callback: Callback, delay: int): (r: Hook)
    ensures r == s.(timers := r.timers, pollTimer := Some(s.nextTimer), nextTimer := s.nextTimer + 1)
  {
    var s := ClearPoll(s);
    s.(timers := s.timers[s.nextTimer := Timer(callback, s.now + delay)],
       pollTimer := Some(s.nextTimer), nextTimer := s.nextTimer + 1)
  }

  function ScheduleCountdown(s: Hook, callback: Callback): (r: Hook)
    ensures r == s.(timers := r.timers, countdownTimer := Some(s.nextTimer), nextTimer := s.nextTimer + 1)
  {
    var s := ClearCountdown(s);
    s.(timers := s.timers[s.nextTimer := Timer(callback, s.now + SECOND)],
       countdownTimer := Some(s.nextTimer), nextTimer := s.nextTimer + 1)
  }

  function Invalidate(s: Hook): Hook {
    ClearAll(s.(generation := s.generation + 1))
  }

  // --------------------------------------------------------------- effects

  function Delay(session: Session): (d: int)
    ensures d >= 1 && d >= session.pollIntervalMs && (d == 1 || d == session.pollIntervalMs)
  {
    if session.pollIntervalMs < 1 then 1 else session.pollIntervalMs
  }

  /** Whole seconds left before expiry, none once it has passed. */
  function Remaining(session: Session, now: int): (r: nat)
    ensures r > 0 <==> session.expiresAtMs - now >= SECOND
    ensures r > 0 ==> r * SECOND <= session.expiresAtMs - now < (r + 1) * SECOND
  {
    if session.expiresAtMs - now < 0 then 0 else (session.expiresAtMs - now) / SECOND
  }

  function Expire(s: Hook, run: nat): Hook {
    Invalidate(s).(timeLeft := None, phase := Error, error := Some(EXPIRED), endings := s.endings + [Expired(run)])
  }

  /** The countdown's callback. */
  function Tick(s: Hook, run: nat, session: Session): Hook {
    if s.generation != run then s
    else if Remaining(session, s.now) > 0 then s.(timeLeft := Some(Remaining(session, s.now)))
    else Expire(s, run)
  }

  /** Both effects of a commit that enters polling. The first tick happens at
      once; if it already expires the run, the commit it causes cleans up after
      both effects. */
  function EnterPolling(s: Hook, session: Session): Hook {
    var run := s.generation;
    var armed := SchedulePoll(s, Poll(run, session), Delay(session)).(since := s.now, polls := 0, earned := 0);
    var ticked := Tick(armed, run, session);
    var counting := ScheduleCountdown(ticked, Countdown(run, session));
    if ticked.phase == Polling then counting else ClearAll(counting).(timeLeft := None)
  }

  /** Both effects of a commit that leaves polling, or stays out of it. */
  function LeavePolling(s: Hook): Hook {
    ClearAll(s).(timeLeft := None)
  }

  // ---------------------------------------------------------------- events

  function Start(s: Hook): Hook {
    var s1 := Invalidate(s);
    var s2 := s1.(initiating := s1.initiating + {s1.generation});
    if !s.mounted then s2 else LeavePolling(s2.(phase := Loading, session := None, error := None, timeLeft := None))
  }

  function Cancel(s: Hook): Hook {
    var s1 := Invalidate(s);
    if !s.mounted then s1 else LeavePolling(s1.(phase := Idle, session := None, error := None, timeLeft := None))
  }

  function Unmount(s: Hook): Hook {
    Invalidate(s.(mounted := false))
  }

  predicate Current(s: Hook, run: nat) {
    s.mounted && s.generation == run
  }

  /** The initiation of a run is answered with a session. `thrown` is what
      `onSessionStarted` throws, if it does. */
  function Initiated(s: Hook, run: nat, session: Session, thrown: Option<string>): Hook {
    var s1 := s.(initiating := s.initiating - {run});
    if !Current(s, run) then s1
    else if thrown.None? then EnterPolling(s1.(session := Some(session), phase := Polling), session)
    else LeavePolling(s1.(session := Some(session), phase := Error, error := thrown, endings := s1.endings + [NotStarted(run)]))
  }

  function InitiateFailed(s: Hook, run: nat, message: string): Hook {
    var s1 := s.(initiating := s.initiating - {run});
    if !Current(s, run) then s1
    else LeavePolling(s1.(phase := Error, error := Some(message), endings := s1.endings + [NotStarted(run)]))
  }

  function Finish(s: Hook, run: nat, outcome: PollOutcome): Hook {
    var s1 := Invalidate(s).(timeLeft := None);
    if outcome.Denied? then
      LeavePolling(s1.(phase := Error, error := Some(outcome.message), endings := s1.endings + [Refused(run)]))
    else
      LeavePolling(s1.(phase := Success, successCalls := s1.successCalls + 1, endings := s1.endings + [Won(run)]))
  }

  /** A poll is answered, or its promise is rejected. */
  function PollAnswered(s: Hook, flight: Callback, outcome: PollOutcome): Hook {
    var s1 := s.(flights := s.flights - multiset{flight});
    if s.generation != flight.run then s1
    else if outcome.Pending? || outcome.Thrown? then SchedulePoll(s1, flight, Delay(flight.session))
    else Finish(s1, flight.run, outcome)
  }

  /** An active timer fires: the poll timer once, the countdown every second. */
  function Fire(s: Hook, id: int): Hook
    requires id in s.timers
  {
    var Timer(callback, due) := s.timers[id];
    match callback
    case Poll(run, session) =>
      var s1 := s.(timers := s.timers - {id});
      if s.generation != run then s1
      else s1.(flights := s1.flights + multiset{callback}, polls := s.polls + 1, earned := s.earned + Delay(session))
    case Countdown(run, session) =>
      var s1 := s.(timers := s.timers[id := Timer(callback, due + SECOND)]);
      var s2 := Tick(s1, run, session);
      if s2.phase == s1.phase then s2 else LeavePolling(s2)
  }

  datatype Event =
    | DoStart
    | DoCancel
    | DoUnmount
    | GotSession(run: nat, session: Session, thrown: Option<string>)
    | GotStartError(run: nat, message: string)
    | GotPoll(flight: Callback, outcome: PollOutcome)
    | TimerFires(id: int)
    | Wait(ms: nat)

  /** Promises are answered once, timers fire when due and while active, and
      nothing else is asked of the environment. */
  predicate Enabled(s: Hook, e: Event) {
    match e
    case GotSession(run, _, _) => run in s.initiating
    case GotStartError(run, _) => run in s.initiating
    case GotPoll(flight, _) => flight in s.flights
    case TimerFires(id) => id in s.timers && s.timers[id].due <= s.now
    case _ => true
  }

  function Next(s: Hook, e: Event): Hook
    requires Enabled(s, e)
  {
    match e
    case DoStart => Start(s)
    case DoCancel => Cancel(s)
    case DoUnmount => Unmount(s)
    case GotSession(run, session, thrown) => Initiated(s, run, session, thrown)
    case GotStartError(run, message) => InitiateFailed(s, run, message)
    case GotPoll(flight, outcome) => PollAnswered(s, flight, outcome)
    case TimerFires(id) => Fire(s, id)
    case Wait(ms) => s.(now := s.now + ms)
  }

  // ------------------------------------------------------------- invariant

  ghost predicate Live(s: Hook) {
    s.mounted && s.phase == Polling
  }

  /** The timers of a live run: the countdown, and the poll timer unless a poll is out. */
  ghost predicate LiveTimers(s: Hook) {
    && s.session.Some?
    && s.countdownTimer.Some? && s.countdownTimer.value in s.timers
    && s.timers[s.countdownTimer.value].callback == Countdown(s.generation, s.session.value)
    && var current := Poll(s.generation, s.session.value);
       if s.flights[current] == 0 then
         && s.pollTimer.Some? && s.pollTimer.value in s.timers && s.pollTimer != s.countdownTimer
         && s.timers[s.pollTimer.value].callback == current
         && s.timers.Keys == {s.pollTimer.value, s.countdownTimer.value}
       else
         s.flights[current] == 1 && s.timers.Keys == {s.countdownTimer.value}
  }

  /** Every active timer is one the store holds a handle for. */
  ghost predicate Handles(s: Hook) {
    && (s.pollTimer.Some? ==> s.pollTimer.value < s.nextTimer)
    && (s.countdownTimer.Some? ==> s.countdownTimer.value < s.nextTimer)
    && (s.pollTimer.Some? ==> s.pollTimer != s.countdownTimer)
    && (forall id | id in s.timers :: s.pollTimer == Some(id) || s.countdownTimer == Some(id))
  }

  /** Nothing outstanding belongs to a run that has not started. */
  ghost predicate Outstanding(s: Hook) {
    && (forall f | f in s.flights :: f.Poll? && f.run <= s.generation)
    && (forall r | r in s.initiating :: r <= s.generation)
    && (s.mounted && s.generation in s.initiating ==> s.phase == Loading)
  }

  /** A live run has its countdown and exactly one of poll timer and poll; without
      a live run nothing ticks and no answer is awaited that could still count. */
  ghost predicate Ticking(s: Hook) {
    if Live(s) then
      LiveTimers(s) && forall f | f in s.flights && f.run == s.generation :: f.session == s.session.value
    else
      s.timers == map[] && forall f | f in s.flights :: f.run < s.generation
  }

  /** Every run ends at most once, and not before it is over. */
  ghost predicate Concluded(s: Hook) {
    && (forall e | e in s.endings :: e.run <= s.generation)
    && (forall e | e in s.endings && e.run == s.generation :: s.phase == Error && s.generation !in s.initiating)
    && (forall i, j | 0 <= i < j < |s.endings| :: s.endings[i].run != s.endings[j].run)
    && s.successCalls == Wins(s.endings)
  }

  ghost predicate Inv(s: Hook) {
    Handles(s) && Outstanding(s) && Ticking(s) && Concluded(s)
  }

  function Wins(endings: seq<Ending>): nat {
    if endings == [] then 0 else Wins(endings[..|endings| - 1]) + if endings[|endings| - 1].Won? then 1 else 0
  }

  lemma WinsAppend(endings: seq<Ending>, e: Ending)
    ensures Wins(endings + [e]) == Wins(endings) + if e.Won? then 1 else 0
  {
    assert (endings + [e])[..|endings|] == endings;
  }
}
