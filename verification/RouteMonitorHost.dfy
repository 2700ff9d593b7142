/** The monitor on its host: one scheduled tick over the state file, which may be
    killed between any two of its actions. */
module RouteMonitorHost {
  import opened Tables
  import opened RouteMonitor

  datatype Outcome =
    | InvalidState
    | Cooldown(pending: nat)
    | Finished(code: Option<string>, failures: int, pending: nat, notificationFailed: bool)
    | Killed

  /** How many of the first n notify calls succeed before one fails. */
  function Delivered(answers: nat -> bool, from: nat, n: nat): (k: nat)
    ensures k <= n
    decreases n
  {
    if n == 0 || !answers(from) then 0 else 1 + Delivered(answers, from + 1, n - 1)
  }

  /** The calls that succeed before the first one that fails. */
  lemma {:induction false} DeliveredMeans(answers: nat -> bool, from: nat, n: nat)
    ensures forall i: nat | from <= i < from + Delivered(answers, from, n) :: answers(i)
    ensures Delivered(answers, from, n) < n ==> !answers(from + Delivered(answers, from, n))
    decreases n
  {
    if n == 0 || !answers(from) {
    } else {
      DeliveredMeans(answers, from + 1, n - 1);
    }
  }

  function Rest(s: State, k: nat): State
    requires k <= |s.pending|
  {
    s.(pending := s.pending[k..])
  }

  /** The ledger after so many calls and deliveries from the head of the outbox. */
  ghost function Sent(log: Ledger, pending: seq<Event>, called: nat, acked: nat): Ledger
    requires called <= |pending| && acked <= |pending|
  {
    log.(calls := log.calls + pending[..called], acks := log.acks + pending[..acked])
  }

  lemma SentOne(log: Ledger, pending: seq<Event>, k: nat, ok: bool)
    requires k < |pending|
    ensures Called(Sent(log, pending, k, k), pending[k], ok) == Sent(log, pending, k + 1, if ok then k + 1 else k)
  {
    assert pending[..k + 1] == pending[..k] + [pending[k]];
    assert log.calls + pending[..k + 1] == log.calls + pending[..k] + [pending[k]];
    assert log.acks + pending[..k + 1] == log.acks + pending[..k] + [pending[k]];
  }

  lemma RestOne(s: State, k: nat)
    requires k < |s.pending|
    ensures Rest(s, k).pending[0] == s.pending[k]
    ensures Rest(s, k).(pending := Rest(s, k).pending[1..]) == Rest(s, k + 1)
  {
  }

  /** One more call, after k saved deliveries. */
  lemma CallAfterSent(s: State, log: Ledger, k: nat, ok: bool)
    requires k < |s.pending| && Delivers(Rest(s, k), Sent(log, s.pending, k, k))
    ensures Delivers(Rest(s, k), Sent(log, s.pending, k + 1, if ok then k + 1 else k))
    ensures ok ==> Delivers(Rest(s, k + 1), Sent(log, s.pending, k + 1, k + 1))
  {
    RestOne(s, k);
    SentOne(log, s.pending, k, ok);
    CallKeepsDelivers(Rest(s, k), Sent(log, s.pending, k, k), ok);
  }

  lemma {:induction false} SavedKeepsDelivers(s: State, log: Ledger, k: nat)
    requires Delivers(s, log) && k <= |s.pending|
    ensures Delivers(Rest(s, k), Sent(log, s.pending, k, k))
    decreases k
  {
    hide Delivers;
    if k == 0 {
      assert Rest(s, 0) == s && Sent(log, s.pending, 0, 0) == log;
    } else {
      SavedKeepsDelivers(s, log, k - 1);
      CallAfterSent(s, log, k - 1, true);
    }
  }

  /** Any number of deliveries, saved or cut short, keeps the calls in order. */
  lemma SentKeepsDelivers(s: State, log: Ledger, sent: nat, called: nat, acked: nat)
    requires Delivers(s, log) && sent <= acked <= called <= |s.pending| && called <= sent + 1
    ensures Delivers(Rest(s, sent), Sent(log, s.pending, called, acked))
  {
    hide Delivers;
    SavedKeepsDelivers(s, log, sent);
    if called == sent {
    } else if acked == called {
      CallAfterSent(s, log, sent, true);
    } else {
      CallAfterSent(s, log, sent, false);
    }
  }

  /** Nothing that happened is ever taken back. */
  ghost predicate Extends(before: Ledger, after: Ledger) {
    && before.results <= after.results && before.events <= after.events
    && before.calls <= after.calls && before.acks <= after.acks
  }

  // ------------------------------------------------------------ schedules

  /** One tick as the file and the ledger see it. `saved` unless it refused, was
      cooling down or was killed before its first save; then `sent` deliveries
      were saved, `acked` made and notify was called `called` times. */
  datatype Turn = Turn(now: int, code: Option<string>, freshId: IncidentId, saved: bool, sent: nat, acked: nat, called: nat)

  predicate Runs(config: Config, disk: Disk, now: int) {
    var loaded := Load(config, disk);
    loaded.Some? && !CoolingDown(config, loaded.value, now)
  }

  ghost predicate Possible(config: Config, disk: Disk, t: Turn) {
    && 0 <= t.now
    && (t.saved ==>
          && Runs(config, disk, t.now)
          && var pending := Record(Load(config, disk).value, t.now, t.code, t.freshId).pending;
             t.sent <= t.acked <= t.called <= |pending| && t.called <= t.sent + 1)
  }

  ghost function Turned(config: Config, disk: Disk, log: Ledger, t: Turn): (Disk, Ledger)
    requires Possible(config, disk, t)
  {
    if !t.saved then (disk, log) else
    var s := Load(config, disk).value;
    var recorded := Record(s, t.now, t.code, t.freshId);
    (Stored(Rest(recorded, t.sent)), Sent(Commit(s, log, t.now, t.code, t.freshId), recorded.pending, t.called, t.acked))
  }

  lemma TurnKeepsDurable(config: Config, disk: Disk, log: Ledger, t: Turn)
    requires Durable(config, disk, log) && Possible(config, disk, t)
    ensures var (disk', log') := Turned(config, disk, log, t); Durable(config, disk', log') && Extends(log, log')
  {
    hide Tracks, Delivers, Economical, Paced, Record, Raised;
    if t.saved {
      var s := Load(config, disk).value;
      var recorded := Record(s, t.now, t.code, t.freshId);
      var committed := Commit(s, log, t.now, t.code, t.freshId);
      CommitKeepsDurable(config, disk, log, t.now, t.code, t.freshId);
      SentKeepsDelivers(recorded, committed, t.sent, t.called, t.acked);
      DeliveryKeepsDurable(config, recorded, committed, Rest(recorded, t.sent), Sent(committed, recorded.pending, t.called, t.acked));
    }
  }

  ghost predicate Schedule(config: Config, disk: Disk, log: Ledger, turns: seq<Turn>)
    decreases |turns|
  {
    turns != [] ==>
      Possible(config, disk, turns[0]) &&
      var (disk', log') := Turned(config, disk, log, turns[0]); Schedule(config, disk', log', turns[1..])
  }

  ghost function After(config: Config, disk: Disk, log: Ledger, turns: seq<Turn>): (Disk, Ledger)
    requires Schedule(config, disk, log, turns)
    decreases |turns|
  {
    if turns == [] then (disk, log)
    else var (disk', log') := Turned(config, disk, log, turns[0]); After(config, disk', log', turns[1..])
  }

  lemma {:induction false} ScheduleKeepsDurable(config: Config, disk: Disk, log: Ledger, turns: seq<Turn>)
    requires Durable(config, disk, log) && Schedule(config, disk, log, turns)
    ensures var (disk', log') := After(config, disk, log, turns); Durable(config, disk', log') && Extends(log, log')
    decreases |turns|
  {
    hide Durable, Possible, Turned;
    if turns == [] {
    } else {
      var (disk', log') := Turned(config, disk, log, turns[0]);
      TurnKeepsDurable(config, disk, log, turns[0]);
      ScheduleKeepsDurable(config, disk', log', turns[1..]);
    }
  }

  /** Over every schedule of ticks, each killed at any point: the file can be loaded
      again as it is, the counters are the runs that end the history, an incident is
      open exactly when the history is down, and the calls, repeats apart, follow
      the alternating events. */
  lemma EveryScheduleIsTrue(config: Config, turns: seq<Turn>)
    requires Schedule(config, Absent, BLANK, turns)
    ensures var (disk, log) := After(config, Absent, BLANK, turns);
            && !disk.Garbage?
            && (disk.Absent? ==> log == BLANK)
            && (disk.Stored? ==>
                  var s := disk.state;
                  && Load(config, disk) == Some(s)
                  && s.failures == Trailing(log.results, true) && s.successes == Trailing(log.results, false)
                  && (s.incidentId.Some? <==> Down(log.results))
                  && Alternates(log.events, s.incidentId)
                  && Collapse(log.calls) <= log.events && Collapse(log.acks) <= log.events
                  && 3 * Outages(log.events) + 2 * Recoveries(log.events) <= |log.results|)
  {
    hide Schedule, After, Alternates, Down, Trailing, Outages, Recoveries, Collapse;
    ScheduleKeepsDurable(config, Absent, BLANK, turns);
    var (disk, log) := After(config, Absent, BLANK, turns);
    SavedIsLoaded(config, disk, log);
    if disk.Stored? { CountersNonNegative(disk.state, log.results); }
  }

  /** One result recorded on the state that was loaded, statement by statement. */
  method RecordResult(loaded: State, now: int, code: Option<string>, freshId: IncidentId) returns (state: State)
    ensures state == Record(loaded, now, code, freshId)
  {
    state := loaded.(lastChecked := now);
    state := state.(runs := state.runs + 1);
    if code.Some? && code.value != "" {
      state := state.(failures := state.failures + 1);
      state := state.(successes := 0);
      if state.failures >= FAILURE_THRESHOLD && state.incidentId.None? {
        state := state.(incidentId := Some(freshId));
        state := state.(pending := state.pending + [Event(freshId, Outage, code.value)]);
      }
    } else {
      state := state.(successes := state.successes + 1);
      state := state.(failures := 0);
      if state.successes >= RECOVERY_THRESHOLD && state.incidentId.Some? {
        state := state.(pending := state.pending + [Event(state.incidentId.value, Recovery, "ok")]);
        state := state.(incidentId := None);
      }
    }
  }

  /** A tick on a file of the monitor runs exactly if there is none yet or the
      interval has passed. */
  lemma RunsWhenDue(config: Config, disk: Disk, log: Ledger, now: int)
    requires Durable(config, disk, log)
    ensures Load(config, disk).Some?
    ensures Runs(config, disk, now) <==> disk.Absent? || now >= disk.state.lastChecked + config.intervalSeconds
    ensures disk.Stored? ==> Load(config, disk).value == disk.state
  {
    hide Tracks, Delivers, Economical, Paced;
    SavedIsLoaded(config, disk, log);
  }

  /** What a turn that saved leaves of a file of the monitor. */
  lemma SavedTurnShows(config: Config, disk: Disk, log: Ledger, t: Turn)
    requires Durable(config, disk, log) && Possible(config, disk, t) && t.saved
    ensures var (disk', log') := Turned(config, disk, log, t);
            && Durable(config, disk', log') && disk'.Stored? && disk'.state.lastChecked == t.now
            && disk'.state.runs == 1 + (if disk.Absent? then 0 else disk.state.runs)
            && log'.results == log.results + [Failing(t.code)]
  {
    RunsWhenDue(config, disk, log, t.now);
    TurnKeepsDurable(config, disk, log, t);
    RecordMeans(Load(config, disk).value, t.now, t.code, t.freshId);
    hide Durable, Record, Raised, Failing, Extends;
  }

  class Host {
    const config: Config
    var disk: Disk
    ghost var log: Ledger

    constructor (config: Config)
      ensures this.config == config && disk.Absent? && log == BLANK && Durable(config, disk, log)
    {
      this.config := config;
      disk := Absent;
      log := BLANK;
    }

    /** Works through the outbox, saving after each delivery, until one call
        fails or the process is killed. `sent` deliveries were saved, `acked`
        were made, and notify was called `called` times. */
    method Drain(state: State, answers: nat -> bool, actions: nat)
      returns (killed: bool, notificationFailed: bool, ghost sent: nat, ghost acked: nat, ghost called: nat)
      requires disk == Stored(state)
      modifies this
      ensures sent <= acked <= called <= |state.pending| && acked <= Delivered(answers, 0, |state.pending|)
      ensures disk == Stored(Rest(state, sent))
      ensures log == Sent(old(log), state.pending, called, acked)
      ensures var n := Delivered(answers, 0, |state.pending|);
              && (killed <==> actions < 2 * n + (if n < |state.pending| then 1 else 0))
              && (killed ==> sent == actions / 2 && acked == called == (actions + 1) / 2)
              && (!killed ==> sent == acked == n && called == (if n < |state.pending| then n + 1 else n))
              && (!killed ==> notificationFailed == (n < |state.pending|))
    {
      var memory, call, budget := state, 0, actions;
      sent := 0;
      while memory.pending != []
        invariant 0 <= call == sent <= |state.pending|
        invariant Delivered(answers, 0, |state.pending|) == sent + Delivered(answers, sent, |state.pending| - sent)
        invariant memory == Rest(state, sent) && disk == Stored(memory)
        invariant log == Sent(old(log), state.pending, sent, sent)
        invariant actions == 2 * sent + budget
        decreases |memory.pending|
      {
        if budget == 0 {
          return true, false, sent, sent, sent;
        }
        budget := budget - 1;
        var ok := answers(call);
        SentOne(old(log), state.pending, sent, ok);
        log := Called(log, memory.pending[0], ok);
        if !ok {
          return false, true, sent, sent, sent + 1;
        }
        if budget == 0 {
          return true, false, sent, sent + 1, sent + 1;
        }
        budget := budget - 1;
        memory := memory.(pending := memory.pending[1..]);
        disk := Stored(memory);
        call, sent := call + 1, sent + 1;
      }
      return false, false, sent, sent, sent;
    }

    /** One tick at time `now`. `code` is what the token and probe calls report,
        `freshId` the UUID drawn if an outage opens, `answers` whether each notify
        call succeeds, and `actions` how many actions (save or notify) happen
        before the process is killed. */
    method Tick(now: int, code: Option<string>, freshId: IncidentId, answers: nat -> bool, actions: nat)
      returns (r: Outcome, ghost turn: Turn)
      requires 0 <= now
      modifies this
      ensures turn.now == now && turn.code == code && turn.freshId == freshId && Possible(config, old(disk), turn)
      ensures (disk, log) == Turned(config, old(disk), old(log), turn)
      ensures turn.saved <==> old(Runs(config, disk, now)) && actions > 0
      ensures old(Durable(config, disk, log)) ==>
                && Durable(config, disk, log)
                && (turn.saved <==> actions > 0 && (old(disk).Absent? || now >= old(disk).state.lastChecked + config.intervalSeconds))
                && (!turn.saved ==> disk == old(disk) && log == old(log))
                && (turn.saved ==>
                      && disk.Stored? && disk.state.lastChecked == now && log.results == old(log).results + [Failing(code)]
                      && disk.state.runs == 1 + (if old(disk).Absent? then 0 else old(disk).state.runs))
                && r != InvalidState
      ensures old(Load(config, disk)).None? ==> r == InvalidState
      ensures old(Load(config, disk)).Some? && !old(Runs(config, disk, now)) ==>
                r == Cooldown(|old(Load(config, disk)).value.pending|)
      ensures old(Runs(config, disk, now)) ==>
                var recorded := Record(old(Load(config, disk)).value, now, code, freshId);
                var n := Delivered(answers, 0, |recorded.pending|);
                && (r == Killed || r == Finished(code, recorded.failures, |recorded.pending| - n, n < |recorded.pending|))
                && (r.Finished? <==> actions >= 1 + 2 * n + (if n < |recorded.pending| then 1 else 0))
                && turn.acked <= n
                && (r.Killed? && actions > 0 ==> turn.sent == (actions - 1) / 2 && turn.acked == turn.called == actions / 2)
                && (r.Finished? ==> turn.sent == turn.acked == n && turn.called == (if n < |recorded.pending| then n + 1 else n))
    {
      hide Record, Raised, Durable;
      if Durable(config, disk, log) {
        RunsWhenDue(config, disk, log, now);
      }
      var loaded := Load(config, disk);
      turn := Turn(now, code, freshId, false, 0, 0, 0);
      if loaded.None? {
        return InvalidState, turn;
      }
      var state := loaded.value;
      if CoolingDown(config, state, now) {
        return Cooldown(|state.pending|), turn;
      }
      if actions == 0 {
        return Killed, turn;
      }
      log := Commit(state, log, now, code, freshId);
      state := RecordResult(state, now, code, freshId);
      disk := Stored(state);
      var killed, notificationFailed;
      ghost var sent, acked, called;
      killed, notificationFailed, sent, acked, called := Drain(state, answers, actions - 1);
      turn := Turn(now, code, freshId, true, sent, acked, called);
      if old(Durable(config, disk, log)) {
        SavedTurnShows(config, old(disk), old(log), turn);
      }
      r := if killed then Killed else Finished(code, state.failures, |disk.state.pending|, notificationFailed);
    }
  }
}
