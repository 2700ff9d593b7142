/** The durable incident monitor: what one run records, and the ledger of what
    has happened since the state file was created. */
module RouteMonitor {
  import opened Tables

  const FAILURE_THRESHOLD: nat := 3
  const RECOVERY_THRESHOLD: nat := 2
  const SCHEMA: int := 1

  /** The part of the configuration that matters here. The state file carries its
      fingerprint; the fingerprint stands for the configuration itself. */
  datatype Config = Config(origin: string, testUserId: string, seeds: seq<string>, project: string,
                           intervalSeconds: int, timeoutSeconds: int)

  datatype Kind = Outage | Recovery

  type IncidentId = int

  datatype Event = Event(incidentId: IncidentId, kind: Kind, code: string)

  datatype State = State(schema: int, target: Config, lastChecked: int, runs: int, failures: int, successes: int,
                         incidentId: Option<IncidentId>, pending: seq<Event>)

  /** The state file: absent, present, or present with something that is not a state. */
  datatype Disk = Absent | Garbage | Stored(state: State)

  function Initial(config: Config): State {
    State(SCHEMA, config, 0, 0, 0, 0, None, [])
  }

  /** What `tick` starts from; None where it raises "invalid_state". */
  function Load(config: Config, disk: Disk): Option<State> {
    match disk
    case Absent => Some(Initial(config))
    case Garbage => None
    case Stored(s) =>
      if s.schema != SCHEMA || s.target != config then None
      else if s.lastChecked < 0 || s.runs < 0 || s.failures < 0 || s.successes < 0 then None
      else Some(s)
  }

  predicate CoolingDown(config: Config, s: State, now: int) {
    s.runs != 0 && now < s.lastChecked + config.intervalSeconds
  }

  /** `if code:` - an empty code would count as a success; no probe reports one. */
  predicate Failing(code: Option<string>) {
    code.Some? && code.value != ""
  }

  /** One probe result, recorded: counters, thresholds and the outbox. */
  function Record(s: State, now: int, code: Option<string>, freshId: IncidentId): State {
    var s1 := s.(lastChecked := now, runs := s.runs + 1);
    if Failing(code) then
      var s2 := s1.(failures := s1.failures + 1, successes := 0);
      if s2.failures >= FAILURE_THRESHOLD && s2.incidentId.None? then
        s2.(incidentId := Some(freshId), pending := s2.pending + [Event(freshId, Outage, code.value)])
      else s2
    else
      var s2 := s1.(successes := s1.successes + 1, failures := 0);
      if s2.successes >= RECOVERY_THRESHOLD && s2.incidentId.Some? then
        s2.(incidentId := None, pending := s2.pending + [Event(s2.incidentId.value, Recovery, "ok")])
      else s2
  }

  /** The events one recorded result adds to the outbox. */
  function Raised(s: State, code: Option<string>, freshId: IncidentId): (raised: seq<Event>)
    ensures |raised| <= 1
    ensures Record(s, 0, code, freshId).pending == s.pending + raised
  {
    Record(s, 0, code, freshId).pending[|s.pending|..]
  }

  /** Which files a tick can start from: none at all, where it starts from zero, or
      one of this schema and target whose counters are not negative. */
  lemma LoadMeans(config: Config, disk: Disk)
    ensures disk.Absent? ==>
              Load(config, disk).Some? &&
              var s := Load(config, disk).value;
              && s.schema == 1 && s.target == config && s.lastChecked == s.runs == s.failures == s.successes == 0
              && s.incidentId.None? && s.pending == []
    ensures disk.Garbage? ==> Load(config, disk).None?
    ensures disk.Stored? ==>
              var s := disk.state;
              if s.schema == 1 && s.target == config && s.lastChecked >= 0 && s.runs >= 0 && s.failures >= 0 && s.successes >= 0
              then Load(config, disk) == Some(s) else Load(config, disk).None?
  {
  }

  /** One result, field by field. The third failure in a row opens an incident and
      the second success in a row closes it, each with one event; a failure ends
      the successes and a success the failures. */
  lemma RecordMeans(s: State, now: int, code: Option<string>, freshId: IncidentId)
    ensures var s' := Record(s, now, code, freshId);
            && s'.schema == s.schema && s'.target == s.target && s'.lastChecked == now && s'.runs == s.runs + 1
            && if code.Some? && code.value != "" then
                 && s'.failures == s.failures + 1 && s'.successes == 0
                 && if s.failures + 1 >= 3 && s.incidentId.None? then
                      s'.incidentId == Some(freshId) && s'.pending == s.pending + [Event(freshId, Outage, code.value)]
                    else s'.incidentId == s.incidentId && s'.pending == s.pending
               else
                 && s'.successes == s.successes + 1 && s'.failures == 0
                 && if s.successes + 1 >= 2 && s.incidentId.Some? then
                      s'.incidentId.None? && s'.pending == s.pending + [Event(s.incidentId.value, Recovery, "ok")]
                    else s'.incidentId == s.incidentId && s'.pending == s.pending
  {
  }

  // ------------------------------------------------------------ the ledger

  /** Everything since the state file was created: the recorded results (true is
      a failed probe), the events raised, every notify call, every notify call
      that succeeded, and the time of the first recorded run. */
  datatype Ledger = Ledger(results: seq<bool>, events: seq<Event>, calls: seq<Event>, acks: seq<Event>, first: int)

  const BLANK := Ledger([], [], [], [], 0)

  /** Length of the run of `value` that ends the history. */
  function Trailing(results: seq<bool>, value: bool): nat {
    if results == [] || results[|results| - 1] != value then 0
    else 1 + Trailing(results[..|results| - 1], value)
  }

  ghost predicate FailedThrice(results: seq<bool>, i: int) {
    0 <= i <= |results| - 3 && results[i] && results[i + 1] && results[i + 2]
  }

  ghost predicate PassedTwice(results: seq<bool>, j: int) {
    0 <= j <= |results| - 2 && !results[j] && !results[j + 1]
  }

  /** Three failures in a row, and never again two successes in a row. */
  ghost predicate Down(results: seq<bool>) {
    exists i :: FailedThrice(results, i) && forall j | i + 3 <= j :: !PassedTwice(results, j)
  }

  /** Outage, recovery, outage, ... in pairs of one id, the last one still open;
      read from the newest event back. */
  ghost predicate Alternates(events: seq<Event>, current: Option<IncidentId>) {
    if events == [] then current.None? else
    var newest := events[|events| - 1];
    var older := events[..|events| - 1];
    if current.Some? then newest.kind == Outage && newest.incidentId == current.value && Alternates(older, None)
    else newest.kind == Recovery && Alternates(older, Some(newest.incidentId))
  }

  /** The same, event by event. */
  lemma {:induction false} AlternatesMeans(events: seq<Event>, current: Option<IncidentId>)
    requires Alternates(events, current)
    ensures forall i | 0 <= i < |events| :: events[i].kind == if i % 2 == 0 then Outage else Recovery
    ensures forall i | 0 <= i < |events| - 1 && i % 2 == 0 :: events[i].incidentId == events[i + 1].incidentId
    ensures current.Some? <==> |events| % 2 == 1
    decreases |events|
  {
    if events == [] {
    } else {
      var newest := events[|events| - 1];
      AlternatesMeans(events[..|events| - 1], if current.Some? then None else Some(newest.incidentId));
      if |events| > 1 && current.None? {
        assert Alternates(events[..|events| - 1], Some(newest.incidentId));
        assert events[|events| - 2].incidentId == newest.incidentId;
      }
    }
  }

  lemma {:induction false} NeighboursDiffer(events: seq<Event>, current: Option<IncidentId>, i: int)
    requires Alternates(events, current) && 0 < i < |events|
    ensures events[i - 1] != events[i]
    decreases |events|
  {
    var newest, older := events[|events| - 1], events[..|events| - 1];
    var before := if current.Some? then None else Some(newest.incidentId);
    if i == |events| - 1 {
      assert Alternates(older, before) && older[i - 1] == older[|older| - 1];
    } else {
      NeighboursDiffer(older, before, i);
    }
  }

  function Outages(events: seq<Event>): nat {
    if events == [] then 0 else (if events[|events| - 1].kind == Outage then 1 else 0) + Outages(events[..|events| - 1])
  }

  function Recoveries(events: seq<Event>): nat {
    if events == [] then 0 else (if events[|events| - 1].kind == Recovery then 1 else 0) + Recoveries(events[..|events| - 1])
  }

  /** A sequence with adjacent repeats collapsed. */
  function Collapse(s: seq<Event>): (r: seq<Event>)
    ensures |r| <= |s| && (s != [] ==> r != [] && r[|r| - 1] == s[|s| - 1])
  {
    if |s| <= 1 then s
    else if s[|s| - 1] == s[|s| - 2] then Collapse(s[..|s| - 1])
    else Collapse(s[..|s| - 1]) + [s[|s| - 1]]
  }

  /** The calls, repeats apart, are the first events: all that have left the
      outbox, and perhaps the one at its head. */
  ghost predicate InOrder(calls: seq<Event>, events: seq<Event>, gone: int) {
    var heard := Collapse(calls);
    gone <= |heard| <= gone + 1 && heard <= events
  }

  ghost predicate Outbox(events: seq<Event>, pending: seq<Event>) {
    |pending| <= |events| && pending == events[|events| - |pending|..]
  }

  /** The counters are the runs that end the history, and an incident is open
      exactly when the history is down. */
  ghost predicate Tracks(s: State, results: seq<bool>) {
    && s.runs == |results|
    && s.failures == Trailing(results, true)
    && s.successes == Trailing(results, false)
    && (s.incidentId.Some? <==> Down(results))
  }

  ghost predicate Delivers(s: State, log: Ledger) {
    && Alternates(log.events, s.incidentId)
    && Outbox(log.events, s.pending)
    && InOrder(log.calls, log.events, |log.events| - |s.pending|)
    && InOrder(log.acks, log.events, |log.events| - |s.pending|)
  }

  /** Every outage used up three runs and every recovery two; `s` says how many
      are saved up for the next event. */
  ghost predicate Economical(s: State, events: seq<Event>) {
    && 3 * Outages(events) + 2 * Recoveries(events) + (if s.incidentId.Some? then s.successes else s.failures) <= s.runs
    && (if s.incidentId.Some? then s.successes < RECOVERY_THRESHOLD else s.failures < FAILURE_THRESHOLD)
  }

  ghost predicate Paced(config: Config, s: State, log: Ledger) {
    0 <= log.first && log.first + (s.runs - 1) * config.intervalSeconds <= s.lastChecked
  }

  /** What the state file and the ledger say about each other at any moment,
      also right after a crash. */
  ghost predicate Durable(config: Config, disk: Disk, log: Ledger) {
    match disk
    case Absent => log == BLANK
    case Garbage => false
    case Stored(s) =>
      && s.schema == SCHEMA && s.target == config && 0 < s.runs && 0 <= s.lastChecked
      && Tracks(s, log.results) && Delivers(s, log) && Economical(s, log.events) && Paced(config, s, log)
  }

  // -------------------------------------------------------- recorded runs

  lemma TrailingStep(results: seq<bool>, b: bool)
    ensures Trailing(results + [b], b) == Trailing(results, b) + 1 && Trailing(results + [b], !b) == 0
  {
    assert (results + [b])[..|results|] == results;
  }

  lemma TrailingMeans(results: seq<bool>, value: bool)
    ensures Trailing(results, value) <= |results|
    ensures forall k | |results| - Trailing(results, value) <= k < |results| :: results[k] == value
    ensures Trailing(results, value) < |results| ==> results[|results| - Trailing(results, value) - 1] != value
  {
  }

  /** The declarative incident, one result at a time. */
  lemma DownStep(results: seq<bool>, b: bool)
    ensures Down(results + [b]) ==
            if b then Down(results) || Trailing(results + [b], true) >= FAILURE_THRESHOLD
            else Down(results) && Trailing(results + [b], false) < RECOVERY_THRESHOLD
  {
    var after := results + [b];
    TrailingStep(results, b);
    TrailingMeans(results, b);
    TrailingMeans(after, b);
    assert forall j | 0 <= j <= |results| - 2 :: PassedTwice(after, j) <==> PassedTwice(results, j);
    if Down(after) {
      var i :| FailedThrice(after, i) && forall j | i + 3 <= j :: !PassedTwice(after, j);
      if i + 2 < |results| {
        assert FailedThrice(results, i);
        assert forall j | i + 3 <= j :: !PassedTwice(results, j);
        if !b && Trailing(after, false) >= 2 {
          assert PassedTwice(after, |results| - 1);
        }
      } else {
        assert Trailing(results, true) >= 2;
      }
    }
    if Down(results) {
      var i :| FailedThrice(results, i) && forall j | i + 3 <= j :: !PassedTwice(results, j);
      assert FailedThrice(after, i);
      if b || Trailing(after, false) < 2 {
        assert !PassedTwice(after, |results| - 1);
        forall j | i + 3 <= j ensures !PassedTwice(after, j) {
          if j <= |results| - 2 {
            assert !PassedTwice(results, j);
          }
        }
      }
    }
    if b && Trailing(after, true) >= 3 {
      assert FailedThrice(after, |results| - 2);
    }
  }

  lemma OutagesAppend(events: seq<Event>, e: Event)
    ensures Outages(events + [e]) == Outages(events) + if e.kind == Outage then 1 else 0
    ensures Recoveries(events + [e]) == Recoveries(events) + if e.kind == Recovery then 1 else 0
  {
    assert (events + [e])[..|events|] == events;
  }

  lemma AlternatesAppend(events: seq<Event>, current: Option<IncidentId>, e: Event)
    requires Alternates(events, current)
    requires e.kind == (if current.Some? then Recovery else Outage)
    requires current.Some? ==> e.incidentId == current.value
    ensures Alternates(events + [e], if current.Some? then None else Some(e.incidentId))
  {
    assert (events + [e])[..|events|] == events;
  }

  /** The ledger after a result was recorded and saved. */
  function Commit(s: State, log: Ledger, now: int, code: Option<string>, freshId: IncidentId): Ledger {
    Ledger(log.results + [Failing(code)], log.events + Raised(s, code, freshId), log.calls, log.acks,
           if log.results == [] then now else log.first)
  }

  lemma InOrderGrows(calls: seq<Event>, events: seq<Event>, gone: int, more: seq<Event>)
    requires InOrder(calls, events, gone)
    ensures InOrder(calls, events + more, gone)
  {
  }

  /** A recorded result raises at most one event, and exactly when it opens or
      closes the incident. */
  lemma RecordRaises(s: State, now: int, code: Option<string>, freshId: IncidentId)
    ensures var s' := Record(s, now, code, freshId);
            var raised := Raised(s, code, freshId);
            && s'.pending == s.pending + raised
            && if s'.incidentId == s.incidentId then raised == [] else
               |raised| == 1 && raised[0].kind == (if s.incidentId.Some? then Recovery else Outage)
               && s'.incidentId == (if s.incidentId.Some? then None else Some(raised[0].incidentId))
               && (s.incidentId.Some? ==> raised[0].incidentId == s.incidentId.value)
  {
  }

  /** Raising one more event keeps history, outbox and calls together. */
  lemma RaiseKeepsOutbox(log: Ledger, pending: seq<Event>, current: Option<IncidentId>, e: Event)
    requires Alternates(log.events, current) && Outbox(log.events, pending)
    requires e.kind == (if current.Some? then Recovery else Outage)
    requires current.Some? ==> e.incidentId == current.value
    ensures Alternates(log.events + [e], if current.Some? then None else Some(e.incidentId))
    ensures Outbox(log.events + [e], pending + [e])
  {
    AlternatesAppend(log.events, current, e);
  }

  lemma CommitCounts(s: State, log: Ledger, now: int, code: Option<string>, freshId: IncidentId)
    ensures var events := Commit(s, log, now, code, freshId).events;
            var raised := Raised(s, code, freshId);
            && Outages(events) == Outages(log.events) + (if raised != [] && raised[0].kind == Outage then 1 else 0)
            && Recoveries(events) == Recoveries(log.events) + (if raised != [] && raised[0].kind == Recovery then 1 else 0)
  {
    hide Outages, Recoveries, Record;
    var raised := Raised(s, code, freshId);
    if raised != [] {
      assert raised == [raised[0]];
      OutagesAppend(log.events, raised[0]);
    } else {
      assert log.events + raised == log.events;
    }
  }

  lemma CommitKeepsEconomical(s: State, log: Ledger, now: int, code: Option<string>, freshId: IncidentId)
    requires s.runs >= 0 && s.failures >= 0 && s.successes >= 0 && Economical(s, log.events)
    ensures Economical(Record(s, now, code, freshId), Commit(s, log, now, code, freshId).events)
  {
    RecordRaises(s, now, code, freshId);
    CommitCounts(s, log, now, code, freshId);
    hide Outages, Recoveries, Raised, Commit;
  }

  lemma CommitKeepsTracks(s: State, log: Ledger, now: int, code: Option<string>, freshId: IncidentId)
    requires Tracks(s, log.results)
    ensures Tracks(Record(s, now, code, freshId), Commit(s, log, now, code, freshId).results)
  {
    DownStep(log.results, Failing(code));
    TrailingStep(log.results, Failing(code));
  }

  lemma CommitKeepsDelivers(s: State, log: Ledger, now: int, code: Option<string>, freshId: IncidentId)
    requires Delivers(s, log)
    ensures Delivers(Record(s, now, code, freshId), Commit(s, log, now, code, freshId))
  {
    var raised := Raised(s, code, freshId);
    RecordRaises(s, now, code, freshId);
    if raised == [] {
      assert log.events + raised == log.events && s.pending + raised == s.pending;
    } else {
      assert raised == [raised[0]];
      RaiseKeepsOutbox(log, s.pending, s.incidentId, raised[0]);
      InOrderGrows(log.calls, log.events, |log.events| - |s.pending|, raised);
      InOrderGrows(log.acks, log.events, |log.events| - |s.pending|, raised);
    }
  }

  lemma CommitKeepsPaced(config: Config, s: State, log: Ledger, now: int, code: Option<string>, freshId: IncidentId)
    requires 0 <= now && s.runs == |log.results| && !CoolingDown(config, s, now)
    requires log.results != [] ==> Paced(config, s, log)
    ensures Paced(config, Record(s, now, code, freshId), Commit(s, log, now, code, freshId))
    ensures log.results != [] ==> Record(s, now, code, freshId).lastChecked >= s.lastChecked + config.intervalSeconds
  {
    var s' := Record(s, now, code, freshId);
    assert s'.runs - 1 == s.runs && s'.lastChecked == now;
    if s.runs != 0 {
      assert s.runs * config.intervalSeconds == (s.runs - 1) * config.intervalSeconds + config.intervalSeconds;
    }
  }

  lemma NothingYet(config: Config)
    ensures var s := Initial(config);
            Tracks(s, []) && Delivers(s, BLANK) && Economical(s, [])
  {
    assert !Down([]);
  }

  /** Recording a result and saving it, whatever was in the file before. */
  lemma CommitKeepsDurable(config: Config, disk: Disk, log: Ledger, now: int, code: Option<string>, freshId: IncidentId)
    requires Durable(config, disk, log) && 0 <= now
    requires Load(config, disk).Some? && !CoolingDown(config, Load(config, disk).value, now)
    ensures var s := Load(config, disk).value;
            Durable(config, Stored(Record(s, now, code, freshId)), Commit(s, log, now, code, freshId))
  {
    var s := Load(config, disk).value;
    hide Alternates, Outbox, InOrder, Down, Trailing, Outages, Recoveries, Raised;
    NothingYet(config);
    CommitKeepsPaced(config, s, log, now, code, freshId);
    CommitKeepsEconomical(s, log, now, code, freshId);
    CommitKeepsTracks(s, log, now, code, freshId);
    CommitKeepsDelivers(s, log, now, code, freshId);
    var s' := Record(s, now, code, freshId);
    RecordMeans(s, now, code, freshId);
    hide Record, Tracks, Delivers, Economical, Paced;
  }

  /** What the monitor saved it can load again, and what it has not saved yet it starts from zero. */
  lemma SavedIsLoaded(config: Config, disk: Disk, log: Ledger)
    requires Durable(config, disk, log)
    ensures disk.Stored? ==> Load(config, disk) == Some(disk.state) && disk.state.runs == |log.results| > 0
    ensures disk.Absent? ==> Load(config, disk) == Some(State(1, config, 0, 0, 0, 0, None, []))
    ensures !disk.Garbage?
  {
    hide Delivers, Economical, Paced, Down;
    if disk.Stored? { CountersNonNegative(disk.state, log.results); }
  }

  // ----------------------------------------------------- delivering events

  lemma CollapseAppend(calls: seq<Event>, e: Event)
    ensures Collapse(calls + [e]) ==
            if calls != [] && calls[|calls| - 1] == e then Collapse(calls) else Collapse(calls) + [e]
  {
    assert (calls + [e])[..|calls|] == calls;
  }

  /** Calling notify on the head of the outbox keeps the calls in order, whether
      it is the first attempt or a repeat. */
  lemma CallKeepsOrder(calls: seq<Event>, events: seq<Event>, current: Option<IncidentId>, gone: int)
    requires Alternates(events, current) && 0 <= gone < |events| && InOrder(calls, events, gone)
    ensures Collapse(calls + [events[gone]]) == events[..gone + 1]
  {
    hide Alternates, Collapse;
    CollapseAppend(calls, events[gone]);
    var heard := Collapse(calls);
    if |heard| == gone {
      if gone > 0 {
        NeighboursDiffer(events, current, gone);
        assert heard[gone - 1] == events[gone - 1];
      }
      assert heard == events[..gone];
    } else {
      assert heard == events[..gone + 1];
    }
  }

  /** A notify call on the head of the outbox, successful or not. */
  function Called(log: Ledger, head: Event, ok: bool): Ledger {
    log.(calls := log.calls + [head], acks := if ok then log.acks + [head] else log.acks)
  }

  lemma CallKeepsDelivers(s: State, log: Ledger, ok: bool)
    requires Delivers(s, log) && s.pending != []
    ensures Delivers(s, Called(log, s.pending[0], ok))
    ensures ok ==> Delivers(s.(pending := s.pending[1..]), Called(log, s.pending[0], ok))
  {
    var gone := |log.events| - |s.pending|;
    assert s.pending[0] == log.events[gone];
    CallKeepsOrder(log.calls, log.events, s.incidentId, gone);
    CallKeepsOrder(log.acks, log.events, s.incidentId, gone);
  }

  /** Delivery touches only the outbox and the calls. */
  lemma DeliveryKeepsDurable(config: Config, s: State, log: Ledger, s': State, log': Ledger)
    requires Durable(config, Stored(s), log)
    requires s' == s.(pending := s'.pending) && log' == log.(calls := log'.calls, acks := log'.acks)
    requires Delivers(s', log')
    ensures Durable(config, Stored(s'), log')
  {
    assert (s'.runs - 1) * config.intervalSeconds == (s.runs - 1) * config.intervalSeconds;
  }

  // -------------------------------------------------------------- results

  /** No event is lost, reordered, or announced as a recovery before its outage:
      the calls, repeats apart, are a prefix of the alternating history, and
      whatever left the outbox was delivered. */
  lemma CallsFollowHistory(config: Config, s: State, log: Ledger)
    requires Durable(config, Stored(s), log)
    ensures Alternates(log.events, s.incidentId) && (s.incidentId.Some? <==> |log.events| % 2 == 1)
    ensures Collapse(log.calls) <= log.events && Collapse(log.acks) <= log.events
    ensures exists gone | 0 <= gone <= |Collapse(log.acks)| :: log.events == Collapse(log.acks)[..gone] + s.pending
  {
    AlternatesMeans(log.events, s.incidentId);
    var gone := |log.events| - |s.pending|;
    assert Collapse(log.acks)[..gone] == log.events[..gone];
    assert log.events == log.events[..gone] + log.events[gone..];
  }

  lemma CountersNonNegative(s: State, results: seq<bool>)
    requires Tracks(s, results)
    ensures s.failures >= 0 && s.successes >= 0
  {
  }

  lemma MoreEach(gaps: nat, interval: int)
    requires 900 <= interval
    ensures gaps * 900 <= gaps * interval
  {
  }

  /** Events are rationed by elapsed time, at the shortest interval a
      configuration may set. */
  lemma EventsBoundedByTime(config: Config, s: State, log: Ledger)
    requires Durable(config, Stored(s), log) && 900 <= config.intervalSeconds
    ensures 3 * Outages(log.events) + 2 * Recoveries(log.events) <= s.runs
    ensures 900 * (3 * Outages(log.events) + 2 * Recoveries(log.events) - 1) <= s.lastChecked - log.first
  {
    hide Tracks, Delivers, Trailing, Outages, Recoveries;
    assert s.failures >= 0 && s.successes >= 0 by { CountersNonNegative(s, log.results); }
    var gaps, interval := s.runs - 1, config.intervalSeconds;
    assert gaps * 900 <= gaps * interval by { MoreEach(gaps, interval); }
  }
}
