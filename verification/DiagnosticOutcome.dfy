/** The outcome of one run: the classifier's pass over its sorted events, against
    a rule about the events as a whole. */
module DiagnosticOutcome {
  import opened Tables
  import opened DiagnosticRecords

  datatype Outcome = Recovered | Failed | Unresolved

  predicate Fatal(e: Event) {
    e.kind == PlaybackError && e.fatal
  }

  /** The newest fault before position j, or -1. */
  function LatestFault(items: seq<Event>, j: int): (k: int)
    requires 0 <= j <= |items|
    ensures -1 <= k < j
    ensures k >= 0 ==> IsIssue(items[k].kind)
    ensures forall m | k < m < j :: !IsIssue(items[m].kind)
    decreases j
  {
    if j == 0 then -1 else if IsIssue(items[j - 1].kind) then j - 1 else LatestFault(items, j - 1)
  }

  /** A signal that the sound moved on from a fault: later than it, with the
      engine playing, and at a position that shows progress. */
  predicate Proves(e: Event, fault: Event) {
    && !IsIssue(e.kind) && e.time > fault.time && e.playing
    && e.position.Some?
    && ((e.kind == RecoveryResumed && e.position.value > 0.0) ||
        (e.kind == RebufferRecovered && fault.position.Some? && e.position.value > fault.position.value + 0.05))
  }

  predicate Evidence(items: seq<Event>, j: int) {
    0 <= j < |items| && LatestFault(items, j) >= 0 && Proves(items[j], items[LatestFault(items, j)])
  }

  /** Among the first n events, some evidence has no fault after it. */
  ghost predicate IsRecovered(items: seq<Event>, n: int)
    requires 0 <= n <= |items|
  {
    exists j :: 0 <= j < n && Evidence(items, j) && forall k | j < k < n :: !IsIssue(items[k].kind)
  }

  /** Among the first n events, a fatal error has no evidence after it. */
  ghost predicate IsFatal(items: seq<Event>, n: int)
    requires 0 <= n <= |items|
  {
    exists k :: 0 <= k < n && Fatal(items[k]) && forall j | k < j < n :: !Evidence(items, j)
  }

  ghost function RuleUpTo(items: seq<Event>, n: int): Outcome
    requires 0 <= n <= |items|
  {
    if IsRecovered(items, n) then Recovered else if IsFatal(items, n) then Failed else Unresolved
  }

  ghost function Rule(items: seq<Event>): Outcome {
    RuleUpTo(items, |items|)
  }

  /** A fatal error before the evidence that recovered the run has that evidence after it. */
  lemma NotBoth(items: seq<Event>, n: int)
    requires 0 <= n <= |items|
    ensures !IsRecovered(items, n) || !IsFatal(items, n)
  {
    hide Evidence;
    if IsRecovered(items, n) {
      var j :| 0 <= j < n && Evidence(items, j) && forall m | j < m < n :: !IsIssue(items[m].kind);
      assert !Fatal(items[j]) by { EvidenceIsNoIssue(items, j); }
      forall k | 0 <= k < n && Fatal(items[k]) ensures k < j {
      }
    }
  }

  lemma EvidenceIsNoIssue(items: seq<Event>, j: int)
    requires Evidence(items, j)
    ensures !IsIssue(items[j].kind)
  {
  }

  lemma RecoveredNext(items: seq<Event>, n: int)
    requires 0 <= n < |items|
    ensures IsRecovered(items, n + 1) <==> Evidence(items, n) || (IsRecovered(items, n) && !IsIssue(items[n].kind))
  {
    if Evidence(items, n) { EvidenceIsNoIssue(items, n); }
    hide Evidence, IsIssue;
    if IsRecovered(items, n) && !IsIssue(items[n].kind) {
      var j :| 0 <= j < n && Evidence(items, j) && forall k | j < k < n :: !IsIssue(items[k].kind);
      assert forall k | j < k < n + 1 :: !IsIssue(items[k].kind);
    }
    if IsRecovered(items, n + 1) {
      var j :| 0 <= j < n + 1 && Evidence(items, j) && forall k | j < k < n + 1 :: !IsIssue(items[k].kind);
      if j < n { assert !IsIssue(items[n].kind); }
    }
  }

  lemma FatalNext(items: seq<Event>, n: int)
    requires 0 <= n < |items|
    ensures IsFatal(items, n + 1) <==> Fatal(items[n]) || (IsFatal(items, n) && !Evidence(items, n))
  {
    hide Evidence, Fatal;
    if IsFatal(items, n) && !Evidence(items, n) {
      var k :| 0 <= k < n && Fatal(items[k]) && forall j | k < j < n :: !Evidence(items, j);
      assert forall j | k < j < n + 1 :: !Evidence(items, j);
    }
    if IsFatal(items, n + 1) {
      var k :| 0 <= k < n + 1 && Fatal(items[k]) && forall j | k < j < n + 1 :: !Evidence(items, j);
      if k < n { assert !Evidence(items, n); }
    }
  }

  lemma RuleAfterFault(items: seq<Event>, n: int)
    requires 0 <= n < |items| && IsIssue(items[n].kind)
    ensures RuleUpTo(items, n + 1) ==
            if Fatal(items[n]) || RuleUpTo(items, n) == Failed then Failed else Unresolved
  {
    if Evidence(items, n) { EvidenceIsNoIssue(items, n); }
    hide Evidence, IsIssue, Fatal, IsRecovered, IsFatal;
    RecoveredNext(items, n);
    FatalNext(items, n);
    NotBoth(items, n);
  }

  lemma RuleAfterOther(items: seq<Event>, n: int)
    requires 0 <= n < |items| && !IsIssue(items[n].kind)
    ensures RuleUpTo(items, n + 1) == if Evidence(items, n) then Recovered else RuleUpTo(items, n)
  {
    assert !Fatal(items[n]);
    hide Evidence, IsIssue, Fatal, IsRecovered, IsFatal;
    RecoveredNext(items, n);
    FatalNext(items, n);
  }

  /** The classifier: one pass, remembering the newest fault. */
  method Classify(items: seq<Event>) returns (outcome: Outcome)
    ensures outcome == Rule(items)
  {
    hide RuleUpTo;
    outcome := Unresolved;
    var latest: Option<Event> := None;
    var i := 0;
    NothingIsUnresolved(items);
    while i < |items|
      invariant 0 <= i <= |items| && outcome == RuleUpTo(items, i)
      invariant latest == if LatestFault(items, i) < 0 then None else Some(items[LatestFault(items, i)])
    {
      var item := items[i];
      if IsIssue(item.kind) {
        RuleAfterFault(items, i);
        latest := Some(item);
        if item.kind == PlaybackError && item.fatal {
          outcome := Failed;
        } else if outcome != Failed {
          outcome := Unresolved;
        }
      } else {
        RuleAfterOther(items, i);
        if latest.Some? && item.time > latest.value.time && item.playing {
          var position, baseline := item.position, latest.value.position;
          var resumed := item.kind == RecoveryResumed && position.Some? && position.value > 0.0;
          var heartbeat :=
            item.kind == RebufferRecovered && position.Some? && baseline.Some? && position.value > baseline.value + 0.05;
          if resumed || heartbeat {
            outcome := Recovered;
          }
        }
      }
      i := i + 1;
    }
  }

  lemma NothingIsUnresolved(items: seq<Event>)
    ensures RuleUpTo(items, 0) == Unresolved
  {
  }

  // ---------------------------------------------- recovery behind the fault

  /** A position past where the fault was, by more than the clock's slack for a heartbeat. */
  predicate Beyond(e: Event, fault: Event) {
    e.position.Some? && fault.position.Some?
    && e.position.value > fault.position.value + if e.kind == RebufferRecovered then 0.05 else 0.0
  }

  /** Recovered by some evidence that also got past the fault's position. */
  ghost predicate RecoveredBeyond(items: seq<Event>) {
    exists j :: Evidence(items, j) && Beyond(items[j], items[LatestFault(items, j)])
                && forall k | j < k < |items| :: !IsIssue(items[k].kind)
  }

  /** A signal of this kind after position k, later and playing, with a known position. */
  predicate SignalsAfter(items: seq<Event>, k: int, j: int, kind: Kind) {
    0 <= k < j < |items| && items[j].kind == kind && items[j].time > items[k].time && items[j].playing && items[j].position.Some?
  }

  /** After the last fault something resumed above zero, but nothing resumed or
      beat beyond the fault. */
  ghost predicate OnlyBehind(items: seq<Event>) {
    var k := LatestFault(items, |items|);
    && (exists j :: SignalsAfter(items, k, j, RecoveryResumed) && items[j].position.value > 0.0)
    && (forall j :: SignalsAfter(items, k, j, RecoveryResumed) && items[j].position.value > 0.0 ==> !Beyond(items[j], items[k]))
    && (forall j :: SignalsAfter(items, k, j, RebufferRecovered) ==> !Beyond(items[j], items[k]))
  }

  /** What counts as evidence: a resumption anywhere above zero, or a heartbeat
      more than a twentieth of a second past the newest fault; either after it,
      later than it, and with the engine playing. */
  lemma EvidenceMeans(items: seq<Event>, j: int)
    ensures Evidence(items, j) <==>
            && 0 <= j < |items|
            && var k := LatestFault(items, j);
               || (SignalsAfter(items, k, j, RecoveryResumed) && items[j].position.value > 0.0)
               || (SignalsAfter(items, k, j, RebufferRecovered) && items[k].position.Some?
                   && items[j].position.value - items[k].position.value > 0.05)
  {
  }

  /** A run is recovered if the evidence is newer than the last fault; it has failed
      if it is not, but some fatal playback error has no evidence after it. */
  lemma WhenDecided(items: seq<Event>)
    ensures Rule(items) == Recovered <==>
            exists j :: Evidence(items, j) && LatestFault(items, |items|) < j
    ensures Rule(items) == Failed <==>
            exists k :: 0 <= k < |items| && items[k].kind == PlaybackError && items[k].fatal
                        && forall j | k < j < |items| :: !Evidence(items, j)
  {
    NotBoth(items, |items|);
    hide Evidence, LatestFault;
    forall j | Evidence(items, j)
      ensures LatestFault(items, |items|) < j <==> forall k | j < k < |items| :: !IsIssue(items[k].kind)
    {
      NewerThanFaults(items, j);
    }
    hide IsIssue;
  }

  lemma NewerThanFaults(items: seq<Event>, j: int)
    requires Evidence(items, j)
    ensures LatestFault(items, |items|) < j <==> forall k | j < k < |items| :: !IsIssue(items[k].kind)
  {
    EvidenceIsNoIssue(items, j);
    hide Evidence, IsIssue;
  }

  /** Behind the last fault every signal is compared with that fault. */
  lemma ComparedWithLast(items: seq<Event>, j: int)
    requires 0 <= j < |items|
    ensures LatestFault(items, |items|) < j ==> LatestFault(items, j) == LatestFault(items, |items|)
    ensures LatestFault(items, j) >= 0 && (forall k | j <= k < |items| :: !IsIssue(items[k].kind)) ==>
              LatestFault(items, j) == LatestFault(items, |items|)
  {
    hide IsIssue;
  }

  lemma EvidenceAfterLast(items: seq<Event>, j: int)
    ensures Evidence(items, j) && (forall k | j < k < |items| :: !IsIssue(items[k].kind)) <==>
            var k := LatestFault(items, |items|);
            || (SignalsAfter(items, k, j, RecoveryResumed) && items[j].position.value > 0.0)
            || (SignalsAfter(items, k, j, RebufferRecovered) && Beyond(items[j], items[k]))
  {
    if 0 <= j < |items| {
      ComparedWithLast(items, j);
      if Evidence(items, j) { EvidenceIsNoIssue(items, j); }
    }
  }

  /** A recovered run lacks evidence beyond its fault exactly if all that resumed
      did so at or behind the fault, or the fault's position is not known. */
  lemma WhenRecoveredOnlyBehind(items: seq<Event>)
    ensures IsRecovered(items, |items|) && !RecoveredBeyond(items) <==> OnlyBehind(items)
  {
    forall j: int
      ensures Evidence(items, j) && (forall k | j < k < |items| :: !IsIssue(items[k].kind)) <==>
              var k := LatestFault(items, |items|);
              || (SignalsAfter(items, k, j, RecoveryResumed) && items[j].position.value > 0.0)
              || (SignalsAfter(items, k, j, RebufferRecovered) && Beyond(items[j], items[k]))
      ensures Evidence(items, j) && (forall k | j < k < |items| :: !IsIssue(items[k].kind)) ==>
              LatestFault(items, j) == LatestFault(items, |items|)
    {
      EvidenceAfterLast(items, j);
      if Evidence(items, j) && forall k | j < k < |items| :: !IsIssue(items[k].kind) {
        EvidenceIsNoIssue(items, j);
        ComparedWithLast(items, j);
      }
    }
    hide Evidence, Beyond, SignalsAfter;
  }

  function At(kind: Kind, time: real, position: real): Event {
    Event(kind, time, Some("owner"), None, Some("run"), UNKNOWN, UNKNOWN, UNKNOWN, UNKNOWN, Some(position), true, false)
  }

  /** A rebuffer at position 9, then sound again at position 5: recovered. */
  lemma BackwardsIsRecovered()
    ensures var items := [At(Rebuffer, 1.0, 9.0), At(RecoveryResumed, 2.0, 5.0)];
            Rule(items) == Recovered && !RecoveredBeyond(items)
  {
    var items := [At(Rebuffer, 1.0, 9.0), At(RecoveryResumed, 2.0, 5.0)];
    assert LatestFault(items, 2) == 0;
    assert SignalsAfter(items, 0, 1, RecoveryResumed);
    WhenRecoveredOnlyBehind(items);
  }
}
