/** From records to runs: what reordering a delivery can do to the outcome of a
    run, and exactly when it can. */
module DiagnosticDeliveryOrder {
  import opened Tables
  import opened DiagnosticRecords
  import opened DiagnosticDeliveries
  import opened DiagnosticOutcome
  import opened DiagnosticOrder
  import opened DiagnosticTies

  /** The events of one run as the report sees them, from the records as delivered. */
  ghost function RunOf(records: seq<Json>, begin: real, until: real, key: RunKey): seq<Event> {
    RunEvents(EventsOf(Survivors(records, |records|)), begin, until, key)
  }

  lemma SameMembers(a: seq<Event>, b: seq<Event>)
    requires multiset(a) == multiset(b)
    ensures Members(a) == Members(b)
  {
    assert forall e :: e in a <==> e in multiset(a);
    assert forall e :: e in b <==> e in multiset(b);
  }

  lemma RunOfSame(a: seq<Json>, b: seq<Json>, begin: real, until: real, key: RunKey)
    requires Prints(a) == Prints(b)
    ensures Sorted(RunOf(a, begin, until, key)) && Sorted(RunOf(b, begin, until, key))
    ensures Members(RunOf(a, begin, until, key)) == Members(RunOf(b, begin, until, key))
  {
    hide EventsOf, Survivors, Prints, RunEvents, Sorted, Members;
    DeliveryOrderDoesNotMatter(a, b);
    RunEventsSame(EventsOf(Survivors(a, |a|)), EventsOf(Survivors(b, |b|)), begin, until, key);
    RunEventsSame(EventsOf(Survivors(b, |b|)), EventsOf(Survivors(a, |a|)), begin, until, key);
    SameMembers(RunOf(a, begin, until, key), RunOf(b, begin, until, key));
  }

  // ------------------------------------------------ good events delivered last

  lemma {:induction false} InsertFavors(x: Event, s: seq<Event>, good: Event -> bool)
    requires Sorted(s) && Favors(s, good) && (good(x) ==> forall e | e in s && Ties(x, e) :: good(e))
    ensures Favors(Insert(x, s), good)
    decreases |s|
  {
    hide Before;
    if s == [] || Before(x, s[0]) {
    } else {
      var rest := Insert(x, s[1..]);
      InsertFavors(x, s[1..], good);
      InsertKeeps(x, s[1..]);
      forall j | 0 <= j < |rest| && Ties(s[0], rest[j]) && good(s[0]) ensures good(rest[j]) {
        assert rest[j] in multiset(rest);
        assert rest[j] == x || rest[j] in s[1..];
        if rest[j] != x {
          var m :| 0 <= m < |s| - 1 && s[1..][m] == rest[j];
          assert s[m + 1] == rest[j];
        }
      }
    }
  }

  lemma {:induction false} SortFavors(s: seq<Event>, good: Event -> bool)
    requires Favors(s, good)
    ensures Favors(Sort(s), good)
    decreases |s|
  {
    hide Before;
    if s == [] {
    } else {
      var rest := s[1..];
      SortFavors(rest, good);
      SortSorts(rest);
      forall e | e in Sort(rest) && Ties(s[0], e) && good(s[0]) ensures good(e) {
        assert e in multiset(Sort(rest));
        var m :| 0 <= m < |rest| && rest[m] == e;
        assert s[m + 1] == e;
      }
      InsertFavors(s[0], Sort(rest), good);
    }
  }

  lemma {:induction false} SelectFavors(s: seq<Event>, keep: Event -> bool, good: Event -> bool)
    requires Favors(s, good)
    ensures Favors(Select(s, keep), good)
    decreases |s|
  {
    hide Before;
    if s == [] {
    } else {
      var rest := Select(s[1..], keep);
      SelectFavors(s[1..], keep, good);
      SelectContains(s[1..], keep);
      forall j | 0 <= j < |rest| && Ties(s[0], rest[j]) && good(s[0]) ensures good(rest[j]) {
        assert rest[j] in rest;
        var m :| 0 <= m < |s| - 1 && s[1..][m] == rest[j];
        assert s[m + 1] == rest[j];
      }
    }
  }

  lemma {:induction false} EventsOfAt(prints: seq<Fields>)
    ensures |EventsOf(prints)| == |prints| && forall i | 0 <= i < |prints| :: EventsOf(prints)[i] == EventOf(prints[i])
    decreases |prints|
  {
    hide EventOf;
    if prints == [] {
    } else {
      EventsOfAt(prints[1..]);
    }
  }

  predicate Brought(record: Json, good: Event -> bool) {
    Valid(record) && good(EventOf(PrintOf(record)))
  }

  function GoodOnes(good: Event -> bool): Json -> bool {
    (record: Json) => Brought(record, good)
  }

  function OtherOnes(good: Event -> bool): Json -> bool {
    (record: Json) => !Brought(record, good)
  }

  /** The same records, those with a good event last. */
  function GoodLast(records: seq<Json>, good: Event -> bool): seq<Json> {
    Select(records, OtherOnes(good)) + Select(records, GoodOnes(good))
  }

  lemma {:induction false} GoodLastIsReordered(records: seq<Json>, good: Event -> bool)
    ensures multiset(GoodLast(records, good)) == multiset(records)
    decreases |records|
  {
    hide Brought;
    if records == [] {
    } else {
      GoodLastIsReordered(records[1..], good);
      assert records == [records[0]] + records[1..];
    }
  }

  lemma GoodComeLast(records: seq<Json>, good: Event -> bool, i: nat, j: nat)
    requires i <= j < |GoodLast(records, good)| && Brought(GoodLast(records, good)[i], good)
    ensures Brought(GoodLast(records, good)[j], good)
  {
    hide Brought, Select;
    var front, back := Select(records, OtherOnes(good)), Select(records, GoodOnes(good));
    SelectContains(records, OtherOnes(good));
    SelectContains(records, GoodOnes(good));
    forall k | 0 <= k < |front| ensures !Brought(front[k], good) {
      assert front[k] in front;
    }
    assert back[j - |front|] in back;
  }

  /** Delivered last, the good events are listed last. */
  lemma GoodAreListedLast(records: seq<Json>, good: Event -> bool)
    ensures var late := GoodLast(records, good); Favors(EventsOf(Survivors(late, |late|)), good)
  {
    var late := GoodLast(records, good);
    var kept := Survivors(late, |late|);
    EventsOfAt(kept);
    hide GoodLast, Survivors, EventsOf, EventOf, Ties, Brings, Survives, Prints;
    forall i, j | 0 <= i < j < |kept| && good(EventOf(kept[i])) ensures good(EventOf(kept[j])) {
      SurvivorsInOrder(late, |late|, i, j);
      SurvivorsCome(late, |late|, kept[i]);
      SurvivorsCome(late, |late|, kept[j]);
      assert kept[i] in kept && kept[j] in kept;
      GoodComeLast(records, good, First(late, IdentityOf(kept[i])), First(late, IdentityOf(kept[j])));
    }
  }

  lemma GoodRunsLast(records: seq<Json>, good: Event -> bool, begin: real, until: real, key: RunKey)
    ensures Favors(RunOf(GoodLast(records, good), begin, until, key), good)
  {
    hide GoodLast, Survivors, EventsOf, Sort, Select, Favors;
    GoodAreListedLast(records, good);
    var late := GoodLast(records, good);
    var available := EventsOf(Survivors(late, |late|));
    SortFavors(available, good);
    SelectFavors(Sort(available), InWindow(begin, until), good);
    SelectFavors(Select(Sort(available), InWindow(begin, until)), OfRun(key), good);
  }

  // ------------------------------------------------------------- main results

  /** Some reordering of the same records gives the run another outcome. */
  ghost predicate DependsOnDelivery(records: seq<Json>, begin: real, until: real, key: RunKey) {
    exists other :: multiset(other) == multiset(records)
                    && Rule(RunOf(other, begin, until, key)) != Rule(RunOf(records, begin, until, key))
  }

  /** Without an order that matters every delivery of the same events, copies
      included, gives the run the same outcome. */
  lemma NoOrderMatters(records: seq<Json>, other: seq<Json>, begin: real, until: real, key: RunKey)
    requires Prints(other) == Prints(records) && !OrderMatters(Members(RunOf(records, begin, until, key)))
    ensures Rule(RunOf(other, begin, until, key)) == Rule(RunOf(records, begin, until, key))
  {
    RunOfSame(records, other, begin, until, key);
    hide RunOf, Members, OrderMatters, Sorted, Rule;
    if Rule(RunOf(other, begin, until, key)) != Rule(RunOf(records, begin, until, key)) {
      DifferenceMatters(RunOf(records, begin, until, key), RunOf(other, begin, until, key));
    }
  }

  lemma SomeOrderMatters(records: seq<Json>, begin: real, until: real, key: RunKey)
    ensures OrderMatters(Members(RunOf(records, begin, until, key))) ==> DependsOnDelivery(records, begin, until, key)
  {
    var run := Members(RunOf(records, begin, until, key));
    var best, worst := GoodLast(records, PassedIn(run)), GoodLast(records, NotPassedIn(run));
    hide RunOf, Members, OrderMatters, Sorted, Rule, GoodLast, PassedIn, NotPassedIn, Favors, Prints;
    GoodLastIsReordered(records, PassedIn(run));
    GoodLastIsReordered(records, NotPassedIn(run));
    SameRecordsSamePrints(best, records);
    SameRecordsSamePrints(worst, records);
    RunOfSame(best, records, begin, until, key);
    RunOfSame(worst, records, begin, until, key);
    GoodRunsLast(records, PassedIn(run), begin, until, key);
    GoodRunsLast(records, NotPassedIn(run), begin, until, key);
    ExtremesDiffer(RunOf(best, begin, until, key), RunOf(worst, begin, until, key));
    assert OrderMatters(run) ==>
             Rule(RunOf(best, begin, until, key)) != Rule(RunOf(records, begin, until, key))
             || Rule(RunOf(worst, begin, until, key)) != Rule(RunOf(records, begin, until, key));
  }

  /** The order of delivery decides the outcome of a run exactly if the run's own
      events say so. */
  lemma WhenDeliveryDecides(records: seq<Json>, begin: real, until: real, key: RunKey)
    ensures DependsOnDelivery(records, begin, until, key) <==> OrderMatters(Members(RunOf(records, begin, until, key)))
  {
    hide OrderMatters, RunOf, Members, Rule, Prints;
    if OrderMatters(Members(RunOf(records, begin, until, key))) {
      SomeOrderMatters(records, begin, until, key);
    } else {
      forall other | multiset(other) == multiset(records)
        ensures Rule(RunOf(other, begin, until, key)) == Rule(RunOf(records, begin, until, key))
      {
        SameRecordsSamePrints(other, records);
        NoOrderMatters(records, other, begin, until, key);
      }
    }
  }

  // ------------------------------------------------------------ an instance

  /** A journal record without an event id. */
  function Record(kind: Kind, time: nat, position: nat): (r: Json)
    ensures r.Obj?
  {
    Obj(map["event" := Str(NameOf(kind)), "userId" := Str("owner"), "observedAtMs" := Int(time),
            "fields" := Obj(map["playbackRunId" := Str("run"), "currentTimeSec" := Int(position), "enginePlaying" := Bool(true)])])
  }

  /** A record that is its own identity. */
  ghost predicate Lone(record: Json) {
    Valid(record) && IdentityOf(record.fields) == Exact(record.fields) && PrintOf(record) == record.fields
  }

  lemma RecordEvent(kind: Kind, time: nat, position: nat)
    requires time < 1000 && position < 1000
    ensures Normalize(Record(kind, time, position)) == Some(At(kind, time as real, position as real))
  {
    NamesRoundTrip(kind, NameOf(kind));
    hide NameOf, KindNamed;
  }

  lemma RecordIs(kind: Kind, time: nat, position: nat)
    requires time < 1000 && position < 1000
    ensures Lone(Record(kind, time, position))
    ensures EventOf(Record(kind, time, position).fields) == At(kind, time as real, position as real)
  {
    RecordEvent(kind, time, position);
    hide NormalizeFields, NameOf;
  }

  lemma RecordsDiffer(kind: Kind, time: nat, position: nat, kind': Kind, time': nat, position': nat)
    requires (time, position) != (time', position')
    ensures Record(kind, time, position) != Record(kind', time', position')
  {
    var f, g := Record(kind, time, position).fields, Record(kind', time', position').fields;
    hide NameOf;
    assert f["observedAtMs"] == Int(time) && g["observedAtMs"] == Int(time');
    assert f["fields"].fields["currentTimeSec"] == Int(position) && g["fields"].fields["currentTimeSec"] == Int(position');
  }

  ghost predicate Anonymous(records: seq<Json>) {
    && (forall i | 0 <= i < |records| :: Lone(records[i]))
    && (forall i, j | 0 <= i < j < |records| :: records[i] != records[j])
  }

  lemma ThreeAnonymous(r: Json, s: Json, t: Json)
    requires Lone(r) && Lone(s) && Lone(t) && r != s && r != t && s != t
    ensures Anonymous([r, s, t])
  {
    hide Lone;
  }

  /** Different records without ids all survive, in order of delivery. */
  lemma {:induction false} AnonymousSurvive(records: seq<Json>, n: nat)
    requires n <= |records| && Anonymous(records)
    ensures |Survivors(records, n)| == n
    ensures forall i | 0 <= i < n :: Survivors(records, n)[i] == records[i].fields
  {
    hide Anonymous, IsFirst, Quarantined, Prints, IdentityOf;
    if n == 0 {
    } else {
      AnonymousSurvive(records, n - 1);
      AnonymousIsFirst(records, n - 1);
    }
  }

  lemma AnonymousIsFirst(records: seq<Json>, k: nat)
    requires k < |records| && Anonymous(records)
    ensures IsFirst(records, k) && !Quarantined(Prints(records), IdentityOf(records[k].fields)) && PrintOf(records[k]) == records[k].fields
  {
    hide NormalizeFields, IdentityOf, PrintOf, Fingerprint;
    var first := First(records, IdentityOf(records[k].fields));
    assert Brings(records[k], IdentityOf(records[k].fields));
    assert records[first] == records[k] by {
      assert Exact(records[first].fields) == Exact(records[k].fields);
      assert records[first].Obj? && records[k].Obj?;
    }
    forall p | p in Prints(records) ensures IdentityOf(p) == Exact(p) {
      var r :| r in records && Valid(r) && PrintOf(r) == p;
    }
  }

  /** Two rebuffers at one instant, then a recovery signal at position 5. */
  function Trio(first: nat, second: nat): seq<Json> {
    [Record(Rebuffer, 1, first), Record(Rebuffer, 1, second), Record(RebufferRecovered, 2, 5)]
  }

  function TrioEvents(first: nat, second: nat): seq<Event> {
    [At(Rebuffer, 1.0, first as real), At(Rebuffer, 1.0, second as real), At(RebufferRecovered, 2.0, 5.0)]
  }

  lemma TrioIsAnonymous(first: nat, second: nat)
    requires first < 1000 && second < 1000 && first != second
    ensures Anonymous(Trio(first, second))
    ensures forall i | 0 <= i < 3 :: EventOf(Trio(first, second)[i].fields) == TrioEvents(first, second)[i]
  {
    hide Record, Lone, Anonymous, At, EventOf;
    RecordIs(Rebuffer, 1, first);
    RecordIs(Rebuffer, 1, second);
    RecordIs(RebufferRecovered, 2, 5);
    RecordsDiffer(Rebuffer, 1, first, Rebuffer, 1, second);
    RecordsDiffer(Rebuffer, 1, first, RebufferRecovered, 2, 5);
    RecordsDiffer(Rebuffer, 1, second, RebufferRecovered, 2, 5);
    ThreeAnonymous(Record(Rebuffer, 1, first), Record(Rebuffer, 1, second), Record(RebufferRecovered, 2, 5));
  }

  lemma TrioSurvives(first: nat, second: nat)
    requires first < 1000 && second < 1000 && first != second
    ensures EventsOf(Survivors(Trio(first, second), 3)) == TrioEvents(first, second)
  {
    hide Anonymous, Trio, TrioEvents, EventsOf, Survivors, EventOf;
    assert |Trio(first, second)| == |TrioEvents(first, second)| == 3 by { TrioSize(first, second); }
    TrioIsAnonymous(first, second);
    AnonymousSurvive(Trio(first, second), 3);
    EventsOfAt(Survivors(Trio(first, second), 3));
  }

  lemma TrioSize(first: nat, second: nat)
    ensures |Trio(first, second)| == |TrioEvents(first, second)| == 3
    ensures multiset(Trio(first, second)) == multiset(Trio(second, first))
  {
    hide Record;
  }

  lemma TrioIsSorted(first: nat, second: nat, begin: real)
    requires begin <= 1.0
    ensures RunEvents(TrioEvents(first, second), begin, 2.0, ("owner", "run")) == TrioEvents(first, second)
  {
    hide RunEvents;
    NothingToDo(TrioEvents(first, second), begin, 2.0, ("owner", "run"));
  }

  lemma TrioRun(first: nat, second: nat, begin: real)
    requires first < 1000 && second < 1000 && first != second && begin <= 1.0
    ensures RunOf(Trio(first, second), begin, 2.0, ("owner", "run")) == TrioEvents(first, second)
  {
    hide Trio, TrioEvents, Survivors, EventsOf, RunEvents;
    TrioSize(first, second);
    TrioSurvives(first, second);
    TrioIsSorted(first, second, begin);
  }

  lemma TrioOutcome(first: nat, second: nat)
    ensures Rule(TrioEvents(first, second)) == if 5.0 > second as real + 0.05 then Recovered else Unresolved
  {
    var s := TrioEvents(first, second);
    assert LatestFault(s, 2) == 1;
    assert Evidence(s, 2) <==> 5.0 > second as real + 0.05;
    assert !Evidence(s, 0) && !Evidence(s, 1);
    assert forall k | 0 <= k < 3 :: !Fatal(s[k]);
  }

  /** With a tie the order of delivery can decide: of two rebuffers reported for the
      same instant, the one delivered last sets the position to get past. */
  lemma TiesAreVisible(begin: real)
    requires begin <= 1.0
    ensures var a, b, key := Trio(9, 4), Trio(4, 9), ("owner", "run");
            && multiset(a) == multiset(b)
            && Rule(RunOf(a, begin, 2.0, key)) == Recovered && Rule(RunOf(b, begin, 2.0, key)) == Unresolved
            && DependsOnDelivery(a, begin, 2.0, key)
  {
    hide RunOf, Rule, Trio, TrioEvents;
    TrioSize(9, 4);
    TrioRun(9, 4, begin);
    TrioRun(4, 9, begin);
    TrioOutcome(9, 4);
    TrioOutcome(4, 9);
  }

  lemma AlikeInPosition(run: set<Event>, g: Event, h: Event)
    requires Ties(g, h) && g.position == h.position && Passed(run, g)
    ensures Passed(run, h)
  {
    var e :| Follows(run, g, e) && Proves(e, g);
    BeforeIsTotal(g, h, g);
    forall x ensures Precedes(g, x) <==> Precedes(h, x) {
      TiedAlike(g, h, x);
    }
    hide Precedes, Before;
    assert Follows(run, h, e) && Proves(e, h);
  }

  /** Nor does every tie matter: only one between faults at different positions can. */
  lemma HarmlessTies(records: seq<Json>, begin: real, until: real, key: RunKey)
    requires forall f, g | f in RunOf(records, begin, until, key) && g in RunOf(records, begin, until, key) ::
               IsIssue(f.kind) && Ties(f, g) ==> f.position == g.position
    ensures !DependsOnDelivery(records, begin, until, key)
  {
    var run := Members(RunOf(records, begin, until, key));
    WhenDeliveryDecides(records, begin, until, key);
    hide RunOf, DependsOnDelivery, Passed, Before;
    forall f | IsFault(run, f)
      ensures !Open(run, f)
    {
      if Open(run, f) {
        var g :| InClass(run, f, g) && Passed(run, g);
        var h :| InClass(run, f, h) && !Passed(run, h);
        TiedAlike(f, g, h);
        AlikeInPosition(run, g, h);
      }
    }
  }
}
