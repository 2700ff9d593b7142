/** Sorting, selecting and grouping events, and when the order of delivery can
    still be seen afterwards. */
module DiagnosticOrder {
  import opened Tables
  import opened DiagnosticRecords
  import DiagnosticOutcome

  /** The sort key: time, then name. */
  predicate Before(a: Event, b: Event) {
    a.time < b.time || (a.time == b.time && Rank(a.kind) <= Rank(b.kind))
  }

  /** Its ranks are the order of the names in the journal. */
  lemma BeforeMeans(a: Event, b: Event)
    ensures Before(a, b) <==>
            a.time < b.time || (a.time == b.time && (a.kind == b.kind || NameBefore(NameOf(a.kind), NameOf(b.kind))))
  {
    RanksFollowNames(a.kind, b.kind);
    if Rank(a.kind) == Rank(b.kind) { SameRankSameKind(a.kind, b.kind); }
    hide Rank, NameOf, NameBefore;
  }

  ghost predicate Sorted(s: seq<Event>) {
    forall i, j | 0 <= i < j < |s| :: Before(s[i], s[j])
  }

  function Insert(x: Event, s: seq<Event>): seq<Event> {
    if s == [] || Before(x, s[0]) then [x] + s else [s[0]] + Insert(x, s[1..])
  }

  /** The stable sort: of events with equal keys the earlier stays first. */
  function Sort(s: seq<Event>): seq<Event> {
    if s == [] then [] else Insert(s[0], Sort(s[1..]))
  }

  lemma {:induction false} InsertKeeps(x: Event, s: seq<Event>)
    requires Sorted(s)
    ensures Sorted(Insert(x, s)) && multiset(Insert(x, s)) == multiset{x} + multiset(s)
    decreases |s|
  {
    if s == [] {
    } else if Before(x, s[0]) {
      hide Rank;
      BeforeAll(x, s);
      SortedCons(x, s);
    } else {
      var tail := s[1..];
      var rest := Insert(x, tail);
      assert s == [s[0]] + tail;
      assert Before(s[0], x);
      hide Rank, Insert, Before;
      InsertKeeps(x, tail);
      forall e | e in rest ensures Before(s[0], e) {
        assert e in multiset(rest);
        assert e == x || e in tail;
      }
      SortedCons(s[0], rest);
    }
  }

  lemma BeforeAll(x: Event, s: seq<Event>)
    requires Sorted(s) && s != [] && Before(x, s[0])
    ensures forall e | e in s :: Before(x, e)
  {
    hide Rank;
  }

  lemma SortedCons(x: Event, s: seq<Event>)
    requires Sorted(s) && forall e | e in s :: Before(x, e)
    ensures Sorted([x] + s) && multiset([x] + s) == multiset{x} + multiset(s)
  {
    hide Before;
  }

  lemma {:induction false} SortSorts(s: seq<Event>)
    ensures Sorted(Sort(s)) && multiset(Sort(s)) == multiset(s)
    decreases |s|
  {
    if s == [] {
    } else {
      SortSorts(s[1..]);
      InsertKeeps(s[0], Sort(s[1..]));
      assert s == [s[0]] + s[1..];
    }
  }

  /** Selection keeps the order. */
  function Select<T>(s: seq<T>, keep: T -> bool): seq<T> {
    if s == [] then [] else (if keep(s[0]) then [s[0]] else []) + Select(s[1..], keep)
  }

  /** Events with the same time and name as this one. */
  function TiedWith(e: Event): Event -> bool {
    (x: Event) => x.time == e.time && x.kind == e.kind
  }

  lemma {:induction false} InsertIsStable(x: Event, s: seq<Event>, e: Event)
    requires Sorted(s)
    ensures Select(Insert(x, s), TiedWith(e)) == Select([x] + s, TiedWith(e))
    decreases |s|
  {
    assert ([x] + s)[1..] == s;
    if s != [] && !Before(x, s[0]) {
      var head, rest := s[0], s[1..];
      InsertIsStable(x, rest, e);
      assert ([x] + rest)[1..] == rest && ([head] + Insert(x, rest))[1..] == Insert(x, rest);
      assert !(TiedWith(e)(x) && TiedWith(e)(head));
      hide Rank, Insert;
      assert Select([x] + s, TiedWith(e)) == (if TiedWith(e)(x) then [x] else []) + Select(s, TiedWith(e));
      assert Select([head] + Insert(x, rest), TiedWith(e)) ==
             (if TiedWith(e)(head) then [head] else []) + Select([x] + rest, TiedWith(e));
    }
  }

  /** Sorting leaves events that share time and name in the order they came in. */
  lemma {:induction false} SortIsStable(s: seq<Event>, e: Event)
    ensures Select(Sort(s), TiedWith(e)) == Select(s, TiedWith(e))
    decreases |s|
  {
    hide Rank, Insert;
    if s == [] {
    } else {
      SortIsStable(s[1..], e);
      SortSorts(s[1..]);
      InsertIsStable(s[0], Sort(s[1..]), e);
      assert ([s[0]] + Sort(s[1..]))[1..] == Sort(s[1..]);
    }
  }

  lemma {:induction false} SelectMembers(s: seq<Event>, keep: Event -> bool)
    ensures forall e :: multiset(Select(s, keep))[e] == if keep(e) then multiset(s)[e] else 0
    decreases |s|
  {
    if s == [] {
    } else {
      SelectMembers(s[1..], keep);
      assert s == [s[0]] + s[1..];
    }
  }

  lemma {:induction false} SelectSorted(s: seq<Event>, keep: Event -> bool)
    requires Sorted(s)
    ensures Sorted(Select(s, keep))
    decreases |s|
  {
    if s == [] {
    } else {
      SelectSorted(s[1..], keep);
      SelectMembers(s[1..], keep);
      var rest := Select(s[1..], keep);
      forall j | 0 <= j < |rest| ensures Before(s[0], rest[j]) {
        assert rest[j] in multiset(rest);
        assert rest[j] in multiset(s[1..]) && rest[j] in s[1..];
      }
    }
  }

  /** No two different events have the same key. */
  ghost predicate NoTies(s: seq<Event>) {
    forall a, b | a in s && b in s :: Before(a, b) && Before(b, a) ==> a == b
  }

  /** Without ties, sorting leaves nothing to chance. */
  lemma {:induction false} SortedIsUnique(a: seq<Event>, b: seq<Event>)
    requires Sorted(a) && Sorted(b) && multiset(a) == multiset(b) && NoTies(a)
    ensures a == b
    decreases |a|
  {
    SameSize(a, b);
    if a == [] {
    } else {
      FirstIsLeast(a, b[0]);
      FirstIsLeast(b, a[0]);
      Tail(a);
      Tail(b);
      assert a[0] == b[0];
      hide Sorted, NoTies, Before;
      SortedIsUnique(a[1..], b[1..]);
    }
  }

  lemma FirstIsLeast(s: seq<Event>, e: Event)
    requires Sorted(s) && e in multiset(s)
    ensures s != [] && e in s && Before(s[0], e)
  {
    hide Rank;
    assert e in s;
  }

  lemma Tail(s: seq<Event>)
    requires s != []
    ensures multiset(s[1..]) == multiset(s) - multiset{s[0]} && s == [s[0]] + s[1..]
    ensures s[0] in multiset(s)
    ensures Sorted(s) ==> Sorted(s[1..])
    ensures NoTies(s) ==> NoTies(s[1..])
  {
    hide Before;
    assert s == [s[0]] + s[1..];
  }

  lemma SameSize(a: seq<Event>, b: seq<Event>)
    requires multiset(a) == multiset(b)
    ensures |a| == |b|
  {
    assert |a| == |multiset(a)| && |b| == |multiset(b)|;
  }

  lemma SelectSame(a: seq<Event>, b: seq<Event>, keep: Event -> bool)
    requires multiset(a) == multiset(b)
    ensures multiset(Select(a, keep)) == multiset(Select(b, keep))
  {
    SelectMembers(a, keep);
    SelectMembers(b, keep);
  }

  type RunKey = (string, string)

  function KeyOf(e: Event): Option<RunKey> {
    if e.owner.Some? && e.run.Some? then Some((e.owner.value, e.run.value)) else None
  }

  function InWindow(begin: real, until: real): Event -> bool {
    (e: Event) => begin <= e.time <= until
  }

  function OfRun(key: RunKey): Event -> bool {
    (e: Event) => KeyOf(e) == Some(key)
  }

  /** The events of one run in the window, in the order the report looks at them. */
  function RunEvents(available: seq<Event>, begin: real, until: real, key: RunKey): seq<Event> {
    Select(Select(Sort(available), InWindow(begin, until)), OfRun(key))
  }

  /** Which events those are: of this owner and this run, in the window with both its ends. */
  lemma RunEventsMean(available: seq<Event>, begin: real, until: real, key: RunKey, e: Event)
    ensures multiset(RunEvents(available, begin, until, key))[e] ==
            if begin <= e.time <= until && e.owner == Some(key.0) && e.run == Some(key.1) then multiset(available)[e] else 0
    ensures Sorted(RunEvents(available, begin, until, key))
  {
    RunEventsSame(available, available, begin, until, key);
    SortSorts(available);
    SelectMembers(Sort(available), InWindow(begin, until));
    SelectMembers(Select(Sort(available), InWindow(begin, until)), OfRun(key));
    hide Sort, Select, Sorted;
  }

  /** Whatever the order of arrival, a run has the same events, sorted. */
  lemma RunEventsSame(a: seq<Event>, b: seq<Event>, begin: real, until: real, key: RunKey)
    requires multiset(a) == multiset(b)
    ensures multiset(RunEvents(a, begin, until, key)) == multiset(RunEvents(b, begin, until, key))
    ensures Sorted(RunEvents(a, begin, until, key))
  {
    hide Sort, Select, Sorted, InWindow, OfRun;
    SortSorts(a);
    SortSorts(b);
    var inside, ofRun := InWindow(begin, until), OfRun(key);
    SelectSorted(Sort(a), inside);
    SelectSorted(Select(Sort(a), inside), ofRun);
    SelectSame(Sort(a), Sort(b), inside);
    SelectSame(Select(Sort(a), inside), Select(Sort(b), inside), ofRun);
  }

  /** The outcome of a run does not depend on the order of delivery, provided no
      two different events of the run share time and name. */
  lemma OutcomeIgnoresDelivery(a: seq<Event>, b: seq<Event>, begin: real, until: real, key: RunKey)
    requires multiset(a) == multiset(b) && NoTies(RunEvents(a, begin, until, key))
    ensures RunEvents(a, begin, until, key) == RunEvents(b, begin, until, key)
    ensures DiagnosticOutcome.Rule(RunEvents(a, begin, until, key)) == DiagnosticOutcome.Rule(RunEvents(b, begin, until, key))
  {
    hide RunEvents, Sorted, NoTies;
    RunEventsSame(a, b, begin, until, key);
    RunEventsSame(b, a, begin, until, key);
    SortedIsUnique(RunEvents(a, begin, until, key), RunEvents(b, begin, until, key));
  }

  lemma {:induction false} SelectContains<T>(s: seq<T>, keep: T -> bool)
    ensures forall e :: e in Select(s, keep) <==> e in s && keep(e)
    decreases |s|
  {
    if s == [] {
    } else {
      SelectContains(s[1..], keep);
      assert s == [s[0]] + s[1..];
    }
  }

  /** Sorted events of one run, all in the window, stay as they are. */
  lemma {:induction false} NothingToDo(s: seq<Event>, begin: real, until: real, key: RunKey)
    requires Sorted(s) && forall e | e in s :: begin <= e.time <= until && KeyOf(e) == Some(key)
    ensures RunEvents(s, begin, until, key) == s
  {
    SortOfSorted(s);
    SelectAll(s, InWindow(begin, until));
    SelectAll(s, OfRun(key));
  }

  lemma {:induction false} SortOfSorted(s: seq<Event>)
    requires Sorted(s)
    ensures Sort(s) == s
    decreases |s|
  {
    if s == [] {
    } else {
      SortOfSorted(s[1..]);
      assert s == [s[0]] + s[1..];
    }
  }

  lemma {:induction false} SelectAll(s: seq<Event>, keep: Event -> bool)
    requires forall e | e in s :: keep(e)
    ensures Select(s, keep) == s
    decreases |s|
  {
    if s == [] {
    } else {
      SelectAll(s[1..], keep);
      assert s == [s[0]] + s[1..];
    }
  }
}
