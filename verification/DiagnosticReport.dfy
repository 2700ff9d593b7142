/** The report: select, group, classify and count, with every count tied to the
    set of events or runs it stands for. */
module DiagnosticReport {
  import opened Tables
  import opened Counting
  import opened DiagnosticRecords
  import opened DiagnosticOutcome
  import opened DiagnosticOrder

  datatype Tally = Tally(recovered: nat, failed: nat, unresolved: nat) {
    function At(o: Outcome): nat {
      match o
      case Recovered => recovered
      case Failed => failed
      case Unresolved => unresolved
    }

    function Bumped(o: Outcome): Tally {
      match o
      case Recovered => Tally(recovered + 1, failed, unresolved)
      case Failed => Tally(recovered, failed + 1, unresolved)
      case Unresolved => Tally(recovered, failed, unresolved + 1)
    }

    function Sum(): nat {
      recovered + failed + unresolved
    }
  }

  const NO_RUNS := Tally(0, 0, 0)

  /** source, platform, phase, error category */
  type Bucket = (string, string, string, string)

  const HOUR_MS: real := 3600000.0

  // ------------------------------------------------------- events by kind

  function Faulty(): Event -> bool {
    (e: Event) => IsIssue(e.kind)
  }

  function OfKind(k: Kind): Event -> bool {
    (e: Event) => e.kind == k
  }

  function Unlinked(): Event -> bool {
    (e: Event) => IsIssue(e.kind) && KeyOf(e).None?
  }

  function Linked(): Event -> bool {
    (e: Event) => IsIssue(e.kind) && KeyOf(e).Some?
  }

  function Reporting(reason: string): Event -> bool {
    (e: Event) => e.kind == UserReport && e.reason == reason
  }

  lemma {:induction false} SelectAppend<T>(s: seq<T>, e: T, keep: T -> bool)
    ensures Select(s + [e], keep) == Select(s, keep) + if keep(e) then [e] else []
    decreases |s|
  {
    var all, tail := s + [e], if keep(e) then [e] else [];
    if s == [] {
      assert all == [e] && all[1..] == [];
    } else {
      assert all[0] == s[0] && all[1..] == s[1..] + [e];
      SelectAppend(s[1..], e, keep);
      Associative(if keep(s[0]) then [s[0]] else [], Select(s[1..], keep), tail);
    }
  }

  lemma Associative<T>(a: seq<T>, b: seq<T>, c: seq<T>)
    ensures a + (b + c) == (a + b) + c
  {
  }

  /** One more event of a prefix. */
  lemma SelectNext(s: seq<Event>, n: nat, keep: Event -> bool)
    requires n < |s|
    ensures Select(s[..n + 1], keep) == Select(s[..n], keep) + if keep(s[n]) then [s[n]] else []
  {
    assert s[..n + 1] == s[..n] + [s[n]];
    SelectAppend(s[..n], s[n], keep);
  }

  /** Issue events: counted by kind, or by whether a run is known. */
  lemma {:induction false} IssuesAddUp(s: seq<Event>)
    ensures |Select(s, Faulty())| == |Select(s, Unlinked())| + |Select(s, Linked())|
    ensures |Select(s, Faulty())| == |Select(s, OfKind(UnexpectedStop))| + |Select(s, OfKind(UnexpectedPause))|
              + |Select(s, OfKind(Rebuffer))| + |Select(s, OfKind(RebufferTimeout))| + |Select(s, OfKind(PlaybackError))|
    decreases |s|
  {
    if s == [] {
    } else {
      IssuesAddUp(s[1..]);
    }
  }

  // -------------------------------------------------------------- one run

  function LastKnown(faults: seq<Event>): string {
    if faults == [] then UNKNOWN
    else if faults[|faults| - 1].category != UNKNOWN then faults[|faults| - 1].category
    else LastKnown(faults[..|faults| - 1])
  }

  function Phase(position: Option<real>): string {
    if position.None? then UNKNOWN else if position.value == 0.0 then "startup" else "continuation"
  }

  function BucketOf(faults: seq<Event>): Bucket
    requires faults != []
  {
    (faults[0].source, faults[0].platform, Phase(faults[0].position), LastKnown(faults))
  }

  function HourOf(faults: seq<Event>): int
    requires faults != []
  {
    (faults[0].time / HOUR_MS).Floor
  }

  /** The category reported last among the faults, at position i; "unknown" only if none reports one. */
  lemma {:induction false} LastKnownMeans(faults: seq<Event>) returns (i: int)
    ensures -1 <= i < |faults| && forall j | i < j < |faults| :: faults[j].category == "unknown"
    ensures if i < 0 then LastKnown(faults) == "unknown" else LastKnown(faults) == faults[i].category != "unknown"
    decreases |faults|
  {
    var last := |faults| - 1;
    if faults == [] || faults[last].category != "unknown" {
      i := last;
    } else {
      i := LastKnownMeans(faults[..last]);
    }
  }

  /** Where a run is filed: by its first fault, whose position tells a failed
      start from a continuation, and its last known category; in the hour of
      that first fault. */
  lemma FiledBy(faults: seq<Event>)
    requires faults != []
    ensures var (source, platform, phase, category) := BucketOf(faults);
            && source == faults[0].source && platform == faults[0].platform && category == LastKnown(faults)
            && phase == match faults[0].position
                        case None => "unknown"
                        case Some(position) => if position == 0.0 then "startup" else "continuation"
    ensures HourOf(faults) as real * 3600000.0 <= faults[0].time < (HourOf(faults) + 1) as real * 3600000.0
  {
    hide LastKnown;
    Hour(faults[0].time);
  }

  lemma Hour(time: real)
    ensures var hour := (time / 3600000.0).Floor; hour as real * 3600000.0 <= time < (hour + 1) as real * 3600000.0
  {
    var quotient := time / 3600000.0;
    assert quotient * 3600000.0 == time;
  }

  lemma TallyFields(t: Tally)
    ensures t.At(Recovered) == t.recovered && t.At(Failed) == t.failed && t.At(Unresolved) == t.unresolved
    ensures t.Sum() == t.recovered + t.failed + t.unresolved
  {
  }

  // ------------------------------------------------------------- grouping

  type Groups = map<RunKey, seq<Event>>

  ghost predicate Grouped(groups: Groups, selected: seq<Event>) {
    forall key :: Select(selected, OfRun(key)) == if key in groups then groups[key] else []
  }

  ghost predicate ListsKeys(order: seq<RunKey>, groups: Groups) {
    && (forall i, j | 0 <= i < j < |order| :: order[i] != order[j])
    && (forall key :: key in order <==> key in groups)
    && (forall key | key in groups :: groups[key] != [])
  }

  ghost predicate CountsKinds(events: map<Kind, nat>, s: seq<Event>) {
    forall k :: CountOf(events, k) == |Select(s, OfKind(k))|
  }

  ghost predicate CountsReasons(manual: map<string, nat>, s: seq<Event>) {
    forall r :: CountOf(manual, r) == |Select(s, Reporting(r))|
  }

  lemma CountsKindsNext(events: map<Kind, nat>, s: seq<Event>, n: nat)
    requires n < |s| && CountsKinds(events, s[..n])
    ensures CountsKinds(Bump(events, s[n].kind), s[..n + 1])
  {
    hide Select;
    forall k ensures CountOf(Bump(events, s[n].kind), k) == |Select(s[..n + 1], OfKind(k))| {
      SelectNext(s, n, OfKind(k));
    }
  }

  lemma CountsReasonsNext(manual: map<string, nat>, s: seq<Event>, n: nat)
    requires n < |s| && CountsReasons(manual, s[..n])
    ensures CountsReasons(if s[n].kind == UserReport then Bump(manual, s[n].reason) else manual, s[..n + 1])
  {
    hide Select;
    var manual' := if s[n].kind == UserReport then Bump(manual, s[n].reason) else manual;
    forall r ensures CountOf(manual', r) == |Select(s[..n + 1], Reporting(r))| {
      SelectNext(s, n, Reporting(r));
    }
  }

  function AddTo(groups: Groups, key: RunKey, item: Event): Groups {
    groups[key := (if key in groups then groups[key] else []) + [item]]
  }

  lemma GroupedNext(groups: Groups, s: seq<Event>, n: nat)
    requires n < |s| && Grouped(groups, s[..n])
    ensures Grouped(if KeyOf(s[n]).None? then groups else AddTo(groups, KeyOf(s[n]).value, s[n]), s[..n + 1])
  {
    hide Select, KeyOf;
    var key := KeyOf(s[n]);
    var groups' := if key.None? then groups else AddTo(groups, key.value, s[n]);
    forall k ensures Select(s[..n + 1], OfRun(k)) == if k in groups' then groups'[k] else [] {
      SelectNext(s, n, OfRun(k));
    }
  }

  lemma ListsKeysNext(groups: Groups, order: seq<RunKey>, key: RunKey, item: Event)
    requires ListsKeys(order, groups)
    ensures ListsKeys(if key in groups then order else order + [key], AddTo(groups, key, item))
  {
  }

  lemma NothingYet(s: seq<Event>)
    ensures CountsKinds(map[], s[..0]) && CountsReasons(map[], s[..0])
    ensures Grouped(map[], s[..0]) && ListsKeys([], map[]) && |Select(s[..0], Unlinked())| == 0
  {
  }

  method Group(selected: seq<Event>)
    returns (events: map<Kind, nat>, manual: map<string, nat>, unlinked: nat, order: seq<RunKey>, groups: Groups)
    ensures CountsKinds(events, selected) && CountsReasons(manual, selected)
    ensures unlinked == |Select(selected, Unlinked())|
    ensures Grouped(groups, selected) && ListsKeys(order, groups)
  {
    hide Select, CountsKinds, CountsReasons, Grouped, ListsKeys;
    events, manual, unlinked, order, groups := map[], map[], 0, [], map[];
    var n: nat := 0;
    NothingYet(selected);
    while n < |selected|
      invariant n <= |selected|
      invariant CountsKinds(events, selected[..n]) && CountsReasons(manual, selected[..n])
      invariant unlinked == |Select(selected[..n], Unlinked())|
      invariant Grouped(groups, selected[..n]) && ListsKeys(order, groups)
    {
      var item := selected[n];
      CountsKindsNext(events, selected, n);
      CountsReasonsNext(manual, selected, n);
      GroupedNext(groups, selected, n);
      SelectNext(selected, n, Unlinked());
      events := Bump(events, item.kind);
      if item.kind == UserReport {
        manual := Bump(manual, item.reason);
      }
      if item.owner.Some? && item.run.Some? {
        var key := (item.owner.value, item.run.value);
        ListsKeysNext(groups, order, key, item);
        if key in groups {
          groups := groups[key := groups[key] + [item]];
        } else {
          order := order + [key];
          groups := groups[key := [] + [item]];
        }
      } else if IsIssue(item.kind) {
        unlinked := unlinked + 1;
      }
      n := n + 1;
    }
    assert selected[..n] == selected;
  }

  // ------------------------------------------------------------- counting

  ghost function Those(runs: set<RunKey>, has: RunKey -> bool): set<RunKey> {
    set k | k in runs && has(k)
  }

  lemma OneMoreRun(runs: set<RunKey>, key: RunKey, has: RunKey -> bool)
    requires key !in runs
    ensures |Those(runs + {key}, has)| == |Those(runs, has)| + if has(key) then 1 else 0
  {
    assert Those(runs + {key}, has) == Those(runs, has) + if has(key) then {key} else {};
  }

  function FaultsOf(groups: Groups, key: RunKey): seq<Event> {
    if key in groups then Select(groups[key], Faulty()) else []
  }

  ghost function Ended(groups: Groups, o: Outcome): RunKey -> bool {
    (key: RunKey) => key in groups && Rule(groups[key]) == o
  }

  ghost function StartedIn(groups: Groups, hour: int): RunKey -> bool {
    (key: RunKey) => FaultsOf(groups, key) != [] && HourOf(FaultsOf(groups, key)) == hour
  }

  ghost function FiledUnder(groups: Groups, bucket: Bucket, o: Outcome): RunKey -> bool {
    (key: RunKey) => FaultsOf(groups, key) != [] && BucketOf(FaultsOf(groups, key)) == bucket && Ended(groups, o)(key)
  }

  /** The runs with a fault among these keys. */
  ghost function Affected(keys: seq<RunKey>, groups: Groups): set<RunKey> {
    set k | k in keys && FaultsOf(groups, k) != []
  }

  function TallyAt(breakdown: map<Bucket, Tally>, bucket: Bucket): Tally {
    if bucket in breakdown then breakdown[bucket] else NO_RUNS
  }

  const ONE: nat -> nat := (n: nat) => n
  const RUNS: Tally -> nat := (t: Tally) => t.Sum()

  /** Every counter is the size of the set of runs it stands for. */
  ghost predicate Counts(runs: set<RunKey>, groups: Groups, outcomes: Tally, breakdown: map<Bucket, Tally>, hourly: map<int, nat>) {
    && (forall o :: outcomes.At(o) == |Those(runs, Ended(groups, o))|)
    && (forall h :: CountOf(hourly, h) == |Those(runs, StartedIn(groups, h))|)
    && (forall b, o :: TallyAt(breakdown, b).At(o) == |Those(runs, FiledUnder(groups, b, o))|)
  }

  /** No bucket and no hour is listed without a run. */
  ghost predicate NoneEmpty(breakdown: map<Bucket, Tally>, hourly: map<int, nat>) {
    (forall b | b in breakdown :: breakdown[b] != NO_RUNS) && (forall h | h in hourly :: hourly[h] > 0)
  }

  /** And they all add up to the number of affected runs. */
  ghost predicate AddUp(affected: nat, outcomes: Tally, breakdown: map<Bucket, Tally>, hourly: map<int, nat>) {
    outcomes.Sum() == affected && Total(breakdown, RUNS) == affected && Total(hourly, ONE) == affected
  }

  lemma CountsNext(runs: set<RunKey>, groups: Groups, outcomes: Tally, breakdown: map<Bucket, Tally>, hourly: map<int, nat>, key: RunKey)
    requires Counts(runs, groups, outcomes, breakdown, hourly)
    requires key !in runs && key in groups && FaultsOf(groups, key) != []
    ensures var o, b, h := Rule(groups[key]), BucketOf(FaultsOf(groups, key)), HourOf(FaultsOf(groups, key));
            Counts(runs + {key}, groups, outcomes.Bumped(o), breakdown[b := TallyAt(breakdown, b).Bumped(o)], Bump(hourly, h))
  {
    hide Select, Rule, BucketOf, HourOf, Those;
    var o, b, h := Rule(groups[key]), BucketOf(FaultsOf(groups, key)), HourOf(FaultsOf(groups, key));
    var breakdown' := breakdown[b := TallyAt(breakdown, b).Bumped(o)];
    forall o' ensures outcomes.Bumped(o).At(o') == |Those(runs + {key}, Ended(groups, o'))| {
      OneMoreRun(runs, key, Ended(groups, o'));
    }
    forall h' ensures CountOf(Bump(hourly, h), h') == |Those(runs + {key}, StartedIn(groups, h'))| {
      OneMoreRun(runs, key, StartedIn(groups, h'));
    }
    forall b', o' ensures TallyAt(breakdown', b').At(o') == |Those(runs + {key}, FiledUnder(groups, b', o'))| {
      OneMoreRun(runs, key, FiledUnder(groups, b', o'));
    }
  }

  lemma AddUpNext(affected: nat, outcomes: Tally, breakdown: map<Bucket, Tally>, hourly: map<int, nat>, o: Outcome, b: Bucket, h: int)
    ensures AddUp(affected, outcomes, breakdown, hourly) ==>
              AddUp(affected + 1, outcomes.Bumped(o), breakdown[b := TallyAt(breakdown, b).Bumped(o)], Bump(hourly, h))
  {
    hide Total;
    TotalPut<Bucket, Tally>(breakdown, RUNS, b, TallyAt(breakdown, b).Bumped(o));
    TotalPut<int, nat>(hourly, ONE, h, CountOf(hourly, h) + 1);
  }

  lemma NoRunsYet(groups: Groups)
    ensures Counts({}, groups, NO_RUNS, map[], map[]) && AddUp(0, NO_RUNS, map[], map[])
  {
  }

  lemma AffectedNext(order: seq<RunKey>, n: nat, groups: Groups)
    requires n < |order| && ListsKeys(order, groups)
    ensures order[n] !in Affected(order[..n], groups) && order[n] in groups
    ensures Affected(order[..n + 1], groups) ==
            Affected(order[..n], groups) + if FaultsOf(groups, order[n]) != [] then {order[n]} else {}
  {
    hide Select;
    assert order[..n + 1] == order[..n] + [order[n]];
    assert order[n] in order;
  }

  method CountRuns(order: seq<RunKey>, groups: Groups)
    returns (outcomes: Tally, breakdown: map<Bucket, Tally>, hourly: map<int, nat>)
    requires ListsKeys(order, groups)
    ensures Counts(Affected(order, groups), groups, outcomes, breakdown, hourly)
    ensures AddUp(|Affected(order, groups)|, outcomes, breakdown, hourly)
    ensures NoneEmpty(breakdown, hourly)
  {
    hide Select, Counts, AddUp, Affected, Rule, ListsKeys;
    outcomes, breakdown, hourly := NO_RUNS, map[], map[];
    ghost var runs := {};
    NoRunsYet(groups);
    AffectedNone(order, groups);
    var n: nat := 0;
    while n < |order|
      invariant n <= |order| && runs == Affected(order[..n], groups)
      invariant Counts(runs, groups, outcomes, breakdown, hourly)
      invariant AddUp(|runs|, outcomes, breakdown, hourly)
      invariant NoneEmpty(breakdown, hourly)
    {
      var key := order[n];
      AffectedNext(order, n, groups);
      var items := groups[key];
      var faults := Select(items, Faulty());
      n := n + 1;
      if faults == [] {
        continue;
      }
      var outcome := Classify(items);
      var bucket, hour := BucketOf(faults), HourOf(faults);
      CountsNext(runs, groups, outcomes, breakdown, hourly, key);
      AddUpNext(|runs|, outcomes, breakdown, hourly, outcome, bucket, hour);
      breakdown := breakdown[bucket := TallyAt(breakdown, bucket).Bumped(outcome)];
      outcomes := outcomes.Bumped(outcome);
      hourly := Bump(hourly, hour);
      runs := runs + {key};
    }
    assert order[..n] == order;
  }

  lemma AffectedNone(order: seq<RunKey>, groups: Groups)
    ensures Affected(order[..0], groups) == {}
  {
  }
}
