/** The whole summary: deduplicate, sort, select, group, classify, count. */
module DiagnosticSummary {
  import opened Tables
  import opened Counting
  import opened DiagnosticRecords
  import opened DiagnosticDeliveries
  import opened DiagnosticConflicts
  import opened DiagnosticDedup
  import opened DiagnosticOutcome
  import opened DiagnosticOrder
  import opened DiagnosticTies
  import opened DiagnosticDeliveryOrder
  import opened DiagnosticReport
  import JournalReader

  datatype Report = Report(
    rejected: nat, duplicates: nat, conflicting: nat, outside: nat, partial: bool,
    unique: nat, issues: nat, affected: nat, outcomes: Tally, unlinked: nat,
    manual: map<string, nat>, events: map<Kind, nat>, breakdown: map<Bucket, Tally>, hourly: map<int, nat>)

  predicate WindowOk(until: real, hours: real) {
    1.0 <= hours <= 168.0 && 0.0 <= until < END_OF_TIME
  }

  function Begin(until: real, hours: real): real {
    until - hours * HOUR_MS
  }

  /** The owner/run pairs with a fault. */
  function FaultyRuns(selected: seq<Event>): set<RunKey> {
    set e | e in selected && IsIssue(e.kind) && KeyOf(e).Some? :: KeyOf(e).value
  }

  function Selected(available: seq<Event>, until: real, hours: real): seq<Event> {
    Select(Sort(available), InWindow(Begin(until, hours), until))
  }

  /** The events of the report: those in the last so many hours, ends included, by time and name. */
  lemma SelectedMeans(available: seq<Event>, until: real, hours: real, e: Event)
    ensures multiset(Selected(available, until, hours))[e] ==
            if until - hours * 3600000.0 <= e.time <= until then multiset(available)[e] else 0
    ensures Sorted(Selected(available, until, hours))
  {
    var inside := InWindow(Begin(until, hours), until);
    SortSorts(available);
    SelectMembers(Sort(available), inside);
    SelectSorted(Sort(available), inside);
    hide Sort, Select, Sorted;
  }

  /** Every run with the events it has. */
  ghost function GroupsOf(selected: seq<Event>): Groups {
    map key | key in (set e | e in selected && KeyOf(e).Some? :: KeyOf(e).value) :: Select(selected, OfRun(key))
  }

  lemma GroupsAreThose(selected: seq<Event>, order: seq<RunKey>, groups: Groups)
    requires Grouped(groups, selected) && ListsKeys(order, groups)
    ensures groups == GroupsOf(selected)
  {
    hide Select;
    forall key ensures key in groups <==> key in GroupsOf(selected) {
      SelectContains(selected, OfRun(key));
      if key in groups {
        var e := groups[key][0];
        assert e in Select(selected, OfRun(key));
      }
      if key in GroupsOf(selected) {
        var e :| e in selected && KeyOf(e) == Some(key);
        assert OfRun(key)(e);
      }
    }
    forall key | key in groups ensures groups[key] == GroupsOf(selected)[key] {
      assert Select(selected, OfRun(key)) == groups[key];
    }
    assert groups == GroupsOf(selected);
  }

  /** The groups with a fault are the owner/run pairs with a fault. */
  lemma AffectedAreFaultyRuns(selected: seq<Event>, order: seq<RunKey>, groups: Groups)
    requires Grouped(groups, selected) && ListsKeys(order, groups)
    ensures Affected(order, groups) == FaultyRuns(selected)
  {
    hide Select;
    forall k ensures k in Affected(order, groups) <==> k in FaultyRuns(selected) {
      var items := if k in groups then groups[k] else [];
      assert items == Select(selected, OfRun(k));
      SelectContains(selected, OfRun(k));
      SelectContains(items, Faulty());
      if k in Affected(order, groups) {
        var e := FaultsOf(groups, k)[0];
        assert e in FaultsOf(groups, k);
      }
      if k in FaultyRuns(selected) {
        var e :| e in selected && IsIssue(e.kind) && KeyOf(e) == Some(k);
        assert OfRun(k)(e) && e in items && Faulty()(e);
      }
    }
  }

  lemma {:induction false} SelectShorter<T>(s: seq<T>, keep: T -> bool)
    ensures |Select(s, keep)| <= |s|
    decreases |s|
  {
    if s == [] {
    } else {
      SelectShorter(s[1..], keep);
    }
  }

  // ------------------------------------------------------ what a report says

  /** The counts of the input: what was rejected, copied, contradicted or left outside. */
  ghost predicate CountsInput(records: seq<Json>, until: real, hours: real, input: JournalReader.Quality, r: Report) {
    var available := EventsOf(Survivors(records, |records|));
    && r.rejected == input.rejected + |Rejected(records, |records|)|
    && r.duplicates == |Duplicates(records, |records|)|
    && r.conflicting == |QuarantineSet(Prints(records))| == |Contradicted(records)|
    && (r.conflicting == 0 <==> Mismatches(records, |records|) == {})
    && r.unique == |Selected(available, until, hours)|
    && r.unique + r.outside == |available|
    && r.unique + r.outside + r.conflicting == |Firsts(records, |records|)|
    && |records| + input.rejected == r.rejected + r.unique + r.outside + r.conflicting + r.duplicates + |Mismatches(records, |records|)|
    && (r.partial <==> r.rejected + input.readErrors + input.limitsReached + r.conflicting > 0)
  }

  ghost predicate CountsEvents(selected: seq<Event>, r: Report) {
    && r.issues == |Select(selected, Faulty())| == r.unlinked + |Select(selected, Linked())|
    && r.unlinked == |Select(selected, Unlinked())|
    && CountsKinds(r.events, selected) && CountsReasons(r.manual, selected)
  }

  ghost predicate CountsRuns(selected: seq<Event>, r: Report) {
    && r.affected == |FaultyRuns(selected)|
    && r.outcomes.recovered == |Those(FaultyRuns(selected), Ended(GroupsOf(selected), Recovered))|
    && r.outcomes.failed == |Those(FaultyRuns(selected), Ended(GroupsOf(selected), Failed))|
    && r.outcomes.unresolved == |Those(FaultyRuns(selected), Ended(GroupsOf(selected), Unresolved))|
    && Counts(FaultyRuns(selected), GroupsOf(selected), r.outcomes, r.breakdown, r.hourly)
    && AddUp(r.affected, r.outcomes, r.breakdown, r.hourly) && NoneEmpty(r.breakdown, r.hourly)
  }

  /** What the report says of the records as they were delivered. */
  ghost predicate Reports(records: seq<Json>, until: real, hours: real, input: JournalReader.Quality, r: Report) {
    var selected := Selected(EventsOf(Survivors(records, |records|)), until, hours);
    CountsInput(records, until, hours, input, r) && CountsEvents(selected, r) && CountsRuns(selected, r)
  }

  method Summarize(records: seq<Json>, until: real, hours: real, input: JournalReader.Quality) returns (report: Option<Report>)
    ensures report.Some? <==> 1.0 <= hours <= 168.0 && 0.0 <= until < 253402300799000.0
    ensures report.Some? ==> Reports(records, until, hours, input, report.value)
  {
    hide Select, Sort, Prints, QuarantineSet, EventsOf, CountsKinds, CountsReasons, Grouped, ListsKeys, Counts, AddUp, NoneEmpty;
    hide Affected, FaultyRuns, Survivors, Rejected, Duplicates, Mismatches, Firsts, GroupsOf, CountsRuns, Contradicted, Listed;
    if !WindowOk(until, hours) {
      return None;
    }
    var available, rejected, duplicates, conflicting := Deduplicate(records);
    SortSorts(available);
    SameSize(Sort(available), available);
    var selected := Selected(available, until, hours);
    SelectShorter(Sort(available), InWindow(Begin(until, hours), until));
    var events, manual, unlinked, order, groups := Group(selected);
    var outcomes, breakdown, hourly := CountRuns(order, groups);
    AffectedAreFaultyRuns(selected, order, groups);
    GroupsAreThose(selected, order, groups);
    IssuesAddUp(selected);
    KindsMean(events, selected);
    AddUpMeans(|FaultyRuns(selected)|, outcomes, breakdown, hourly);
    var issues := CountOf(events, UnexpectedStop) + CountOf(events, UnexpectedPause) + CountOf(events, Rebuffer)
                + CountOf(events, RebufferTimeout) + CountOf(events, PlaybackError);
    var r := Report(
      input.rejected + rejected, duplicates, conflicting, |available| - |selected|,
      input.rejected + rejected > 0 || input.readErrors > 0 || input.limitsReached > 0 || conflicting > 0,
      |selected|, issues, outcomes.Sum(), outcomes, unlinked, manual, events, breakdown, hourly);
    assert CountsInput(records, until, hours, input, r);
    assert CountsEvents(selected, r);
    RunsAreCounted(selected, r);
    report := Some(r);
  }

  lemma KindsMean(events: map<Kind, nat>, s: seq<Event>)
    requires CountsKinds(events, s)
    ensures forall k :: CountOf(events, k) == |Select(s, OfKind(k))|
  {
  }

  lemma RunsAreCounted(selected: seq<Event>, r: Report)
    ensures r.affected == |FaultyRuns(selected)|
            && Counts(FaultyRuns(selected), GroupsOf(selected), r.outcomes, r.breakdown, r.hourly)
            && AddUp(r.affected, r.outcomes, r.breakdown, r.hourly) && NoneEmpty(r.breakdown, r.hourly)
            ==> CountsRuns(selected, r)
  {
    TallyFields(r.outcomes);
    hide Those, Rule, FaultyRuns, GroupsOf, AddUp, NoneEmpty;
  }

  lemma AddUpMeans(affected: nat, outcomes: Tally, breakdown: map<Bucket, Tally>, hourly: map<int, nat>)
    ensures AddUp(affected, outcomes, breakdown, hourly) ==> outcomes.Sum() == affected
  {
  }

  // -------------------------------------------- two reports of one delivery

  lemma SelectedSame(a: seq<Event>, b: seq<Event>, until: real, hours: real)
    requires multiset(a) == multiset(b)
    ensures multiset(Selected(a, until, hours)) == multiset(Selected(b, until, hours))
  {
    hide Sort, Select;
    SortSorts(a);
    SortSorts(b);
    SelectSame(Sort(a), Sort(b), InWindow(Begin(until, hours), until));
  }

  lemma SameCount(a: seq<Event>, b: seq<Event>, keep: Event -> bool)
    requires multiset(a) == multiset(b)
    ensures |Select(a, keep)| == |Select(b, keep)|
  {
    hide Select;
    SelectSame(a, b, keep);
    SameSize(Select(a, keep), Select(b, keep));
  }

  lemma SameEventCounts(a: seq<Event>, b: seq<Event>, ra: Report, rb: Report)
    requires multiset(a) == multiset(b) && CountsEvents(a, ra) && CountsEvents(b, rb)
    ensures ra.issues == rb.issues && ra.unlinked == rb.unlinked
    ensures forall k :: CountOf(ra.events, k) == CountOf(rb.events, k)
    ensures forall m :: CountOf(ra.manual, m) == CountOf(rb.manual, m)
  {
    hide Select;
    SameCount(a, b, Faulty());
    SameCount(a, b, Unlinked());
    forall k ensures CountOf(ra.events, k) == CountOf(rb.events, k) {
      SameCount(a, b, OfKind(k));
    }
    forall m ensures CountOf(ra.manual, m) == CountOf(rb.manual, m) {
      SameCount(a, b, Reporting(m));
    }
  }

  lemma SameFaultyRuns(a: seq<Event>, b: seq<Event>)
    requires multiset(a) == multiset(b)
    ensures FaultyRuns(a) == FaultyRuns(b)
  {
    assert forall e :: e in a <==> e in multiset(a);
    assert forall e :: e in b <==> e in multiset(b);
  }

  lemma GroupIsRun(selected: seq<Event>, key: RunKey)
    requires key in FaultyRuns(selected)
    ensures key in GroupsOf(selected) && GroupsOf(selected)[key] == Select(selected, OfRun(key))
  {
    var e :| e in selected && IsIssue(e.kind) && KeyOf(e) == Some(key);
  }

  lemma SameThose(runs: set<RunKey>, has: RunKey -> bool, has': RunKey -> bool)
    requires forall k | k in runs :: has(k) == has'(k)
    ensures Those(runs, has) == Those(runs, has')
  {
  }

  /** The first fault of a run has the same time in any sorted order. */
  lemma SameStart(a: seq<Event>, b: seq<Event>)
    requires Sorted(a) && Sorted(b) && Members(a) == Members(b)
    ensures Select(a, Faulty()) == [] <==> Select(b, Faulty()) == []
    ensures Select(a, Faulty()) != [] ==> Select(a, Faulty())[0].time == Select(b, Faulty())[0].time
  {
    hide Select, Rank;
    var f, g := Select(a, Faulty()), Select(b, Faulty());
    SelectContains(a, Faulty());
    SelectContains(b, Faulty());
    SelectSorted(a, Faulty());
    SelectSorted(b, Faulty());
    assert forall e :: e in f <==> e in g by {
      assert forall e :: e in a <==> e in Members(a);
      assert forall e :: e in b <==> e in Members(b);
    }
    EmptyIffNoMembers(f);
    EmptyIffNoMembers(g);
    if f != [] {
      assert f[0] in g;
      LeastTime(g, f[0]);
      assert g[0] in f;
      LeastTime(f, g[0]);
    }
  }

  lemma LeastTime(s: seq<Event>, e: Event)
    requires Sorted(s) && e in s
    ensures s[0].time <= e.time
  {
    hide Rank;
  }

  lemma SameOutcomes(a: seq<Event>, b: seq<Event>, ra: Report, rb: Report)
    requires CountsRuns(a, ra) && CountsRuns(b, rb) && FaultyRuns(a) == FaultyRuns(b)
    requires forall key | key in FaultyRuns(a) :: Rule(Select(a, OfRun(key))) == Rule(Select(b, OfRun(key)))
    ensures ra.outcomes == rb.outcomes
  {
    hide Select, Rule, AddUp, NoneEmpty, FaultyRuns, Those, GroupsOf;
    var runs, ga, gb := FaultyRuns(a), GroupsOf(a), GroupsOf(b);
    forall o ensures ra.outcomes.At(o) == rb.outcomes.At(o) {
      forall key | key in runs ensures Ended(ga, o)(key) == Ended(gb, o)(key) {
        GroupIsRun(a, key);
        GroupIsRun(b, key);
      }
      SameThose(runs, Ended(ga, o), Ended(gb, o));
    }
    assert ra.outcomes.At(Recovered) == rb.outcomes.At(Recovered) && ra.outcomes.At(Failed) == rb.outcomes.At(Failed)
           && ra.outcomes.At(Unresolved) == rb.outcomes.At(Unresolved);
  }

  lemma SameHours(a: seq<Event>, b: seq<Event>, ra: Report, rb: Report)
    requires CountsRuns(a, ra) && CountsRuns(b, rb) && FaultyRuns(a) == FaultyRuns(b)
    requires forall key | key in FaultyRuns(a) ::
               Sorted(Select(a, OfRun(key))) && Sorted(Select(b, OfRun(key)))
               && Members(Select(a, OfRun(key))) == Members(Select(b, OfRun(key)))
    ensures ra.hourly == rb.hourly
  {
    hide Select, Rule, AddUp, FaultyRuns, Those, GroupsOf, Sorted, Members;
    var runs, ga, gb := FaultyRuns(a), GroupsOf(a), GroupsOf(b);
    forall h ensures CountOf(ra.hourly, h) == CountOf(rb.hourly, h) {
      forall key | key in runs ensures StartedIn(ga, h)(key) == StartedIn(gb, h)(key) {
        GroupIsRun(a, key);
        GroupIsRun(b, key);
        SameStart(Select(a, OfRun(key)), Select(b, OfRun(key)));
      }
      SameThose(runs, StartedIn(ga, h), StartedIn(gb, h));
    }
    forall h ensures h in ra.hourly <==> h in rb.hourly {
      assert CountOf(ra.hourly, h) == CountOf(rb.hourly, h);
    }
    forall h | h in ra.hourly ensures ra.hourly[h] == rb.hourly[h] {
      assert CountOf(ra.hourly, h) == CountOf(rb.hourly, h);
    }
    assert ra.hourly == rb.hourly;
  }

  lemma SameTallies(a: Tally, b: Tally)
    requires forall o :: a.At(o) == b.At(o)
    ensures a == b
  {
    assert a.At(Recovered) == b.At(Recovered) && a.At(Failed) == b.At(Failed) && a.At(Unresolved) == b.At(Unresolved);
  }

  lemma SameBreakdown(a: seq<Event>, b: seq<Event>, ra: Report, rb: Report)
    requires CountsRuns(a, ra) && CountsRuns(b, rb) && FaultyRuns(a) == FaultyRuns(b)
    requires forall key | key in FaultyRuns(a) :: Select(a, OfRun(key)) == Select(b, OfRun(key))
    ensures ra.breakdown == rb.breakdown
  {
    hide Select, Rule, AddUp, FaultyRuns, Those, GroupsOf, BucketOf;
    var runs, ga, gb := FaultyRuns(a), GroupsOf(a), GroupsOf(b);
    forall bucket ensures TallyAt(ra.breakdown, bucket) == TallyAt(rb.breakdown, bucket) {
      forall o ensures TallyAt(ra.breakdown, bucket).At(o) == TallyAt(rb.breakdown, bucket).At(o) {
        forall key | key in runs ensures FiledUnder(ga, bucket, o)(key) == FiledUnder(gb, bucket, o)(key) {
          GroupIsRun(a, key);
          GroupIsRun(b, key);
        }
        SameThose(runs, FiledUnder(ga, bucket, o), FiledUnder(gb, bucket, o));
      }
      SameTallies(TallyAt(ra.breakdown, bucket), TallyAt(rb.breakdown, bucket));
    }
    forall bucket ensures bucket in ra.breakdown <==> bucket in rb.breakdown {
      assert TallyAt(ra.breakdown, bucket) == TallyAt(rb.breakdown, bucket);
    }
    forall bucket | bucket in ra.breakdown ensures ra.breakdown[bucket] == rb.breakdown[bucket] {
      assert TallyAt(ra.breakdown, bucket) == TallyAt(rb.breakdown, bucket);
    }
    assert ra.breakdown == rb.breakdown;
  }

  // -------------------------------------------------- delivery and the report

  ghost function SelectedOf(records: seq<Json>, until: real, hours: real): seq<Event> {
    Selected(EventsOf(Survivors(records, |records|)), until, hours)
  }

  /** In no run with a fault does the order of tied events decide the outcome. */
  ghost predicate NoOrderDecides(records: seq<Json>, until: real, hours: real) {
    forall key | key in FaultyRuns(SelectedOf(records, until, hours)) ::
      !OrderMatters(Members(RunOf(records, Begin(until, hours), until, key)))
  }

  /** No run with a fault has a tie. */
  ghost predicate NoTiedRuns(records: seq<Json>, until: real, hours: real) {
    forall key | key in FaultyRuns(SelectedOf(records, until, hours)) ::
      NoTies(RunOf(records, Begin(until, hours), until, key))
  }

  lemma RunIsSelected(records: seq<Json>, until: real, hours: real, key: RunKey)
    ensures RunOf(records, Begin(until, hours), until, key) == Select(SelectedOf(records, until, hours), OfRun(key))
  {
    hide Select, Sort, EventsOf, Survivors;
  }

  /** What two reports on the same events have in common: the counts of events and
      runs, and the hours; the outcomes unless the order of tied events decides
      one; and the breakdown if no run has ties. */
  ghost predicate Agree(records: seq<Json>, until: real, hours: real, r: Report, r': Report) {
    && r.issues == r'.issues && r.unlinked == r'.unlinked && r.affected == r'.affected && r.hourly == r'.hourly
    && (forall k :: CountOf(r.events, k) == CountOf(r'.events, k))
    && (forall m :: CountOf(r.manual, m) == CountOf(r'.manual, m))
    && (NoOrderDecides(records, until, hours) ==> r.outcomes == r'.outcomes)
    && (NoTiedRuns(records, until, hours) ==> r.outcomes == r'.outcomes && r.breakdown == r'.breakdown)
  }

  ghost predicate ReportsOn(selected: seq<Event>, r: Report) {
    CountsEvents(selected, r) && CountsRuns(selected, r)
  }

  /** Any two deliveries of the same events, copies included, give reports that agree. */
  lemma ReportsIgnoreDelivery(a: seq<Json>, b: seq<Json>, until: real, hours: real, ra: Report, rb: Report)
    ensures Prints(a) == Prints(b) && ReportsOn(SelectedOf(a, until, hours), ra) && ReportsOn(SelectedOf(b, until, hours), rb) ==>
              Agree(a, until, hours, ra, rb)
  {
    hide Prints, EventsOf, Survivors, Selected, FaultyRuns, Select, RunOf, Members, OrderMatters, NoTies, Rule, Sorted;
    if Prints(a) == Prints(b) && ReportsOn(SelectedOf(a, until, hours), ra) && ReportsOn(SelectedOf(b, until, hours), rb) {
      DeliveryOrderDoesNotMatter(a, b);
      var sa, sb := SelectedOf(a, until, hours), SelectedOf(b, until, hours);
      SelectedSame(EventsOf(Survivors(a, |a|)), EventsOf(Survivors(b, |b|)), until, hours);
      SameEventCounts(sa, sb, ra, rb);
      SameFaultyRuns(sa, sb);
      assert ra.affected == rb.affected;
      forall key
        ensures Sorted(Select(sa, OfRun(key))) && Sorted(Select(sb, OfRun(key)))
        ensures Members(Select(sa, OfRun(key))) == Members(Select(sb, OfRun(key)))
      {
        RunIsSelected(a, until, hours, key);
        RunIsSelected(b, until, hours, key);
        RunOfSame(a, b, Begin(until, hours), until, key);
      }
      hide CountsEvents, CountsRuns;
      SameHours(sa, sb, ra, rb);
      if NoOrderDecides(a, until, hours) {
        forall key | key in FaultyRuns(sa) ensures Rule(Select(sa, OfRun(key))) == Rule(Select(sb, OfRun(key))) {
          RunIsSelected(a, until, hours, key);
          RunIsSelected(b, until, hours, key);
          NoOrderMatters(a, b, Begin(until, hours), until, key);
        }
        SameOutcomes(sa, sb, ra, rb);
      }
      if NoTiedRuns(a, until, hours) {
        forall key | key in FaultyRuns(sa) ensures Select(sa, OfRun(key)) == Select(sb, OfRun(key)) {
          RunIsSelected(a, until, hours, key);
          RunIsSelected(b, until, hours, key);
          UntiedRunsAgree(a, b, Begin(until, hours), until, key);
        }
        SameOutcomes(sa, sb, ra, rb);
        SameBreakdown(sa, sb, ra, rb);
      }
    }
  }

  lemma UntiedRunsAgree(a: seq<Json>, b: seq<Json>, begin: real, until: real, key: RunKey)
    requires Prints(a) == Prints(b) && NoTies(RunOf(a, begin, until, key))
    ensures RunOf(a, begin, until, key) == RunOf(b, begin, until, key)
  {
    hide Prints, EventsOf, Survivors, RunEvents, NoTies;
    DeliveryOrderDoesNotMatter(a, b);
    OutcomeIgnoresDelivery(EventsOf(Survivors(a, |a|)), EventsOf(Survivors(b, |b|)), begin, until, key);
  }

  ghost predicate IsRedelivery(records: seq<Json>, copies: seq<Json>, again: seq<Json>) {
    && multiset(again) == multiset(records + copies)
    && forall c | c in copies :: exists first :: first in records && Redelivers(c, first)
  }

  /** The reports of a delivery and of the same records in another order with any
      copies, of another receipt time too where that time does not count. */
  lemma RedeliveryKeepsReport(records: seq<Json>, copies: seq<Json>, again: seq<Json>, until: real, hours: real,
                              input: JournalReader.Quality, input': JournalReader.Quality, r: Report, r': Report)
    ensures IsRedelivery(records, copies, again) && Reports(records, until, hours, input, r) && Reports(again, until, hours, input', r') ==>
              && r.unique == r'.unique && r.outside == r'.outside && r.conflicting == r'.conflicting
              && Agree(records, until, hours, r, r')
  {
    hide Prints, Redelivers, EventsOf, Survivors, Selected, CountsEvents, CountsRuns, Agree, Firsts, Rejected, Duplicates, Mismatches;
    if IsRedelivery(records, copies, again) && Reports(records, until, hours, input, r) && Reports(again, until, hours, input', r') {
      SameDelivery(records, copies, again);
      ReportsIgnoreDelivery(records, again, until, hours, r, r');
      DeliveryOrderDoesNotMatter(records, again);
      SameSize(EventsOf(Survivors(records, |records|)), EventsOf(Survivors(again, |again|)));
      SelectedSame(EventsOf(Survivors(records, |records|)), EventsOf(Survivors(again, |again|)), until, hours);
      SameSize(SelectedOf(records, until, hours), SelectedOf(again, until, hours));
    }
  }
}
