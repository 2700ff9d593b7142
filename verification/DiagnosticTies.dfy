/** When events of one run share time and name: exactly when their order, which
    is that of delivery, decides the outcome. */
module DiagnosticTies {
  import opened Tables
  import opened DiagnosticRecords
  import opened DiagnosticOutcome
  import opened DiagnosticOrder

  ghost predicate Precedes(a: Event, b: Event) {
    Before(a, b) && !Before(b, a)
  }

  ghost predicate Ties(a: Event, b: Event) {
    Before(a, b) && Before(b, a)
  }

  lemma BeforeIsTotal(a: Event, b: Event, c: Event)
    ensures Before(a, b) || Before(b, a)
    ensures Before(a, b) && Before(b, c) ==> Before(a, c)
    ensures Ties(a, b) ==> a.kind == b.kind && a.time == b.time
  {
    if Rank(a.kind) == Rank(b.kind) { SameRankSameKind(a.kind, b.kind); }
    hide Rank;
  }

  // ------------------------------------------------- a run without its order

  ghost function Members(s: seq<Event>): set<Event> {
    set e | e in s
  }

  ghost predicate IsFault(run: set<Event>, f: Event) {
    f in run && IsIssue(f.kind)
  }

  /** Faults with one time and name form a class. */
  ghost predicate InClass(run: set<Event>, f: Event, g: Event) {
    IsFault(run, g) && Ties(f, g)
  }

  /** An event after the class of f and before the next class. */
  ghost predicate Follows(run: set<Event>, f: Event, e: Event) {
    e in run && !IsIssue(e.kind) && Precedes(f, e) && forall g | IsFault(run, g) && Precedes(f, g) :: !Precedes(g, e)
  }

  /** If f is the last of its class, something proves recovery from it before the next class. */
  ghost predicate Passed(run: set<Event>, f: Event) {
    exists e :: Follows(run, f, e) && Proves(e, f)
  }

  ghost predicate SomePassed(run: set<Event>, f: Event) {
    exists g :: InClass(run, f, g) && Passed(run, g)
  }

  ghost predicate SomeNotPassed(run: set<Event>, f: Event) {
    exists g :: InClass(run, f, g) && !Passed(run, g)
  }

  /** Its last member decides whether the class is recovered from. */
  ghost predicate Open(run: set<Event>, f: Event) {
    SomePassed(run, f) && SomeNotPassed(run, f)
  }

  ghost predicate InLastClass(run: set<Event>, f: Event) {
    IsFault(run, f) && forall g | IsFault(run, g) :: !Precedes(f, g)
  }

  ghost predicate IsLastFatal(run: set<Event>, h: Event) {
    h in run && Fatal(h) && forall g | g in run && Fatal(g) :: !Precedes(h, g)
  }

  /** From the class of h on, some class is open and none is recovered from whatever its order. */
  ghost predicate Undecided(run: set<Event>, h: Event) {
    && (exists g :: IsFault(run, g) && !Precedes(g, h) && Open(run, g))
    && (forall g | IsFault(run, g) && !Precedes(g, h) :: SomeNotPassed(run, g))
  }

  /** The last class is open; or nothing is recovered from in it, and what follows
      the last fatal error is undecided. */
  ghost predicate OrderMatters(run: set<Event>) {
    || (exists f :: InLastClass(run, f) && Open(run, f))
    || (exists f, h :: InLastClass(run, f) && !SomePassed(run, f) && IsLastFatal(run, h) && Undecided(run, h))
  }

  // ----------------------------------------------------- a run in its order

  /** The last of its class. */
  ghost predicate Top(a: seq<Event>, k: int) {
    0 <= k < |a| && IsIssue(a[k].kind) && forall m | k < m < |a| :: !Ties(a[k], a[m])
  }

  /** In sorted order a later index never precedes, and a fault never ties with another kind of event. */
  lemma Ordered(a: seq<Event>, i: int, j: int)
    requires Sorted(a) && 0 <= i < |a| && 0 <= j < |a|
    ensures Precedes(a[i], a[j]) ==> i < j
    ensures i < j ==> Precedes(a[i], a[j]) || Ties(a[i], a[j])
    ensures i < j && IsIssue(a[i].kind) != IsIssue(a[j].kind) ==> Precedes(a[i], a[j])
    ensures i < j && Top(a, i) ==> Precedes(a[i], a[j])
    ensures Ties(a[i], a[i])
  {
    BeforeIsTotal(a[i], a[j], a[i]);
    BeforeIsTotal(a[i], a[i], a[i]);
    hide Before;
  }

  /** The fault a signal is compared with is the last of its class. */
  lemma LatestIsTop(a: seq<Event>, j: int)
    requires Sorted(a) && 0 <= j < |a| && !IsIssue(a[j].kind) && LatestFault(a, j) >= 0
    ensures Top(a, LatestFault(a, j))
  {
    var k := LatestFault(a, j);
    forall m | k < m < |a|
      ensures !Ties(a[k], a[m])
    {
      Ordered(a, k, j);
      BeforeIsTotal(a[k], a[m], a[j]);
      BeforeIsTotal(a[j], a[m], a[k]);
    }
  }

  /** For the last of its class, being passed is having evidence of its own. */
  lemma PassedAt(a: seq<Event>, k: int)
    requires Sorted(a) && Top(a, k)
    ensures Passed(Members(a), a[k]) <==> exists j :: Evidence(a, j) && LatestFault(a, j) == k
  {
    var run := Members(a);
    if j :| Evidence(a, j) && LatestFault(a, j) == k {
      EvidenceIsNoIssue(a, j);
      Ordered(a, k, j);
      forall g | IsFault(run, g) && Precedes(a[k], g)
        ensures !Precedes(g, a[j])
      {
        var m :| 0 <= m < |a| && a[m] == g;
        Ordered(a, k, m);
        Ordered(a, m, j);
      }
      assert Follows(run, a[k], a[j]);
    }
    if Passed(run, a[k]) {
      var e :| Follows(run, a[k], e) && Proves(e, a[k]);
      var j :| 0 <= j < |a| && a[j] == e;
      Ordered(a, k, j);
      var m := LatestFault(a, j);
      if m != k {
        Ordered(a, k, m);
        Ordered(a, m, j);
        assert IsFault(run, a[m]);
      }
      assert Evidence(a, j);
    }
  }

  /** The last of the last class, passed. */
  ghost predicate Ends(a: seq<Event>, k: int) {
    Top(a, k) && InLastClass(Members(a), a[k]) && Passed(Members(a), a[k])
  }

  lemma LastTopIsLast(a: seq<Event>, k: int)
    requires Sorted(a) && Top(a, k) && forall m | k < m < |a| :: !IsIssue(a[m].kind)
    ensures InLastClass(Members(a), a[k])
  {
    hide Before, IsIssue, Ties, Precedes, Sorted;
    forall g | IsFault(Members(a), g) ensures !Precedes(a[k], g) {
      var m :| 0 <= m < |a| && a[m] == g;
      Ordered(a, k, m);
    }
  }

  lemma EvidenceEnds(a: seq<Event>, j: int)
    requires Sorted(a) && 0 <= j < |a| && Evidence(a, j) && forall k | j < k < |a| :: !IsIssue(a[k].kind)
    ensures Ends(a, LatestFault(a, j))
  {
    EvidenceIsNoIssue(a, j);
    assert LatestFault(a, j) >= 0;
    hide Passed, Before, Evidence, Top, Sorted, IsIssue, LatestFault, InLastClass;
    LatestIsTop(a, j);
    PassedAt(a, LatestFault(a, j));
    LastTopIsLast(a, LatestFault(a, j));
  }

  lemma EndsAreEvidence(a: seq<Event>, k: int)
    requires Sorted(a) && Ends(a, k)
    ensures exists j :: 0 <= j < |a| && Evidence(a, j) && forall m | j < m < |a| :: !IsIssue(a[m].kind)
  {
    PassedAt(a, k);
    var j :| Evidence(a, j) && LatestFault(a, j) == k;
    hide Passed, Before, Evidence;
    forall m | j < m < |a| ensures !IsIssue(a[m].kind) {
      Ordered(a, k, m);
      assert a[m] in Members(a);
    }
  }

  lemma RecoveredBy(a: seq<Event>)
    requires Sorted(a)
    ensures IsRecovered(a, |a|) <==> exists k :: Ends(a, k)
  {
    hide Ends, Sorted;
    if IsRecovered(a, |a|) {
      var j :| 0 <= j < |a| && Evidence(a, j) && forall k | j < k < |a| :: !IsIssue(a[k].kind);
      EvidenceEnds(a, j);
    }
    if k :| Ends(a, k) {
      EndsAreEvidence(a, k);
    }
  }

  /** In this order nothing is recovered from, from the class of h on. */
  ghost predicate NothingPassed(a: seq<Event>, h: Event) {
    forall k | Top(a, k) && !Precedes(a[k], h) :: !Passed(Members(a), a[k])
  }

  lemma FailedBy(a: seq<Event>)
    requires Sorted(a)
    ensures IsFatal(a, |a|) <==> exists h :: h in Members(a) && Fatal(h) && NothingPassed(a, h)
  {
    var run := Members(a);
    if IsFatal(a, |a|) {
      var p :| 0 <= p < |a| && Fatal(a[p]) && forall j | p < j < |a| :: !Evidence(a, j);
      forall k | Top(a, k) && !Precedes(a[k], a[p]) ensures !Passed(run, a[k]) {
        PassedAt(a, k);
        Ordered(a, k, p);
      }
      assert a[p] in run;
    }
    if h :| h in run && Fatal(h) && NothingPassed(a, h) {
      var p :| 0 <= p < |a| && a[p] == h;
      forall j | p < j < |a| ensures !Evidence(a, j) {
        if Evidence(a, j) {
          EvidenceIsNoIssue(a, j);
          var k := LatestFault(a, j);
          LatestIsTop(a, j);
          PassedAt(a, k);
          Ordered(a, k, p);
        }
      }
    }
  }

  // ------------------------------------------------------- two orders of one run

  /** Every class has a last member in the order. */
  lemma {:induction false} TopOf(a: seq<Event>, i: int) returns (k: int)
    requires Sorted(a) && 0 <= i < |a| && IsIssue(a[i].kind)
    ensures Top(a, k) && Ties(a[i], a[k])
    decreases |a| - i
  {
    if Top(a, i) {
      Ordered(a, i, i);
      k := i;
    } else {
      var m :| i < m < |a| && Ties(a[i], a[m]);
      BeforeIsTotal(a[i], a[m], a[i]);
      k := TopOf(a, m);
      BeforeIsTotal(a[i], a[m], a[k]);
      BeforeIsTotal(a[k], a[m], a[i]);
    }
  }

  lemma TopIn(a: seq<Event>, f: Event) returns (k: int)
    requires Sorted(a) && IsFault(Members(a), f)
    ensures Top(a, k) && Ties(f, a[k]) && IsFault(Members(a), a[k])
  {
    var i :| 0 <= i < |a| && a[i] == f;
    k := TopOf(a, i);
  }

  /** Tied events precede and follow alike. */
  lemma TiedAlike(f: Event, g: Event, e: Event)
    requires Ties(f, g)
    ensures Ties(g, f) && (Precedes(f, e) <==> Precedes(g, e)) && (Precedes(e, f) <==> Precedes(e, g)) && (Ties(f, e) <==> Ties(g, e))
  {
    BeforeIsTotal(f, g, e);
    BeforeIsTotal(g, f, e);
    BeforeIsTotal(e, f, g);
    BeforeIsTotal(e, g, f);
    hide Before;
  }

  lemma ClassAlike(run: set<Event>, f: Event, g: Event)
    requires InClass(run, f, g) && IsFault(run, f)
    ensures InLastClass(run, f) <==> InLastClass(run, g)
    ensures SomePassed(run, f) <==> SomePassed(run, g)
    ensures SomeNotPassed(run, f) <==> SomeNotPassed(run, g)
  {
    forall e ensures (InClass(run, f, e) <==> InClass(run, g, e)) && (Precedes(f, e) <==> Precedes(g, e)) {
      TiedAlike(f, g, e);
    }
    hide Passed, Precedes, Ties;
  }

  /** The last class has one member that ends the order. */
  lemma LastTop(a: seq<Event>, f: Event) returns (k: int)
    requires Sorted(a) && InLastClass(Members(a), f)
    ensures Top(a, k) && InClass(Members(a), f, a[k]) && InLastClass(Members(a), a[k])
    ensures Passed(Members(a), a[k]) <==> IsRecovered(a, |a|)
  {
    k := TopIn(a, f);
    var run := Members(a);
    ClassAlike(run, f, a[k]);
    RecoveredBy(a);
    if m :| Ends(a, m) {
      Ordered(a, m, k);
      Ordered(a, k, m);
      assert IsFault(run, a[m]) && m == k;
    }
    if Passed(run, a[k]) { assert Ends(a, k); }
  }

  /** If two orders of one run end differently, its order matters. */
  lemma DifferenceMatters(a: seq<Event>, b: seq<Event>)
    requires Sorted(a) && Sorted(b) && Members(a) == Members(b) && Rule(a) != Rule(b)
    ensures OrderMatters(Members(a))
  {
    if IsRecovered(a, |a|) {
      OneRecovered(a, b);
    } else if IsRecovered(b, |b|) {
      OneRecovered(b, a);
    } else if IsFatal(a, |a|) {
      OneFailed(a, b);
    } else {
      OneFailed(b, a);
    }
  }

  lemma OneRecovered(a: seq<Event>, b: seq<Event>)
    requires Sorted(a) && Sorted(b) && Members(a) == Members(b) && IsRecovered(a, |a|) && !IsRecovered(b, |b|)
    ensures OrderMatters(Members(a))
  {
    var run := Members(a);
    RecoveredBy(a);
    var i :| Ends(a, i);
    var f := a[i];
    var k := LastTop(a, f);
    var m := LastTop(b, f);
    hide Passed, InLastClass, InClass, Top, IsRecovered, Sorted;
    assert SomePassed(run, f) && SomeNotPassed(run, f);
  }

  /** A last fatal error there is, if there is one at all. */
  lemma {:induction false} LastFatalFrom(a: seq<Event>, i: int) returns (h: Event)
    requires Sorted(a) && 0 <= i < |a| && Fatal(a[i])
    ensures IsLastFatal(Members(a), h) && !Precedes(h, a[i])
    decreases |a| - i
  {
    if m :| i < m < |a| && Fatal(a[m]) {
      h := LastFatalFrom(a, m);
      Ordered(a, i, m);
      BeforeIsTotal(h, a[i], a[m]);
      BeforeIsTotal(a[i], a[m], h);
    } else {
      h := a[i];
      forall g | g in Members(a) && Fatal(g) ensures !Precedes(h, g) {
        var m :| 0 <= m < |a| && a[m] == g;
        Ordered(a, i, m);
      }
      Ordered(a, i, i);
      assert h in Members(a);
    }
  }

  lemma LastFaultOf(a: seq<Event>, i: int) returns (f: Event)
    requires Sorted(a) && 0 <= i < |a| && IsIssue(a[i].kind)
    ensures InLastClass(Members(a), f)
  {
    var k := LatestFault(a, |a|);
    f := a[k];
    forall g | IsFault(Members(a), g) ensures !Precedes(f, g) {
      var m :| 0 <= m < |a| && a[m] == g;
      Ordered(a, k, m);
    }
  }

  lemma NothingPassedLater(a: seq<Event>, fatal: Event, h: Event)
    requires NothingPassed(a, fatal) && !Precedes(h, fatal)
    ensures NothingPassed(a, h)
  {
    hide Passed, Before;
    forall k | Top(a, k) && !Precedes(a[k], h) ensures !Passed(Members(a), a[k]) {
      BeforeIsTotal(a[k], fatal, h);
      BeforeIsTotal(fatal, h, a[k]);
    }
  }

  lemma TopIsIndex(a: seq<Event>, k: int)
    requires Top(a, k)
    ensures 0 <= k < |a| && IsFault(Members(a), a[k])
  {
    assert a[k] in Members(a);
  }

  lemma FailedIsUndecided(a: seq<Event>, b: seq<Event>, h: Event)
    requires Sorted(a) && Sorted(b) && Members(a) == Members(b) && IsLastFatal(Members(a), h)
    requires NothingPassed(a, h) && !NothingPassed(b, h)
    ensures Undecided(Members(a), h)
  {
    var run := Members(a);
    forall g | IsFault(run, g) && !Precedes(g, h) ensures SomeNotPassed(run, g) {
      var k := TopIn(a, g);
      TiedAlike(g, a[k], h);
      assert InClass(run, g, a[k]);
    }
    var m :| Top(b, m) && !Precedes(b[m], h) && Passed(run, b[m]);
    TopIsIndex(b, m);
    Ordered(b, m, m);
    assert InClass(run, b[m], b[m]);
    assert Open(run, b[m]);
  }

  lemma OneFailed(a: seq<Event>, b: seq<Event>)
    requires Sorted(a) && Sorted(b) && Members(a) == Members(b)
    requires !IsRecovered(a, |a|) && !IsRecovered(b, |b|) && IsFatal(a, |a|) && !IsFatal(b, |b|)
    ensures OrderMatters(Members(a))
  {
    var run := Members(a);
    FailedBy(a);
    FailedBy(b);
    var fatal :| fatal in run && Fatal(fatal) && NothingPassed(a, fatal);
    var i :| 0 <= i < |a| && a[i] == fatal;
    var h := LastFatalFrom(a, i);
    assert NothingPassed(a, h) by { NothingPassedLater(a, fatal, h); }
    var f := LastFaultOf(a, i);
    var k := LastTop(a, f);
    hide Top, IsRecovered, IsFatal, Sorted;
    if SomePassed(run, f) {
      assert SomeNotPassed(run, f);
      assert Open(run, f);
    } else {
      FailedIsUndecided(a, b, h);
    }
  }

  // ------------------------------------------------------- the two extremes

  /** Of tied events the good ones come last. */
  ghost predicate Favors(a: seq<Event>, good: Event -> bool) {
    forall i, j | 0 <= i < j < |a| && Ties(a[i], a[j]) && good(a[i]) :: good(a[j])
  }

  lemma FavoredTop(a: seq<Event>, good: Event -> bool, k: int, g: Event)
    requires Sorted(a) && Favors(a, good) && Top(a, k) && InClass(Members(a), a[k], g) && good(g)
    ensures good(a[k])
  {
    var m :| 0 <= m < |a| && a[m] == g;
    TiedAlike(a[k], a[m], a[k]);
    if k < m {
      Ordered(a, k, m);
      assert false;
    }
  }

  ghost function PassedIn(run: set<Event>): Event -> bool {
    (e: Event) => Passed(run, e)
  }

  ghost function NotPassedIn(run: set<Event>): Event -> bool {
    (e: Event) => !Passed(run, e)
  }

  /** At its best every class that can be recovered from is; at its worst every
      class that can fail to be does. */
  lemma BestTop(a: seq<Event>, k: int)
    requires Sorted(a) && Favors(a, PassedIn(Members(a))) && Top(a, k) && SomePassed(Members(a), a[k])
    ensures Passed(Members(a), a[k])
  {
    hide Passed, Favors;
    var g :| InClass(Members(a), a[k], g) && Passed(Members(a), g);
    FavoredTop(a, PassedIn(Members(a)), k, g);
  }

  lemma WorstTop(a: seq<Event>, k: int)
    requires Sorted(a) && Favors(a, NotPassedIn(Members(a))) && Top(a, k) && SomeNotPassed(Members(a), a[k])
    ensures !Passed(Members(a), a[k])
  {
    hide Passed, Favors;
    var g :| InClass(Members(a), a[k], g) && !Passed(Members(a), g);
    FavoredTop(a, NotPassedIn(Members(a)), k, g);
  }

  lemma LastOpenDiffers(a: seq<Event>, b: seq<Event>, f: Event)
    requires Sorted(a) && Sorted(b) && Members(a) == Members(b) && InLastClass(Members(a), f) && Open(Members(a), f)
    requires Favors(a, PassedIn(Members(a))) && Favors(b, NotPassedIn(Members(a)))
    ensures Rule(a) != Rule(b)
  {
    var run := Members(a);
    var k := LastTop(a, f);
    ClassAlike(run, f, a[k]);
    BestTop(a, k);
    var m := LastTop(b, f);
    ClassAlike(run, f, b[m]);
    WorstTop(b, m);
    hide IsRecovered, Passed, SomePassed, SomeNotPassed, Favors;
  }

  lemma UndecidedDiffers(a: seq<Event>, b: seq<Event>, f: Event, h: Event)
    requires Sorted(a) && Sorted(b) && Members(a) == Members(b)
    requires InLastClass(Members(a), f) && !SomePassed(Members(a), f) && IsLastFatal(Members(a), h) && Undecided(Members(a), h)
    requires Favors(a, PassedIn(Members(a))) && Favors(b, NotPassedIn(Members(a)))
    ensures Rule(a) == Unresolved && Rule(b) == Failed
  {
    var run := Members(a);
    assert !IsRecovered(a, |a|) by { var _ := LastTop(a, f); }
    assert !IsRecovered(b, |b|) by { var _ := LastTop(b, f); }
    assert NothingPassed(b, h) by { WorstPassesNothing(b, h); }
    assert !NothingPassed(a, h) by { BestPassesSomething(a, h); }
    FailedBy(a);
    FailedBy(b);
    hide IsRecovered, Passed, Undecided, Favors, Sorted, IsFatal, SomePassed, InLastClass;
    if fatal :| fatal in run && Fatal(fatal) && NothingPassed(a, fatal) {
      NothingPassedLater(a, fatal, h);
    }
  }

  lemma WorstPassesNothing(b: seq<Event>, h: Event)
    requires Sorted(b) && Favors(b, NotPassedIn(Members(b))) && Undecided(Members(b), h)
    ensures NothingPassed(b, h)
  {
    hide Favors, Passed, SomeNotPassed;
    forall k | Top(b, k) && !Precedes(b[k], h) ensures !Passed(Members(b), b[k]) {
      TopIsIndex(b, k);
      WorstTop(b, k);
    }
  }

  lemma BestPassesSomething(a: seq<Event>, h: Event)
    requires Sorted(a) && Favors(a, PassedIn(Members(a))) && Undecided(Members(a), h)
    ensures !NothingPassed(a, h)
  {
    var run := Members(a);
    var g :| IsFault(run, g) && !Precedes(g, h) && Open(run, g);
    var k := TopIn(a, g);
    TiedAlike(g, a[k], h);
    ClassAlike(run, g, a[k]);
    hide Favors, Passed, SomePassed;
    BestTop(a, k);
  }

  /** Exactly if its order matters, the best and the worst order of a run end differently. */
  lemma ExtremesDiffer(a: seq<Event>, b: seq<Event>)
    requires Sorted(a) && Sorted(b) && Members(a) == Members(b)
    requires Favors(a, PassedIn(Members(a))) && Favors(b, NotPassedIn(Members(a)))
    ensures Rule(a) != Rule(b) <==> OrderMatters(Members(a))
  {
    var run := Members(a);
    hide Sorted, Favors, Rule, Open, Undecided, SomePassed, InLastClass, IsLastFatal;
    if Rule(a) != Rule(b) {
      DifferenceMatters(a, b);
    }
    if f :| InLastClass(run, f) && Open(run, f) {
      LastOpenDiffers(a, b, f);
    }
    if f, h :| InLastClass(run, f) && !SomePassed(run, f) && IsLastFatal(run, h) && Undecided(run, h) {
      UndecidedDiffers(a, b, f, h);
    }
  }
}
