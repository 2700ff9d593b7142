/** What was delivered, with no order in it and with its order: the distinct
    contents, which of them survive, and which delivery of each came first. */
module DiagnosticDeliveries {
  import opened Tables
  import opened DiagnosticRecords

  predicate Valid(record: Json) {
    Normalize(record).Some?
  }

  function PrintOf(record: Json): Fields
    requires Valid(record)
  {
    Fingerprint(record.fields)
  }

  /** The distinct events that were delivered, as fingerprints. */
  function Prints(records: seq<Json>): set<Fields> {
    set r | r in records && Valid(r) :: PrintOf(r)
  }

  /** Identities that occur with two different contents. */
  ghost predicate Quarantined(prints: set<Fields>, i: Identity) {
    exists p, q :: p in prints && q in prints && p != q && IdentityOf(p) == i && IdentityOf(q) == i
  }

  ghost function QuarantineSet(prints: set<Fields>): set<Identity> {
    set p | p in prints && Quarantined(prints, IdentityOf(p)) :: IdentityOf(p)
  }

  lemma QuarantineSetMeans(prints: set<Fields>)
    ensures forall i :: i in QuarantineSet(prints) <==> Quarantined(prints, i)
  {
    forall i | Quarantined(prints, i) ensures i in QuarantineSet(prints) {
      var p, q :| p in prints && q in prints && p != q && IdentityOf(p) == i && IdentityOf(q) == i;
    }
  }

  /** What is left: the events whose identity is not in doubt. */
  ghost predicate Survives(prints: set<Fields>, p: Fields) {
    p in prints && !Quarantined(prints, IdentityOf(p))
  }

  function EventOf(p: Fields): Event {
    NormalizeFields(p).GetOr(Event(EnginePause, 0.0, None, None, None, UNKNOWN, UNKNOWN, UNKNOWN, UNKNOWN, None, false, false))
  }

  function EventsOf(prints: seq<Fields>): seq<Event> {
    if prints == [] then [] else [EventOf(prints[0])] + EventsOf(prints[1..])
  }

  ghost predicate Unique<T>(s: seq<T>) {
    forall i, j | 0 <= i < j < |s| :: s[i] != s[j]
  }

  /** `kept` lists the surviving events, each once. */
  ghost predicate Lists(kept: seq<Fields>, prints: set<Fields>) {
    Unique(kept) && forall p :: p in kept <==> Survives(prints, p)
  }

  // ------------------------------------------------------ first deliveries

  predicate Brings(record: Json, i: Identity) {
    Valid(record) && IdentityOf(record.fields) == i
  }

  function FirstWhere<T>(s: seq<T>, has: T -> bool): (k: nat)
    ensures k <= |s| && (k < |s| ==> has(s[k]))
    ensures forall m | 0 <= m < k :: !has(s[m])
  {
    if s == [] then 0 else
    var last := |s| - 1;
    var k := FirstWhere(s[..last], has);
    if k < last || has(s[last]) then k else |s|
  }

  /** Where an identity is delivered first; past the end if it never is. */
  function First(records: seq<Json>, i: Identity): (k: nat)
    ensures k <= |records| && (k < |records| ==> Brings(records[k], i))
    ensures forall m | 0 <= m < k :: !Brings(records[m], i)
  {
    FirstWhere(records, (record: Json) => Brings(record, i))
  }

  predicate IsFirst(records: seq<Json>, k: nat)
    requires k < |records|
  {
    Valid(records[k]) && First(records, IdentityOf(records[k].fields)) == k
  }

  /** A record after the first of its identity, with the content of that first one. */
  predicate IsDuplicate(records: seq<Json>, k: nat)
    requires k < |records|
  {
    Valid(records[k]) &&
    var first := First(records, IdentityOf(records[k].fields));
    first < k && PrintOf(records[first]) == PrintOf(records[k])
  }

  /** A record after the first of its identity, with another content. */
  predicate IsMismatch(records: seq<Json>, k: nat)
    requires k < |records|
  {
    Valid(records[k]) &&
    var first := First(records, IdentityOf(records[k].fields));
    first < k && PrintOf(records[first]) != PrintOf(records[k])
  }

  ghost function Rejected(records: seq<Json>, n: nat): set<nat>
    requires n <= |records|
  {
    set k: nat | k < n && !Valid(records[k])
  }

  ghost function Firsts(records: seq<Json>, n: nat): set<nat>
    requires n <= |records|
  {
    set k: nat | k < n && IsFirst(records, k)
  }

  ghost function Duplicates(records: seq<Json>, n: nat): set<nat>
    requires n <= |records|
  {
    set k: nat | k < n && IsDuplicate(records, k)
  }

  ghost function Mismatches(records: seq<Json>, n: nat): set<nat>
    requires n <= |records|
  {
    set k: nat | k < n && IsMismatch(records, k)
  }

  /** The first deliveries whose identity is not in quarantine, in their order. */
  ghost function Survivors(records: seq<Json>, n: nat): seq<Fields>
    requires n <= |records|
  {
    if n == 0 then [] else
    var front := Survivors(records, n - 1);
    if IsFirst(records, n - 1) && !Quarantined(Prints(records), IdentityOf(records[n - 1].fields))
    then front + [PrintOf(records[n - 1])] else front
  }

  lemma SurvivorsNext(records: seq<Json>, n: nat, p: Fields)
    requires n < |records|
    ensures p in Survivors(records, n + 1) <==>
            p in Survivors(records, n) ||
            (IsFirst(records, n) && !Quarantined(Prints(records), IdentityOf(records[n].fields)) && p == PrintOf(records[n]))
  {
    hide Valid, IsFirst, Quarantined, Prints, IdentityOf, Fingerprint;
  }

  /** A surviving event that was delivered, as the first of its identity, among the first n records. */
  ghost predicate CameBy(records: seq<Json>, n: nat, p: Fields) {
    && Survives(Prints(records), p)
    && var first := First(records, IdentityOf(p)); first < n && first < |records| && PrintOf(records[first]) == p
  }

  lemma CameByNext(records: seq<Json>, n: nat, p: Fields)
    requires n < |records|
    ensures CameBy(records, n + 1, p) <==>
            CameBy(records, n, p) ||
            (IsFirst(records, n) && !Quarantined(Prints(records), IdentityOf(records[n].fields)) && p == PrintOf(records[n]))
  {
    hide NormalizeFields, Fingerprint, IdentityOf, Quarantined;
    if Valid(records[n]) {
      FingerprintDecides(records[n].fields);
      assert PrintOf(records[n]) in Prints(records);
    }
  }

  lemma NoneCameYet(records: seq<Json>, p: Fields)
    ensures p !in Survivors(records, 0) && !CameBy(records, 0, p)
  {
  }

  lemma {:induction false} SurvivorsCome(records: seq<Json>, n: nat, p: Fields)
    requires n <= |records|
    ensures p in Survivors(records, n) <==> CameBy(records, n, p)
  {
    hide Survivors, CameBy, IsFirst, Quarantined, Prints, Valid, PrintOf, IdentityOf;
    if n == 0 {
      NoneCameYet(records, p);
    } else {
      SurvivorsCome(records, n - 1, p);
      SurvivorsNext(records, n - 1, p);
      CameByNext(records, n - 1, p);
    }
  }

  /** All contents of an unquarantined identity are that of its first delivery. */
  lemma OneContent(records: seq<Json>, p: Fields)
    requires Survives(Prints(records), p)
    ensures First(records, IdentityOf(p)) < |records| && PrintOf(records[First(records, IdentityOf(p))]) == p
  {
    hide NormalizeFields, Fingerprint, IdentityOf;
    var r :| r in records && Valid(r) && PrintOf(r) == p;
    FingerprintDecides(r.fields);
    var k :| 0 <= k < |records| && records[k] == r;
    assert Brings(records[k], IdentityOf(p));
    var first := records[First(records, IdentityOf(p))];
    FingerprintDecides(first.fields);
    assert PrintOf(first) in Prints(records);
  }

  lemma {:induction false} SurvivorsInOrder(records: seq<Json>, n: nat, i: nat, j: nat)
    requires n <= |records| && i < j < |Survivors(records, n)|
    ensures First(records, IdentityOf(Survivors(records, n)[i])) < First(records, IdentityOf(Survivors(records, n)[j])) < n
    decreases n
  {
    hide NormalizeFields, Fingerprint, IdentityOf;
    var front := Survivors(records, n - 1);
    if j < |front| {
      SurvivorsInOrder(records, n - 1, i, j);
    } else {
      FingerprintDecides(records[n - 1].fields);
      SurvivorsCome(records, n - 1, front[i]);
    }
  }

  /** The survivors are those events whose identity is not in doubt, each once. */
  lemma SurvivorsAreListed(records: seq<Json>)
    ensures Lists(Survivors(records, |records|), Prints(records))
  {
    hide NormalizeFields, Fingerprint, IdentityOf, EventOf;
    var kept := Survivors(records, |records|);
    forall p ensures p in kept <==> Survives(Prints(records), p) {
      SurvivorsCome(records, |records|, p);
      if Survives(Prints(records), p) { OneContent(records, p); }
    }
    forall i, j | 0 <= i < j < |kept| ensures kept[i] != kept[j] {
      SurvivorsInOrder(records, |records|, i, j);
    }
  }

  // ------------------------------------------------- order does not matter

  lemma SameRecordsSamePrints(a: seq<Json>, b: seq<Json>)
    requires multiset(a) == multiset(b)
    ensures Prints(a) == Prints(b)
  {
    assert forall r :: r in a <==> r in multiset(a);
    assert forall r :: r in b <==> r in multiset(b);
  }

  /** A second copy of a record: the same again, or with another receipt time
      where that time does not count. */
  predicate Redelivers(copy: Json, record: Json) {
    copy == record ||
    (copy.Obj? && record.Obj? && ReceiptIsNoise(record.fields)
     && copy.fields - {"receivedAtMs"} == record.fields - {"receivedAtMs"})
  }

  lemma RedeliveryKeepsPrint(copy: Json, record: Json)
    requires Redelivers(copy, record)
    ensures Valid(copy) <==> Valid(record)
    ensures Valid(record) ==> PrintOf(copy) == PrintOf(record)
  {
    if copy != record {
      var m, n := copy.fields, record.fields;
      assert forall key | key != "receivedAtMs" :: Field(m, key) == Field(n, key) && (key in m <==> key in n) by {
        assert forall key | key != "receivedAtMs" :: key in m <==> key in m - {"receivedAtMs"};
        assert forall key | key != "receivedAtMs" :: key in n <==> key in n - {"receivedAtMs"};
      }
      assert Fingerprint(m) == Fingerprint(n);
      FingerprintDecides(m);
      FingerprintDecides(n);
    }
  }

  /** Redelivered copies add nothing. */
  lemma RedeliveriesAddNothing(records: seq<Json>, copies: seq<Json>)
    requires forall c | c in copies :: exists r :: r in records && Redelivers(c, r)
    ensures Prints(records + copies) == Prints(records)
  {
    hide NormalizeFields, Fingerprint, Redelivers;
    var all := records + copies;
    forall p | p in Prints(all) ensures p in Prints(records) {
      var c :| c in all && Valid(c) && PrintOf(c) == p;
      if c !in records {
        assert c in copies;
        var r :| r in records && Redelivers(c, r);
        RedeliveryKeepsPrint(c, r);
      }
    }
    forall p | p in Prints(records) ensures p in Prints(all) {
      var r :| r in records && Valid(r) && PrintOf(r) == p;
      assert r in all;
    }
  }

  /** The same events in any order, with any copies, have the same contents. */
  lemma SameDelivery(a: seq<Json>, copies: seq<Json>, b: seq<Json>)
    requires multiset(b) == multiset(a + copies)
    requires forall c | c in copies :: exists r :: r in a && Redelivers(c, r)
    ensures Prints(b) == Prints(a)
  {
    SameRecordsSamePrints(b, a + copies);
    RedeliveriesAddNothing(a, copies);
  }

  lemma {:induction false} EventsOfSplit(a: seq<Fields>, b: seq<Fields>)
    ensures EventsOf(a + b) == EventsOf(a) + EventsOf(b)
    decreases |a|
  {
    if a == [] {
      assert a + b == b;
    } else {
      assert (a + b)[1..] == a[1..] + b;
      EventsOfSplit(a[1..], b);
    }
  }

  /** Two lists of the same surviving events hold the same events equally often. */
  lemma {:induction false} SameListSameEvents(a: seq<Fields>, b: seq<Fields>)
    requires Unique(a) && Unique(b) && forall p :: p in a <==> p in b
    ensures multiset(EventsOf(a)) == multiset(EventsOf(b))
    decreases |a|
  {
    if a == [] {
      EmptyIffNoMembers(a);
      EmptyIffNoMembers(b);
    } else {
      assert a[0] in a && a[0] in b;
      var j :| 0 <= j < |b| && b[j] == a[0];
      RestIsSame(a, b, j);
      PullOut(a, 0);
      PullOut(b, j);
      assert a[..0] + a[1..] == a[1..];
      SameListSameEvents(a[1..], b[..j] + b[j + 1..]);
    }
  }

  lemma PullOut(b: seq<Fields>, j: nat)
    requires j < |b|
    ensures multiset(EventsOf(b)) == multiset{EventOf(b[j])} + multiset(EventsOf(b[..j] + b[j + 1..]))
  {
    hide EventOf, EventsOf;
    assert b == b[..j] + ([b[j]] + b[j + 1..]);
    EventsOfSplit(b[..j], [b[j]] + b[j + 1..]);
    EventsOfSplit([b[j]], b[j + 1..]);
    EventsOfSplit(b[..j], b[j + 1..]);
    EventsOfOne(b[j]);
    Middle(EventsOf(b[..j]), EventOf(b[j]), EventsOf(b[j + 1..]));
  }

  lemma EventsOfOne(p: Fields)
    ensures EventsOf([p]) == [EventOf(p)]
  {
  }

  lemma EmptyIffNoMembers<T>(s: seq<T>)
    ensures s == [] <==> forall x :: x !in s
  {
    if s != [] {
      assert s[0] in s;
    }
  }

  lemma Middle<T>(x: seq<T>, y: T, z: seq<T>)
    ensures multiset(x + ([y] + z)) == multiset{y} + multiset(x + z)
  {
  }

  lemma RestIsSame(a: seq<Fields>, b: seq<Fields>, j: nat)
    requires Unique(a) && Unique(b) && (forall p :: p in a <==> p in b)
    requires a != [] && j < |b| && b[j] == a[0]
    ensures var rest := b[..j] + b[j + 1..];
            Unique(a[1..]) && Unique(rest) && forall p :: p in a[1..] <==> p in rest
  {
    var rest := b[..j] + b[j + 1..];
    forall p | p in a[1..] ensures p in rest {
      assert p in b;
      var k :| 0 <= k < |b| && b[k] == p;
      assert k != j;
      assert rest[if k < j then k else k - 1] == p;
    }
    forall p | p in rest ensures p in a[1..] {
      assert p in b && p != b[j];
      var k :| 0 <= k < |a| && a[k] == p;
      assert a[1..][k - 1] == p;
    }
  }

  /** Whatever the order of delivery and however often copies come in, the same
      identities are in quarantine and the same events survive. */
  lemma DeliveryOrderDoesNotMatter(a: seq<Json>, b: seq<Json>)
    requires Prints(a) == Prints(b)
    ensures multiset(EventsOf(Survivors(a, |a|))) == multiset(EventsOf(Survivors(b, |b|)))
    ensures QuarantineSet(Prints(a)) == QuarantineSet(Prints(b))
  {
    hide Survivors, EventsOf, Prints, QuarantineSet;
    SurvivorsAreListed(a);
    SurvivorsAreListed(b);
    SameListSameEvents(Survivors(a, |a|), Survivors(b, |b|));
  }
}
