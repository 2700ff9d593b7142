/** Contradicting copies, said of the records themselves: which events are
    quarantined, how many, and what is left. */
module DiagnosticConflicts {
  import opened Tables
  import opened DiagnosticRecords
  import opened DiagnosticDeliveries
  import opened DiagnosticFields

  /** Two records that claim to be one event of one owner and differ in what counts. */
  ghost predicate Contradict(a: Json, b: Json) {
    && Valid(a) && Valid(b)
    && var e, f := Normalize(a).value, Normalize(b).value;
       Identified(e) && Identified(f) && e.owner == f.owner && e.id == f.id && !SameContent(a, b)
  }

  function OwnerAndId(record: Json): (string, string)
    requires Valid(record) && Identified(Normalize(record).value)
  {
    (Normalize(record).value.owner.value, Normalize(record).value.id.value)
  }

  /** Owner and id of every event that was delivered with two contents. */
  ghost function Contradicted(records: seq<Json>): set<(string, string)> {
    set a, b | a in records && b in records && Contradict(a, b) :: OwnerAndId(a)
  }

  ghost predicate Undisputed(records: seq<Json>, a: Json) {
    forall b | b in records :: !Contradict(a, b)
  }

  /** An event that some record brings and none contradicts. */
  ghost predicate Listed(records: seq<Json>, e: Event) {
    exists a | a in records :: Normalize(a) == Some(e) && Undisputed(records, a)
  }

  lemma OwnedIdentity(a: Json)
    requires Valid(a)
    ensures IdentityOf(a.fields) == IdentityOf(PrintOf(a)) && EventOf(PrintOf(a)) == Normalize(a).value
    ensures if Identified(Normalize(a).value) then IdentityOf(a.fields) == Owned(OwnerAndId(a).0, OwnerAndId(a).1)
            else IdentityOf(a.fields).Exact?
  {
    FingerprintDecides(a.fields);
    hide Identifier, KindNamed, Number, Timestamp, LabelOf, Position, Fingerprint;
  }

  lemma DeliveredAs(records: seq<Json>, p: Fields)
    ensures p in Prints(records) <==> exists a :: a in records && Valid(a) && PrintOf(a) == p
  {
    hide Valid, PrintOf;
  }

  /** Two records contradict each other exactly if they have one identity and two contents. */
  lemma ContradictMeans(a: Json, b: Json)
    requires Valid(a) && Valid(b)
    ensures Contradict(a, b) <==> IdentityOf(a.fields) == IdentityOf(b.fields) && PrintOf(a) != PrintOf(b)
  {
    IdentityMeans(a, b);
    FingerprintMeans(a, b);
    hide Valid, Normalize, IdentityOf, PrintOf, SameContent;
  }

  /** The quarantine is of the contradicted owners and ids. */
  lemma QuarantineMeans(records: seq<Json>, i: Identity)
    ensures Quarantined(Prints(records), i) <==> i.Owned? && (i.owner, i.id) in Contradicted(records)
  {
    hide Valid, Normalize, IdentityOf, PrintOf, SameContent, OwnerAndId, Identified;
    if Quarantined(Prints(records), i) {
      var p, q :| p in Prints(records) && q in Prints(records) && p != q && IdentityOf(p) == i && IdentityOf(q) == i;
      DeliveredAs(records, p);
      DeliveredAs(records, q);
      var a :| a in records && Valid(a) && PrintOf(a) == p;
      var b :| b in records && Valid(b) && PrintOf(b) == q;
      ContradictedBy(records, a, b);
    }
    if i.Owned? && (i.owner, i.id) in Contradicted(records) {
      var a, b :| a in records && b in records && Contradict(a, b) && OwnerAndId(a) == (i.owner, i.id);
      ContradictedBy(records, a, b);
      DeliveredAs(records, PrintOf(a));
      DeliveredAs(records, PrintOf(b));
    }
  }

  lemma ContradictedBy(records: seq<Json>, a: Json, b: Json)
    requires a in records && b in records && Valid(a) && Valid(b)
    ensures IdentityOf(PrintOf(a)) == IdentityOf(PrintOf(b)) && PrintOf(a) != PrintOf(b) ==> Contradict(a, b)
    ensures Contradict(a, b) ==>
              && PrintOf(a) != PrintOf(b) && OwnerAndId(a) in Contradicted(records)
              && IdentityOf(PrintOf(a)) == IdentityOf(PrintOf(b)) == Owned(OwnerAndId(a).0, OwnerAndId(a).1)
  {
    ContradictMeans(a, b);
    OwnedIdentity(a);
    OwnedIdentity(b);
    hide Valid, Normalize, IdentityOf, PrintOf, SameContent;
  }

  // ----------------------------------------------------------- how many they are

  lemma {:induction false} OwnedCount(pairs: set<(string, string)>)
    ensures |set c | c in pairs :: Owned(c.0, c.1)| == |pairs|
    decreases |pairs|
  {
    var owned := set c | c in pairs :: Owned(c.0, c.1);
    if pairs == {} {
      assert owned == {};
    } else {
      var c :| c in pairs;
      var rest := pairs - {c};
      OwnedCount(rest);
      assert owned == (set d | d in rest :: Owned(d.0, d.1)) + {Owned(c.0, c.1)};
    }
  }

  /** As many events are in quarantine as owners and ids are contradicted. */
  lemma QuarantineCount(records: seq<Json>)
    ensures |QuarantineSet(Prints(records))| == |Contradicted(records)|
  {
    hide Prints, Quarantined, Contradicted, QuarantineSet;
    var pairs := Contradicted(records);
    QuarantineSetMeans(Prints(records));
    forall i ensures i in QuarantineSet(Prints(records)) <==> i in set c | c in pairs :: Owned(c.0, c.1) {
      QuarantineMeans(records, i);
      if i.Owned? && (i.owner, i.id) in pairs { assert Owned((i.owner, i.id).0, (i.owner, i.id).1) == i; }
    }
    assert QuarantineSet(Prints(records)) == set c | c in pairs :: Owned(c.0, c.1);
    OwnedCount(pairs);
  }

  // ------------------------------------------------------------------ what is left

  /** A record is in doubt exactly if its identity is in quarantine. */
  lemma UndisputedMeans(records: seq<Json>, a: Json)
    requires a in records && Valid(a)
    ensures Undisputed(records, a) <==> !Quarantined(Prints(records), IdentityOf(PrintOf(a)))
  {
    hide Valid, Normalize, IdentityOf, PrintOf, Contradict, Identified;
    var i := IdentityOf(PrintOf(a));
    DeliveredAs(records, PrintOf(a));
    if Quarantined(Prints(records), i) {
      var p :| p in Prints(records) && p != PrintOf(a) && IdentityOf(p) == i;
      DeliveredAs(records, p);
      var b :| b in records && Valid(b) && PrintOf(b) == p;
      ContradictedBy(records, a, b);
    }
    if b :| b in records && Contradict(a, b) {
      assert Valid(b) by { ContradictingIsValid(a, b); }
      ContradictedBy(records, a, b);
      DeliveredAs(records, PrintOf(b));
    }
  }

  lemma ContradictingIsValid(a: Json, b: Json)
    requires Contradict(a, b)
    ensures Valid(b)
  {
  }

  lemma {:induction false} EventsOfMembers(prints: seq<Fields>, e: Event)
    ensures e in EventsOf(prints) <==> exists p | p in prints :: EventOf(p) == e
  {
    hide EventOf;
    if prints == [] {
    } else {
      EventsOfMembers(prints[1..], e);
      assert prints == [prints[0]] + prints[1..];
    }
  }

  /** What survives is what some record brings and no record contradicts. */
  lemma SurvivorsAreListedEvents(records: seq<Json>, e: Event)
    ensures e in EventsOf(Survivors(records, |records|)) <==> Listed(records, e)
  {
    hide Normalize, IdentityOf, PrintOf, EventOf, EventsOf, Survivors, Prints, Quarantined, Undisputed;
    var kept := Survivors(records, |records|);
    SurvivorsAreListed(records);
    EventsOfMembers(kept, e);
    if e in EventsOf(kept) {
      var p :| p in kept && EventOf(p) == e;
      DeliveredAs(records, p);
      var a :| a in records && Valid(a) && PrintOf(a) == p;
      OwnedIdentity(a);
      UndisputedMeans(records, a);
    }
    if Listed(records, e) {
      var a :| a in records && Normalize(a) == Some(e) && Undisputed(records, a);
      OwnedIdentity(a);
      UndisputedMeans(records, a);
      DeliveredAs(records, PrintOf(a));
      assert PrintOf(a) in kept;
    }
  }

  /** So of an owner and id that come with two contents nothing is left at all. */
  lemma NothingLeftInDoubt(records: seq<Json>, a: Json, b: Json)
    requires a in records && b in records && Contradict(a, b)
    ensures Contradicted(records) != {}
    ensures forall e | e in EventsOf(Survivors(records, |records|)) ::
              !(e.owner == Normalize(a).value.owner && e.id == Normalize(a).value.id)
  {
    hide NormalizeFields, EventsOf, Survivors, SameContent, Prints, PrintOf;
    assert OwnerAndId(a) in Contradicted(records);
    forall e | e in EventsOf(Survivors(records, |records|)) && e.owner == Normalize(a).value.owner && e.id == Normalize(a).value.id
      ensures false
    {
      SurvivorsAreListedEvents(records, e);
      var c :| c in records && Normalize(c) == Some(e) && Undisputed(records, c);
      assert !Contradict(c, a) && !Contradict(c, b);
      ContradictMeans(c, a);
      ContradictMeans(c, b);
      ContradictMeans(a, b);
      IdentityMeans(c, a);
      IdentityMeans(c, b);
    }
  }
}
