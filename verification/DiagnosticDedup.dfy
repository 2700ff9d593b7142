/** Deduplication with quarantine: one pass over the records in delivery order,
    against what was delivered. */
module DiagnosticDedup {
  import opened Tables
  import opened DiagnosticRecords
  import opened DiagnosticDeliveries
  import opened DiagnosticConflicts

  datatype Entry = Entry(mark: Fields, event: Event)

  /** `[value[1] for key, value in seen.items() if key not in conflicts]` */
  function Available(order: seq<Identity>, seen: map<Identity, Entry>, conflicts: set<Identity>): seq<Event>
    requires forall i | i in order :: i in seen
  {
    if order == [] then []
    else (if order[0] in conflicts then [] else [seen[order[0]].event]) + Available(order[1..], seen, conflicts)
  }

  function Kept(order: seq<Identity>, seen: map<Identity, Entry>, conflicts: set<Identity>): seq<Fields>
    requires forall i | i in order :: i in seen
  {
    if order == [] then []
    else (if order[0] in conflicts then [] else [seen[order[0]].mark]) + Kept(order[1..], seen, conflicts)
  }

  ghost predicate SeenOk(prints: set<Fields>, order: seq<Identity>, seen: map<Identity, Entry>, conflicts: set<Identity>) {
    && Unique(order) && (forall i :: i in order <==> i in seen)
    && (forall p | p in prints :: IdentityOf(p) in seen)
    && (forall i | i in seen :: seen[i].mark in prints && IdentityOf(seen[i].mark) == i && seen[i].event == EventOf(seen[i].mark))
    && (forall p | p in prints && p != seen[IdentityOf(p)].mark :: IdentityOf(p) in conflicts)
    && (forall i | i in conflicts :: Quarantined(prints, i))
  }

  lemma ConflictsAreQuarantined(prints: set<Fields>, order: seq<Identity>, seen: map<Identity, Entry>, conflicts: set<Identity>)
    requires SeenOk(prints, order, seen, conflicts)
    ensures forall i :: i in conflicts <==> Quarantined(prints, i)
  {
    hide NormalizeFields, Fingerprint, IdentityOf, EventOf;
    forall i | Quarantined(prints, i) ensures i in conflicts {
      var p, q :| p in prints && q in prints && p != q && IdentityOf(p) == i && IdentityOf(q) == i;
      assert p != seen[i].mark || q != seen[i].mark;
    }
  }

  lemma {:induction false} KeptEvents(order: seq<Identity>, seen: map<Identity, Entry>, conflicts: set<Identity>)
    requires forall i | i in order :: i in seen && seen[i].event == EventOf(seen[i].mark)
    ensures Available(order, seen, conflicts) == EventsOf(Kept(order, seen, conflicts))
    decreases |order|
  {
    hide NormalizeFields, Fingerprint, IdentityOf, EventOf;
    if order == [] {
    } else {
      KeptEvents(order[1..], seen, conflicts);
      var rest := Kept(order[1..], seen, conflicts);
      if order[0] !in conflicts {
        assert ([seen[order[0]].mark] + rest)[1..] == rest;
      } else {
        assert [] + rest == rest;
      }
    }
  }

  ghost function Held(order: seq<Identity>, conflicts: set<Identity>): set<Identity> {
    set i | i in order && i in conflicts
  }

  lemma HeldNext(order: seq<Identity>, conflicts: set<Identity>)
    requires order != [] && Unique(order)
    ensures Unique(order[1..]) && order[0] !in Held(order[1..], conflicts)
    ensures Held(order, conflicts) ==
            if order[0] in conflicts then Held(order[1..], conflicts) + {order[0]} else Held(order[1..], conflicts)
  {
    assert order == [order[0]] + order[1..];
  }

  /** Every first delivery is either listed or in quarantine. */
  lemma {:induction false} KeptCount(order: seq<Identity>, seen: map<Identity, Entry>, conflicts: set<Identity>)
    requires Unique(order) && forall i | i in order :: i in seen
    ensures |Available(order, seen, conflicts)| + |Held(order, conflicts)| == |order|
    decreases |order|
  {
    if order == [] {
      assert Held(order, conflicts) == {};
    } else {
      HeldNext(order, conflicts);
      hide Held, Unique;
      KeptCount(order[1..], seen, conflicts);
    }
  }

  lemma QuarantineGrows(prints: set<Fields>, mark: Fields, i: Identity)
    requires Quarantined(prints, i)
    ensures Quarantined(prints + {mark}, i)
  {
    var p, q :| p in prints && q in prints && p != q && IdentityOf(p) == i && IdentityOf(q) == i;
    assert p in prints + {mark} && q in prints + {mark};
  }

  lemma Mismatch(prints: set<Fields>, order: seq<Identity>, seen: map<Identity, Entry>, conflicts: set<Identity>, mark: Fields)
    requires SeenOk(prints, order, seen, conflicts)
    requires IdentityOf(mark) in seen && mark != seen[IdentityOf(mark)].mark
    ensures SeenOk(prints + {mark}, order, seen, conflicts + {IdentityOf(mark)})
  {
    hide NormalizeFields, Fingerprint, IdentityOf, EventOf;
    var prints', i := prints + {mark}, IdentityOf(mark);
    assert Quarantined(prints', i) by {
      assert seen[i].mark in prints' && mark in prints';
    }
    forall j | j in conflicts ensures Quarantined(prints', j) {
      QuarantineGrows(prints, mark, j);
    }
  }

  lemma FirstSeen(prints: set<Fields>, order: seq<Identity>, seen: map<Identity, Entry>, conflicts: set<Identity>, mark: Fields)
    requires SeenOk(prints, order, seen, conflicts) && IdentityOf(mark) !in seen
    ensures SeenOk(prints + {mark}, order + [IdentityOf(mark)], seen[IdentityOf(mark) := Entry(mark, EventOf(mark))], conflicts)
  {
    hide NormalizeFields, Fingerprint, IdentityOf, EventOf;
    forall j | j in conflicts ensures Quarantined(prints + {mark}, j) {
      QuarantineGrows(prints, mark, j);
    }
    forall p | p in prints + {mark} && p != mark ensures IdentityOf(p) != IdentityOf(mark) {
    }
  }

  lemma NextRecord(records: seq<Json>, k: nat)
    requires k < |records|
    ensures !Valid(records[k]) ==> Prints(records[..k + 1]) == Prints(records[..k])
    ensures Valid(records[k]) ==>
              Prints(records[..k + 1]) == Prints(records[..k]) + {PrintOf(records[k])}
              && EventOf(PrintOf(records[k])) == Normalize(records[k]).value
              && IdentityOf(PrintOf(records[k])) == IdentityOf(records[k].fields)
  {
    hide NormalizeFields, Fingerprint, IdentityOf;
    assert records[..k + 1] == records[..k] + [records[k]];
    if Valid(records[k]) {
      FingerprintDecides(records[k].fields);
    }
  }

  lemma QuarantinedAreSeen(prints: set<Fields>, order: seq<Identity>, seen: map<Identity, Entry>, conflicts: set<Identity>)
    requires SeenOk(prints, order, seen, conflicts)
    ensures forall i | i in conflicts :: i in order
  {
    hide NormalizeFields, Fingerprint, IdentityOf, EventOf;
    forall i | i in conflicts ensures i in order {
      var p, q :| p in prints && q in prints && p != q && IdentityOf(p) == i && IdentityOf(q) == i;
    }
  }

  /** What the tables say at the end of the pass. */
  lemma PassEnds(prints: set<Fields>, order: seq<Identity>, seen: map<Identity, Entry>, conflicts: set<Identity>)
    requires SeenOk(prints, order, seen, conflicts)
    ensures forall i | i in order :: i in seen
    ensures Available(order, seen, conflicts) == EventsOf(Kept(order, seen, conflicts))
    ensures |Available(order, seen, conflicts)| + |conflicts| == |order|
    ensures conflicts == QuarantineSet(prints)
  {
    hide SeenOk, NormalizeFields, Fingerprint, IdentityOf, EventOf, EventsOf, Available, Kept, Quarantined, QuarantineSet, Unique;
    SeenMeans(prints, order, seen, conflicts);
    ConflictsAreQuarantined(prints, order, seen, conflicts);
    QuarantinedAreSeen(prints, order, seen, conflicts);
    KeptEvents(order, seen, conflicts);
    KeptCount(order, seen, conflicts);
    assert Held(order, conflicts) == conflicts;
    QuarantineSetMeans(prints);
  }

  lemma SeenMeans(prints: set<Fields>, order: seq<Identity>, seen: map<Identity, Entry>, conflicts: set<Identity>)
    requires SeenOk(prints, order, seen, conflicts)
    ensures Unique(order) && forall i | i in order :: i in seen && seen[i].event == EventOf(seen[i].mark)
  {
    hide NormalizeFields, Fingerprint, IdentityOf, EventOf, Quarantined, Unique;
  }

  lemma Repeated(prints: set<Fields>, order: seq<Identity>, seen: map<Identity, Entry>, conflicts: set<Identity>, i: Identity)
    requires SeenOk(prints, order, seen, conflicts) && i in seen
    ensures prints + {seen[i].mark} == prints
  {
    hide NormalizeFields, Fingerprint, IdentityOf, EventOf;
  }

  // ---------------------------------------------- the pass, record by record

  /** The identities delivered, in order of first delivery. */
  function Arrivals(records: seq<Json>, n: nat): seq<Identity>
    requires n <= |records|
  {
    if n == 0 then []
    else Arrivals(records, n - 1) + if IsFirst(records, n - 1) then [IdentityOf(records[n - 1].fields)] else []
  }

  /** `seen` remembers the first delivery of each identity among the first n records. */
  ghost predicate Remembers(records: seq<Json>, n: nat, seen: map<Identity, Entry>)
    requires n <= |records|
  {
    forall i :: (i in seen <==> First(records, i) < n)
                && (i in seen ==> seen[i].mark == PrintOf(records[First(records, i)]))
  }

  ghost predicate Tallied(records: seq<Json>, n: nat, rejected: nat, firsts: nat, duplicates: nat, mismatches: nat)
    requires n <= |records|
  {
    && rejected == |Rejected(records, n)| && firsts == |Firsts(records, n)|
    && duplicates == |Duplicates(records, n)| && mismatches == |Mismatches(records, n)|
  }

  /** What the n-th record is can be read off what is remembered. */
  lemma NextKind(records: seq<Json>, n: nat, seen: map<Identity, Entry>)
    requires n < |records| && Remembers(records, n, seen) && Valid(records[n])
    ensures var i := IdentityOf(records[n].fields);
            && (IsFirst(records, n) <==> i !in seen)
            && (IsDuplicate(records, n) <==> i in seen && seen[i].mark == PrintOf(records[n]))
            && (IsMismatch(records, n) <==> i in seen && seen[i].mark != PrintOf(records[n]))
  {
    hide NormalizeFields, Fingerprint, IdentityOf;
    assert Brings(records[n], IdentityOf(records[n].fields));
  }

  lemma RemembersNext(records: seq<Json>, n: nat, seen: map<Identity, Entry>, entry: Entry)
    requires n < |records| && Remembers(records, n, seen)
    ensures !(Valid(records[n]) && IsFirst(records, n)) ==> Remembers(records, n + 1, seen)
    ensures Valid(records[n]) && IsFirst(records, n) && entry.mark == PrintOf(records[n]) ==>
              Remembers(records, n + 1, seen[IdentityOf(records[n].fields) := entry])
  {
    hide NormalizeFields, Fingerprint, IdentityOf;
    forall i ensures First(records, i) == n ==> IsFirst(records, n) && IdentityOf(records[n].fields) == i {
    }
  }

  lemma OneMore(s: set<nat>, n: nat, more: bool)
    requires n !in s
    ensures |if more then s + {n} else s| == |s| + if more then 1 else 0
  {
  }

  lemma NextSets(records: seq<Json>, n: nat)
    requires n < |records|
    ensures Rejected(records, n + 1) == if !Valid(records[n]) then Rejected(records, n) + {n} else Rejected(records, n)
    ensures Firsts(records, n + 1) == if IsFirst(records, n) then Firsts(records, n) + {n} else Firsts(records, n)
    ensures Duplicates(records, n + 1) == if IsDuplicate(records, n) then Duplicates(records, n) + {n} else Duplicates(records, n)
    ensures Mismatches(records, n + 1) == if IsMismatch(records, n) then Mismatches(records, n) + {n} else Mismatches(records, n)
    ensures n !in Rejected(records, n) && n !in Firsts(records, n) && n !in Duplicates(records, n) && n !in Mismatches(records, n)
  {
    hide Valid, IsFirst, IsDuplicate, IsMismatch;
  }

  lemma TalliedNext(records: seq<Json>, n: nat, rejected: nat, firsts: nat, duplicates: nat, mismatches: nat)
    requires n < |records|
    ensures Tallied(records, n, rejected, firsts, duplicates, mismatches) ==>
            Tallied(records, n + 1,
                    rejected + (if !Valid(records[n]) then 1 else 0), firsts + (if IsFirst(records, n) then 1 else 0),
                    duplicates + (if IsDuplicate(records, n) then 1 else 0), mismatches + (if IsMismatch(records, n) then 1 else 0))
  {
    hide Valid, IsFirst, IsDuplicate, IsMismatch, Rejected, Firsts, Duplicates, Mismatches;
    NextSets(records, n);
    OneMore(Rejected(records, n), n, !Valid(records[n]));
    OneMore(Firsts(records, n), n, IsFirst(records, n));
    OneMore(Duplicates(records, n), n, IsDuplicate(records, n));
    OneMore(Mismatches(records, n), n, IsMismatch(records, n));
  }

  lemma {:induction false} KeptAppend(order: seq<Identity>, i: Identity, seen: map<Identity, Entry>, conflicts: set<Identity>)
    requires i in seen && forall j | j in order :: j in seen
    ensures Kept(order + [i], seen, conflicts) == Kept(order, seen, conflicts) + if i in conflicts then [] else [seen[i].mark]
    decreases |order|
  {
    if order == [] {
      assert [] + [i] == [i];
    } else {
      assert (order + [i])[1..] == order[1..] + [i];
      KeptAppend(order[1..], i, seen, conflicts);
      Joined(if order[0] in conflicts then [] else [seen[order[0]].mark], Kept(order[1..], seen, conflicts),
             if i in conflicts then [] else [seen[i].mark]);
    }
  }

  lemma Joined<T>(a: seq<T>, b: seq<T>, c: seq<T>)
    ensures a + (b + c) == (a + b) + c
  {
  }

  /** Listing the remembered marks in order of arrival lists the survivors. */
  lemma {:induction false} KeptAreSurvivors(records: seq<Json>, n: nat, seen: map<Identity, Entry>, conflicts: set<Identity>)
    requires n <= |records| && Remembers(records, |records|, seen)
    requires forall i :: i in conflicts <==> Quarantined(Prints(records), i)
    ensures forall i | i in Arrivals(records, n) :: i in seen
    ensures Kept(Arrivals(records, n), seen, conflicts) == Survivors(records, n)
  {
    hide NormalizeFields, Fingerprint, IdentityOf, Quarantined, Prints, First, Kept;
    if n == 0 {
      assert Kept([], seen, conflicts) == [] by { KeptNothing(seen, conflicts); }
    } else {
      KeptAreSurvivors(records, n - 1, seen, conflicts);
      NextArrival(records, n - 1);
      hide Arrivals;
      if IsFirst(records, n - 1) {
        KeptAppend(Arrivals(records, n - 1), IdentityOf(records[n - 1].fields), seen, conflicts);
      }
    }
  }

  lemma KeptNothing(seen: map<Identity, Entry>, conflicts: set<Identity>)
    ensures Kept([], seen, conflicts) == []
  {
  }

  lemma NothingTallied(records: seq<Json>)
    ensures Tallied(records, 0, 0, 0, 0, 0) && Remembers(records, 0, map[]) && Arrivals(records, 0) == []
  {
    assert Rejected(records, 0) == {} && Firsts(records, 0) == {} && Duplicates(records, 0) == {} && Mismatches(records, 0) == {};
  }

  /** One pass, in delivery order. */
  method Deduplicate(records: seq<Json>)
    returns (available: seq<Event>, rejected: nat, duplicates: nat, conflicting: nat)
    ensures available == EventsOf(Survivors(records, |records|))
    ensures rejected == |Rejected(records, |records|)|
    ensures duplicates == |Duplicates(records, |records|)|
    ensures conflicting == |QuarantineSet(Prints(records))| == |Contradicted(records)|
    ensures forall e :: e in available <==> Listed(records, e)
    ensures conflicting == 0 <==> Mismatches(records, |records|) == {}
    ensures |available| + conflicting == |Firsts(records, |records|)|
    ensures rejected + |available| + conflicting + duplicates + |Mismatches(records, |records|)| == |records|
  {
    hide SeenOk, NormalizeFields, Fingerprint, IdentityOf, Prints, Quarantined, EventOf, EventsOf, QuarantineSet;
    hide Tallied, Remembers, Survivors, Arrivals, IsFirst, IsDuplicate, IsMismatch, Kept, Available, Contradicted, Listed;
    rejected, duplicates := 0, 0;
    ghost var firsts: nat, mismatches: nat := 0, 0;
    var order: seq<Identity>, seen: map<Identity, Entry>, conflicts: set<Identity> := [], map[], {};
    PassStarts();
    NothingTallied(records);
    assert records[..0] == [];
    var k := 0;
    while k < |records|
      invariant 0 <= k <= |records| && rejected + firsts + duplicates + mismatches == k
      invariant firsts == |order| && (conflicts == {} <==> mismatches == 0)
      invariant SeenOk(Prints(records[..k]), order, seen, conflicts)
      invariant order == Arrivals(records, k) && Remembers(records, k, seen)
      invariant Tallied(records, k, rejected, firsts, duplicates, mismatches)
    {
      var record := records[k];
      NextRecord(records, k);
      NextArrival(records, k);
      TalliedNext(records, k, rejected, firsts, duplicates, mismatches);
      ghost var prints := Prints(records[..k]);
      var normalized := Normalize(record);
      if normalized.None? {
        RemembersNext(records, k, seen, Entry(map[], EventOf(map[])));
        rejected := rejected + 1;
      } else {
        var mark := Fingerprint(record.fields);
        var identity := IdentityOf(record.fields);
        NextKind(records, k, seen);
        RemembersNext(records, k, seen, Entry(mark, normalized.value));
        if identity in seen {
          if mark == seen[identity].mark {
            Repeated(prints, order, seen, conflicts, identity);
            duplicates := duplicates + 1;
          } else {
            Mismatch(prints, order, seen, conflicts, mark);
            conflicts := conflicts + {identity};
            mismatches := mismatches + 1;
          }
        } else {
          FirstSeen(prints, order, seen, conflicts, mark);
          seen := seen[identity := Entry(mark, normalized.value)];
          order := order + [identity];
          firsts := firsts + 1;
        }
      }
      k := k + 1;
    }
    assert records[..k] == records;
    PassEnds(Prints(records), order, seen, conflicts);
    TalliedMeans(records, rejected, firsts, duplicates, mismatches);
    QuarantineSetMeans(Prints(records));
    QuarantineCount(records);
    forall e ensures e in EventsOf(Survivors(records, |records|)) <==> Listed(records, e) {
      SurvivorsAreListedEvents(records, e);
    }
    KeptAreSurvivors(records, |records|, seen, conflicts);
    conflicting := |conflicts|;
    available := Available(order, seen, conflicts);
  }

  lemma NextArrival(records: seq<Json>, n: nat)
    requires n < |records|
    ensures !Valid(records[n]) ==> !IsFirst(records, n) && !IsDuplicate(records, n) && !IsMismatch(records, n)
    ensures Arrivals(records, n + 1) == if IsFirst(records, n) then Arrivals(records, n) + [IdentityOf(records[n].fields)] else Arrivals(records, n)
  {
  }

  lemma TalliedMeans(records: seq<Json>, rejected: nat, firsts: nat, duplicates: nat, mismatches: nat)
    ensures Tallied(records, |records|, rejected, firsts, duplicates, mismatches) ==>
              && rejected == |Rejected(records, |records|)| && firsts == |Firsts(records, |records|)|
              && duplicates == |Duplicates(records, |records|)| && mismatches == |Mismatches(records, |records|)|
              && (mismatches == 0 <==> Mismatches(records, |records|) == {})
  {
  }

  lemma PassStarts()
    ensures SeenOk(Prints([]), [], map[], {})
  {
  }
}
