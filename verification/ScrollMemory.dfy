/** The bounded memory of scroll offsets: a map in insertion order, written in
    place, against the list of last visits to each route. */
module ScrollMemory {
  import opened Tables

  datatype Visit = Visit(route: string, offset: real)

  const MAX_SAVED_ROUTES := 50

  // ------------------------------------------------------------ ordered map

  /** A map in insertion order: one entry per route, oldest first. */
  ghost predicate OneEach(entries: seq<Visit>) {
    forall i, j | 0 <= i < j < |entries| :: entries[i].route != entries[j].route
  }

  predicate Visits(entries: seq<Visit>, route: string) {
    exists i | 0 <= i < |entries| :: entries[i].route == route
  }

  function Delete(entries: seq<Visit>, route: string): (r: seq<Visit>)
    ensures |r| <= |entries|
  {
    if entries == [] then []
    else if entries[0].route == route then Delete(entries[1..], route)
    else [entries[0]] + Delete(entries[1..], route)
  }

  function Get(entries: seq<Visit>, route: string): Option<real> {
    if entries == [] then None
    else if entries[0].route == route then Some(entries[0].offset)
    else Get(entries[1..], route)
  }

  /** One accepted scroll event: re-insert the route, drop the oldest past the limit. */
  function Remember(entries: seq<Visit>, visit: Visit): seq<Visit> {
    var saved := Delete(entries, visit.route) + [visit];
    if |saved| > MAX_SAVED_ROUTES then saved[1..] else saved
  }

  function After(visits: seq<Visit>): seq<Visit> {
    if visits == [] then [] else Remember(After(visits[..|visits| - 1]), visits[|visits| - 1])
  }

  // ------------------------------------------------------ what it should be

  /** The visits not followed by another one to the same route, in order. */
  function LastVisits(visits: seq<Visit>): seq<Visit> {
    if visits == [] then []
    else if Visits(visits[1..], visits[0].route) then LastVisits(visits[1..])
    else [visits[0]] + LastVisits(visits[1..])
  }

  function Newest(entries: seq<Visit>): seq<Visit> {
    if |entries| <= MAX_SAVED_ROUTES then entries else entries[|entries| - MAX_SAVED_ROUTES..]
  }

  lemma {:induction false} LastVisitsAreOneEach(visits: seq<Visit>)
    ensures OneEach(LastVisits(visits))
    ensures forall route :: Visits(LastVisits(visits), route) <==> Visits(visits, route)
  {
    if visits == [] {
    } else {
      var rest := visits[1..];
      LastVisitsAreOneEach(rest);
      assert forall route :: Visits(visits, route) <==> visits[0].route == route || Visits(rest, route) by {
        forall route ensures Visits(visits, route) <==> visits[0].route == route || Visits(rest, route) {
          VisitsCons(visits, route);
        }
      }
      if !Visits(rest, visits[0].route) {
        var last := LastVisits(visits);
        forall route ensures Visits(last, route) <==> last[0].route == route || Visits(last[1..], route) {
          VisitsCons(last, route);
        }
        assert last[1..] == LastVisits(rest);
        forall i, j | 0 <= i < j < |last|
          ensures last[i].route != last[j].route
        {
          assert last[j] == LastVisits(rest)[j - 1];
          if i == 0 { assert !Visits(LastVisits(rest), visits[0].route); }
        }
      }
    }
  }

  lemma VisitsCons(visits: seq<Visit>, route: string)
    requires visits != []
    ensures Visits(visits, route) <==> visits[0].route == route || Visits(visits[1..], route)
  {
    if Visits(visits[1..], route) {
      var i :| 0 <= i < |visits| - 1 && visits[1..][i].route == route;
      assert visits[i + 1].route == route;
    }
    if Visits(visits, route) && visits[0].route != route {
      var i :| 0 <= i < |visits| && visits[i].route == route;
      assert visits[1..][i - 1].route == route;
    }
  }

  // ---------------------------------------------------------------- deletion

  lemma {:induction false} DeleteAbsent(entries: seq<Visit>, route: string)
    requires !Visits(entries, route)
    ensures Delete(entries, route) == entries
  {
    if entries == [] {
    } else {
      VisitsCons(entries, route);
      DeleteAbsent(entries[1..], route);
    }
  }

  lemma {:induction false} DeleteConcat(a: seq<Visit>, b: seq<Visit>, route: string)
    ensures Delete(a + b, route) == Delete(a, route) + Delete(b, route)
  {
    if a == [] {
      assert a + b == b;
    } else {
      assert (a + b)[1..] == a[1..] + b;
      DeleteConcat(a[1..], b, route);
    }
  }

  lemma {:induction false} DeletePresent(entries: seq<Visit>, route: string)
    requires OneEach(entries) && Visits(entries, route)
    ensures |Delete(entries, route)| == |entries| - 1
  {
    if entries[0].route == route {
      assert !Visits(entries[1..], route);
      DeleteAbsent(entries[1..], route);
    } else {
      VisitsCons(entries, route);
      DeletePresent(entries[1..], route);
    }
  }

  /** Visiting a route makes its visit the last of all, and no longer any earlier one. */
  lemma {:induction false} LastVisitsAppend(visits: seq<Visit>, visit: Visit)
    ensures LastVisits(visits + [visit]) == Delete(LastVisits(visits), visit.route) + [visit]
  {
    if visits == [] {
      assert visits + [visit] == [visit];
      assert LastVisits([visit]) == [visit] + LastVisits([]);
    } else {
      var all, rest := visits + [visit], visits[1..];
      assert all[1..] == rest + [visit];
      LastVisitsAppend(rest, visit);
      VisitsAppend(rest, visit, visits[0].route);
      assert Visits(all[1..], visits[0].route) <==> Visits(rest, visits[0].route) || visits[0].route == visit.route;
    }
  }

  lemma VisitsAppend(visits: seq<Visit>, visit: Visit, route: string)
    ensures Visits(visits + [visit], route) <==> Visits(visits, route) || visit.route == route
  {
    if Visits(visits, route) {
      var i :| 0 <= i < |visits| && visits[i].route == route;
      assert (visits + [visit])[i].route == route;
    }
    if visit.route == route { assert (visits + [visit])[|visits|].route == route; }
    if Visits(visits + [visit], route) && visit.route != route {
      var i :| 0 <= i < |visits| + 1 && (visits + [visit])[i].route == route;
      assert visits[i].route == route;
    }
  }

  // ------------------------------------------------------------ main results

  lemma NewestIsBack(front: seq<Visit>, back: seq<Visit>)
    requires |back| <= MAX_SAVED_ROUTES && (front == [] || |back| == MAX_SAVED_ROUTES)
    ensures Newest(front + back) == back
  {
  }

  lemma RememberKept(lost: seq<Visit>, kept: seq<Visit>, visit: Visit)
    requires |kept| <= MAX_SAVED_ROUTES && (lost == [] || |kept| == MAX_SAVED_ROUTES)
    requires Visits(kept, visit.route) && !Visits(lost, visit.route) && OneEach(kept)
    ensures Remember(kept, visit) == Newest(Delete(lost, visit.route) + Delete(kept, visit.route) + [visit])
  {
    var route := visit.route;
    DeleteAbsent(lost, route);
    DeletePresent(kept, route);
    hide Delete, OneEach, Visits, Newest;
    assert lost + Delete(kept, route) + [visit] == lost + (Delete(kept, route) + [visit]);
    NewestIsBack(lost, Delete(kept, route) + [visit]);
  }

  lemma ShiftOne<T>(front: seq<T>, kept: seq<T>, x: T)
    requires kept != []
    ensures front + kept + [x] == (front + [kept[0]]) + (kept + [x])[1..]
  {
    assert kept == [kept[0]] + kept[1..];
    assert (kept + [x])[1..] == kept[1..] + [x];
    assert front + kept == (front + [kept[0]]) + kept[1..];
  }

  lemma RememberNew(lost: seq<Visit>, kept: seq<Visit>, visit: Visit)
    requires |kept| <= MAX_SAVED_ROUTES && (lost == [] || |kept| == MAX_SAVED_ROUTES)
    requires !Visits(kept, visit.route)
    ensures Remember(kept, visit) == Newest(Delete(lost, visit.route) + Delete(kept, visit.route) + [visit])
  {
    var route := visit.route;
    DeleteAbsent(kept, route);
    assert lost == [] ==> Delete(lost, route) == [];
    hide Delete, Visits, Newest;
    var front := Delete(lost, route);
    if |kept| < MAX_SAVED_ROUTES {
      assert front + kept == kept;
      NewestIsBack([], kept + [visit]);
      assert [] + (kept + [visit]) == kept + [visit];
    } else {
      ShiftOne(front, kept, visit);
      NewestIsBack(front + [kept[0]], (kept + [visit])[1..]);
    }
  }

  lemma OneEachSplit(a: seq<Visit>, b: seq<Visit>, route: string)
    requires OneEach(a + b)
    ensures OneEach(b) && (Visits(b, route) ==> !Visits(a, route))
  {
    forall i | 0 <= i < |b|
      ensures (a + b)[|a| + i] == b[i]
    {
    }
    if i :| 0 <= i < |b| && b[i].route == route {
      forall k | 0 <= k < |a|
        ensures a[k].route != route
      {
        assert (a + b)[k] == a[k] && (a + b)[|a| + i] == b[i];
      }
    }
  }

  /** The bounded step on the newest entries is the unbounded one, cut to the newest. */
  lemma RememberIsNewest(entries: seq<Visit>, visit: Visit)
    requires OneEach(entries)
    ensures Remember(Newest(entries), visit) == Newest(Delete(entries, visit.route) + [visit])
  {
    hide OneEach, Visits, Delete, Remember;
    var kept := Newest(entries);
    var lost := entries[..|entries| - |kept|];
    assert lost == [] || |kept| == MAX_SAVED_ROUTES;
    assert entries == lost + kept;
    hide Newest;
    OneEachSplit(lost, kept, visit.route);
    DeleteConcat(lost, kept, visit.route);
    if Visits(kept, visit.route) {
      RememberKept(lost, kept, visit);
    } else {
      RememberNew(lost, kept, visit);
    }
  }

  /** After any accepted scroll events the map holds the last visits to the 50
      most recently scrolled routes, in that order. */
  lemma {:induction false} HoldsTheNewest(visits: seq<Visit>)
    ensures After(visits) == Newest(LastVisits(visits))
    ensures |After(visits)| <= 50 && (|LastVisits(visits)| <= 50 ==> After(visits) == LastVisits(visits))
    ensures |LastVisits(visits)| > 50 ==> After(visits) == LastVisits(visits)[|LastVisits(visits)| - 50..]
  {
    if visits == [] {
    } else {
      var before, visit := visits[..|visits| - 1], visits[|visits| - 1];
      HoldsTheNewest(before);
      LastVisitsAreOneEach(before);
      LastVisitsAppend(before, visit);
      assert before + [visit] == visits;
      RememberIsNewest(LastVisits(before), visit);
    }
  }

  lemma {:induction false} GetFirst(entries: seq<Visit>, i: nat)
    requires i < |entries| && !Visits(entries[..i], entries[i].route)
    ensures Get(entries, entries[i].route) == Some(entries[i].offset)
  {
    if i == 0 {
    } else {
      assert entries[..i][0] == entries[0];
      VisitsCons(entries[..i], entries[i].route);
      assert entries[..i][1..] == entries[1..][..i - 1];
      GetFirst(entries[1..], i - 1);
    }
  }

  lemma {:induction false} GetAbsent(entries: seq<Visit>, route: string)
    requires !Visits(entries, route)
    ensures Get(entries, route) == None
  {
    if entries == [] {
    } else {
      VisitsCons(entries, route);
      GetAbsent(entries[1..], route);
    }
  }

  /** The head, if its route is not visited again. */
  function IfLast(visit: Visit, later: seq<Visit>): seq<Visit> {
    if Visits(later, visit.route) then [] else [visit]
  }

  lemma LastVisitsHead(visits: seq<Visit>)
    requires visits != []
    ensures LastVisits(visits) == IfLast(visits[0], visits[1..]) + LastVisits(visits[1..])
  {
    hide Visits;
  }

  lemma Regroup<T>(a: seq<T>, b: seq<T>, c: seq<T>)
    ensures (a + b) + c == a + (b + c)
  {
  }

  lemma {:induction false} LastVisitsFrom(before: seq<Visit>, later: seq<Visit>) returns (older: seq<Visit>)
    ensures LastVisits(before + later) == older + LastVisits(later)
    decreases |before|
  {
    hide LastVisits, IfLast;
    if before == [] {
      assert before + later == later;
      older := [];
    } else {
      var all := before + later;
      assert all[1..] == before[1..] + later;
      LastVisitsHead(all);
      var rest := LastVisitsFrom(before[1..], later);
      older := IfLast(all[0], all[1..]) + rest;
      Regroup(IfLast(all[0], all[1..]), rest, LastVisits(later));
    }
  }

  lemma GetFromNewest(older: seq<Visit>, visit: Visit, tail: seq<Visit>)
    requires OneEach(older + [visit] + tail)
    ensures Get(Newest(older + [visit] + tail), visit.route) ==
            if |tail| < MAX_SAVED_ROUTES then Some(visit.offset) else None
  {
    var entries := older + [visit] + tail;
    var kept := Newest(entries);
    var lost := |entries| - |kept|;
    assert forall k | 0 <= k < |kept| :: kept[k] == entries[lost + k];
    assert entries[|older|] == visit;
    hide Newest, Get;
    if |tail| < MAX_SAVED_ROUTES {
      assert kept[|older| - lost] == visit;
      GetFirst(kept, |older| - lost);
    } else {
      GetAbsent(kept, visit.route);
    }
  }

  /** A route's latest offset is restored exactly if fewer than 50 other routes
      were scrolled since its last visit. */
  lemma RestoresLatest(before: seq<Visit>, visit: Visit, later: seq<Visit>)
    requires !Visits(later, visit.route)
    ensures Get(After(before + [visit] + later), visit.route) ==
            if |LastVisits(later)| < 50 then Some(visit.offset) else None
  {
    hide After, LastVisits, Newest, OneEach, Visits;
    var visits, last := before + [visit] + later, [visit] + later;
    HoldsTheNewest(visits);
    LastVisitsAreOneEach(visits);
    Regroup(before, [visit], later);
    var older := LastVisitsFrom(before, last);
    assert last[1..] == later && IfLast(visit, later) == [visit];
    LastVisitsHead(last);
    Regroup(older, [visit], LastVisits(later));
    GetFromNewest(older, visit, LastVisits(later));
  }

  lemma NeverVisited(visits: seq<Visit>, route: string)
    requires !Visits(visits, route)
    ensures Get(After(visits), route) == None
  {
    HoldsTheNewest(visits);
    LastVisitsAreOneEach(visits);
    GetAbsent(Newest(LastVisits(visits)), route);
  }

  // ----------------------------------------------------------- as it runs

  class Positions {
    var saved: seq<Visit>
    var activeRoute: string
    var restoring: bool
    ghost var accepted: seq<Visit>

    ghost predicate Valid()
      reads this
    {
      saved == After(accepted)
    }

    constructor (route: string)
      ensures Valid() && accepted == [] && activeRoute == route && !restoring
    {
      saved, activeRoute, restoring, accepted := [], route, false, [];
    }

    /** The scroll listener. */
    method OnScroll(location: string, scrollTop: real)
      requires Valid()
      modifies this`saved, this`accepted
      ensures Valid()
      ensures accepted == old(accepted) + (if restoring || location != activeRoute then [] else [Visit(activeRoute, scrollTop)])
    {
      if restoring || location != activeRoute {
        assert accepted == accepted + [];
        return;
      }
      var visit := Visit(activeRoute, scrollTop);
      saved := Delete(saved, activeRoute);
      saved := saved + [visit];
      if |saved| > MAX_SAVED_ROUTES {
        saved := saved[1..];
      }
      accepted := accepted + [visit];
      assert accepted[..|accepted| - 1] == old(accepted);
    }
  }
}
