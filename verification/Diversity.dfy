/** The diversity metrics of a playlist, over the reals, and how a run is judged by them. */
module Diversity {
  import opened Tables

  const ARTIST_CAP: nat := 2

  datatype Metrics = Metrics(
    playlistSize: nat, uniqueArtists: nat, maxTracksPerArtist: nat,
    maxArtistShare: real, uniqueArtistRatio: real, hhi: real, capViolations: nat)

  // ------------------------------------------------------------------- sums

  ghost function Sum(counts: seq<nat>): nat {
    if counts == [] then 0 else counts[0] + Sum(counts[1..])
  }

  ghost function SumOfSquares(counts: seq<nat>): nat {
    if counts == [] then 0 else counts[0] * counts[0] + SumOfSquares(counts[1..])
  }

  ghost predicate AllUpTo(counts: seq<nat>, most: nat) {
    forall i | 0 <= i < |counts| :: counts[i] <= most
  }

  lemma {:induction false} SumAppend(counts: seq<nat>, c: nat)
    ensures Sum(counts + [c]) == Sum(counts) + c
    ensures SumOfSquares(counts + [c]) == SumOfSquares(counts) + c * c
  {
    if counts == [] {
      assert counts + [c] == [c];
    } else {
      assert (counts + [c])[1..] == counts[1..] + [c];
      SumAppend(counts[1..], c);
    }
  }

  lemma {:induction false} SumUpdate(counts: seq<nat>, i: nat, c: nat)
    requires i < |counts|
    ensures Sum(counts[i := c]) == Sum(counts) - counts[i] + c
  {
    if i == 0 {
      assert counts[i := c][1..] == counts[1..];
    } else {
      assert counts[i := c][1..] == counts[1..][i - 1 := c];
      SumUpdate(counts[1..], i - 1, c);
    }
  }

  lemma TwiceProduct(c: nat, x: nat)
    ensures 2 * c * x <= c * c + x * x
  {
    assert (c - x) * (c - x) >= 0;
    assert (c - x) * (c - x) == c * c - 2 * c * x + x * x;
  }

  lemma Distribute(a: int, b: int, x: int)
    ensures (a + b) * x == a * x + b * x
  {
  }

  lemma {:induction false} CrossTerm(counts: seq<nat>, x: nat)
    ensures 2 * Sum(counts) * x <= SumOfSquares(counts) + |counts| * (x * x)
  {
    if counts == [] {
    } else {
      CrossTerm(counts[1..], x);
      TwiceProduct(counts[0], x);
      Distribute(2 * counts[0], 2 * Sum(counts[1..]), x);
      Distribute(1, |counts| - 1, x * x);
    }
  }

  lemma SquareOfSum(s: nat, x: nat, q: nat, k: nat)
    requires s * s <= k * q && 2 * s * x <= q + k * (x * x)
    ensures (s + x) * (s + x) <= (k + 1) * (q + x * x)
  {
    assert (s + x) * (s + x) == s * s + 2 * s * x + x * x;
    assert (k + 1) * (q + x * x) == k * q + k * (x * x) + q + x * x;
  }

  /** The Cauchy-Schwarz inequality for the counts. */
  lemma {:induction false} CauchySchwarz(counts: seq<nat>)
    ensures Sum(counts) * Sum(counts) <= |counts| * SumOfSquares(counts)
  {
    if counts == [] {
    } else {
      var rest := counts[1..];
      CauchySchwarz(rest);
      CrossTerm(rest, counts[0]);
      SquareOfSum(Sum(rest), counts[0], SumOfSquares(rest), |rest|);
    }
  }

  lemma TimesUpTo(c: nat, most: nat)
    requires c <= most
    ensures c * c <= c * most
  {
  }

  lemma {:induction false} SquaresUpTo(counts: seq<nat>, most: nat)
    requires AllUpTo(counts, most)
    ensures SumOfSquares(counts) <= Sum(counts) * most
  {
    if counts == [] {
    } else {
      assert AllUpTo(counts[1..], most);
      SquaresUpTo(counts[1..], most);
      TimesUpTo(counts[0], most);
      Distribute(counts[0], Sum(counts[1..]), most);
    }
  }

  lemma {:induction false} SumAtLeast(counts: seq<nat>, i: nat)
    requires i < |counts|
    ensures counts[i] <= Sum(counts)
  {
    if i == 0 {
    } else {
      SumAtLeast(counts[1..], i - 1);
    }
  }

  // -------------------------------------------------------------- counting

  ghost predicate Distinct(order: seq<string>) {
    forall i, j | 0 <= i < j < |order| :: order[i] != order[j]
  }

  /** The counts of the artists of `order`. */
  function Values(order: seq<string>, counts: map<string, nat>): (r: seq<nat>)
    requires forall i | 0 <= i < |order| :: order[i] in counts
    ensures |r| == |order| && forall i | 0 <= i < |order| :: r[i] == counts[order[i]]
  {
    seq(|order|, i requires 0 <= i < |order| => counts[order[i]])
  }

  /** `counts` has each artist of `artists` with its number of tracks. */
  ghost predicate Tallies(artists: seq<string>, counts: map<string, nat>) {
    && (forall a :: a in counts <==> a in artists)
    && (forall a | a in counts :: counts[a] == multiset(artists)[a])
  }

  /** `order` lists the artists of `counts`, each once. */
  ghost predicate Lists(order: seq<string>, counts: map<string, nat>) {
    Distinct(order) && forall a :: a in counts <==> a in order
  }

  ghost predicate Counts(artists: seq<string>, order: seq<string>, counts: map<string, nat>) {
    Tallies(artists, counts) && Lists(order, counts) && Sum(Values(order, counts)) == |artists|
  }

  lemma TalliesNext(artists: seq<string>, counts: map<string, nat>, artist: string)
    requires Tallies(artists, counts)
    ensures Tallies(artists + [artist], counts[artist := (if artist in counts then counts[artist] else 0) + 1])
  {
    assert multiset(artists + [artist]) == multiset(artists) + multiset{artist};
    if artist !in counts { assert multiset(artists)[artist] == 0; }
  }

  lemma SumKnown(order: seq<string>, counts: map<string, nat>, i: nat, c: nat)
    requires Lists(order, counts) && i < |order|
    ensures Lists(order, counts[order[i] := c])
    ensures Sum(Values(order, counts[order[i] := c])) == Sum(Values(order, counts)) - counts[order[i]] + c
  {
    var values, values' := Values(order, counts), Values(order, counts[order[i] := c]);
    assert values' == values[i := c];
    hide Sum, Lists, Values;
    SumUpdate(values, i, c);
  }

  lemma SumNew(order: seq<string>, counts: map<string, nat>, artist: string, c: nat)
    requires Lists(order, counts) && artist !in counts
    ensures Lists(order + [artist], counts[artist := c])
    ensures Sum(Values(order + [artist], counts[artist := c])) == Sum(Values(order, counts)) + c
  {
    var values, values' := Values(order, counts), Values(order + [artist], counts[artist := c]);
    assert values' == values + [c];
    hide Sum, Lists, Values;
    SumAppend(values, c);
  }

  lemma CountsNext(artists: seq<string>, order: seq<string>, counts: map<string, nat>, artist: string)
    requires Counts(artists, order, counts)
    ensures var c := (if artist in counts then counts[artist] else 0) + 1;
            Counts(artists + [artist], if artist in counts then order else order + [artist], counts[artist := c])
  {
    TalliesNext(artists, counts, artist);
    hide Tallies, Distinct, Values, Sum;
    if artist in counts {
      var i :| 0 <= i < |order| && order[i] == artist;
      SumKnown(order, counts, i, counts[artist] + 1);
    } else {
      SumNew(order, counts, artist, 1);
    }
  }

  lemma NothingCounted()
    ensures Counts([], [], map[])
  {
  }

  method CountArtists(artists: seq<string>) returns (order: seq<string>, counts: map<string, nat>)
    ensures Counts(artists, order, counts)
  {
    hide Counts;
    NothingCounted();
    order, counts := [], map[];
    assert artists[..0] == [];
    for i := 0 to |artists|
      invariant Counts(artists[..i], order, counts)
    {
      CountsNext(artists[..i], order, counts, artists[i]);
      assert artists[..i] + [artists[i]] == artists[..i + 1];
      if artists[i] in counts {
        counts := counts[artists[i] := counts[artists[i]] + 1];
      } else {
        order := order + [artists[i]];
        counts := counts[artists[i] := 1];
      }
    }
    assert artists[..|artists|] == artists;
  }

  // ---------------------------------------------------------------- metrics

  ghost function OverCap(counts: seq<nat>): nat {
    if counts == [] then 0 else OverCap(counts[..|counts| - 1]) + if counts[|counts| - 1] > ARTIST_CAP then 1 else 0
  }

  lemma {:induction false} OverCapMeans(counts: seq<nat>)
    ensures OverCap(counts) == 0 <==> AllUpTo(counts, ARTIST_CAP)
  {
    if counts == [] {
    } else {
      var front := counts[..|counts| - 1];
      OverCapMeans(front);
      assert AllUpTo(counts, ARTIST_CAP) <==> AllUpTo(front, ARTIST_CAP) && counts[|counts| - 1] <= ARTIST_CAP by {
        assert counts == front + [counts[|counts| - 1]];
      }
    }
  }

  /** It counts the artists with more than two tracks. */
  lemma {:induction false} OverCapCounts(counts: seq<nat>)
    ensures OverCap(counts) == |set i | 0 <= i < |counts| && counts[i] > 2|
  {
    var over := set i | 0 <= i < |counts| && counts[i] > 2;
    if counts == [] {
      assert over == {};
    } else {
      var last := |counts| - 1;
      var front := counts[..last];
      OverCapCounts(front);
      assert over == (set i | 0 <= i < |front| && front[i] > 2) + if counts[last] > 2 then {last} else {};
    }
  }

  /** The metrics of a playlist whose artists have these numbers of tracks. */
  ghost predicate Measures(m: Metrics, counts: seq<nat>) {
    && m.playlistSize == Sum(counts) && m.uniqueArtists == |counts|
    && AllUpTo(counts, m.maxTracksPerArtist) && (if counts == [] then m.maxTracksPerArtist == 0 else m.maxTracksPerArtist in counts)
    && m.capViolations == OverCap(counts)
    && (if m.playlistSize == 0 then m.maxArtistShare == m.uniqueArtistRatio == m.hhi == 0.0
        else
          var size := m.playlistSize as real;
          && m.maxArtistShare * size == m.maxTracksPerArtist as real
          && m.uniqueArtistRatio * size == m.uniqueArtists as real
          && m.hhi * (size * size) == SumOfSquares(counts) as real)
  }

  method Most(counts: seq<nat>) returns (most: nat)
    ensures AllUpTo(counts, most) && if counts == [] then most == 0 else most in counts
  {
    most := 0;
    for i := 0 to |counts|
      invariant AllUpTo(counts[..i], most) && (if i == 0 then most == 0 else most in counts[..i])
    {
      assert counts[..i + 1] == counts[..i] + [counts[i]];
      if i == 0 || counts[i] > most { most := counts[i]; }
    }
    assert counts[..|counts|] == counts;
  }

  lemma ShareSquared(sum: real, share: real, count: nat, size: real, squares: nat)
    requires share * size == count as real && sum * (size * size) == squares as real
    ensures (sum + share * share) * (size * size) == (squares + count * count) as real
  {
    assert (share * size) * (share * size) == (count * count) as real;
    assert (sum + share * share) * (size * size) == sum * (size * size) + (share * size) * (share * size);
  }

  /** The Herfindahl-Hirschman index: the sum of the squared shares. */
  method Concentration(counts: seq<nat>, size: nat) returns (hhi: real)
    requires size > 0
    ensures hhi * (size as real * size as real) == SumOfSquares(counts) as real
  {
    hhi := 0.0;
    hide SumOfSquares;
    assert SumOfSquares(counts[..0]) == 0 by { NoSquares(); }
    for i := 0 to |counts|
      invariant hhi * (size as real * size as real) == SumOfSquares(counts[..i]) as real
    {
      var share := counts[i] as real / size as real;
      assert share * size as real == counts[i] as real;
      ShareSquared(hhi, share, counts[i], size as real, SumOfSquares(counts[..i]));
      SumAppend(counts[..i], counts[i]);
      assert counts[..i] + [counts[i]] == counts[..i + 1];
      hhi := hhi + share * share;
    }
    assert counts[..|counts|] == counts;
  }

  lemma NoSquares()
    ensures SumOfSquares([]) == 0
  {
  }

  method CountOverCap(counts: seq<nat>) returns (violations: nat)
    ensures violations == OverCap(counts)
  {
    violations := 0;
    for i := 0 to |counts|
      invariant violations == OverCap(counts[..i])
    {
      assert counts[..i + 1][..i] == counts[..i];
      if counts[i] > ARTIST_CAP { violations := violations + 1; }
    }
    assert counts[..|counts|] == counts;
  }

  lemma NothingSums(counts: seq<nat>)
    ensures counts == [] ==> Sum(counts) == 0
  {
  }

  lemma Ratio(x: real, d: real)
    requires d > 0.0
    ensures (x / d) * d == x
  {
  }

  lemma Assembled(counts: seq<nat>, most: nat, hhi: real)
    requires AllUpTo(counts, most) && most in counts && Sum(counts) > 0
    requires hhi * (Sum(counts) as real * Sum(counts) as real) == SumOfSquares(counts) as real
    ensures var size := Sum(counts) as real;
            Measures(Metrics(Sum(counts), |counts|, most, most as real / size, |counts| as real / size, hhi, OverCap(counts)), counts)
  {
    hide Sum, SumOfSquares, OverCap, AllUpTo;
    Ratio(most as real, Sum(counts) as real);
    Ratio(|counts| as real, Sum(counts) as real);
  }

  /** The metrics of a generated playlist, given the artist of each track. */
  method Measure(artists: seq<string>) returns (m: Metrics, ghost order: seq<string>, ghost counts: map<string, nat>)
    ensures Counts(artists, order, counts) && Measures(m, Values(order, counts)) && m.playlistSize == |artists|
  {
    hide Sum, SumOfSquares, OverCap, AllUpTo, Tallies, Values;
    var listed, counted := CountArtists(artists);
    order, counts := listed, counted;
    var values := Values(listed, counted);
    var most := Most(values);
    var violations := CountOverCap(values);
    var size := |artists|;
    if size == 0 {
      m := Metrics(0, |values|, most, 0.0, 0.0, 0.0, violations);
    } else {
      var hhi := Concentration(values, size);
      assert values != [] by { NothingSums(values); }
      Assembled(values, most, hhi);
      hide Measures;
      m := Metrics(size, |values|, most, most as real / size as real, |values| as real / size as real, hhi, violations);
    }
  }

  // -------------------------------------------------------- what they obey

  lemma Quotient(x: real, y: real, d: real)
    requires d > 0.0 && x * d <= y
    ensures x <= y / d
  {
  }

  lemma Cancel(x: real, y: real, d: real)
    requires d > 0.0 && x * d <= y * d
    ensures x <= y
  {
  }

  lemma Regroup(a: real, b: real, c: real)
    ensures (a * b) * c == a * (b * c)
  {
  }

  lemma RealProduct(a: nat, b: nat)
    ensures (a * b) as real == a as real * b as real
  {
  }

  lemma SameProduct(a: real, b: real, c: real)
    requires b == c
    ensures a * b == a * c
  {
  }

  lemma Reciprocal(whole: real, k: real, squares: real, hhi: real)
    requires whole > 0.0 && k > 0.0 && hhi * whole == squares && whole <= k * squares
    ensures 1.0 / k <= hhi
  {
    SameProduct(k, squares, hhi * whole);
    Regroup(k, hhi, whole);
    Cancel(1.0, k * hhi, whole);
    Ratio(1.0, k);
    Cancel(1.0 / k, hhi, k);
  }

  lemma Reorder(a: real, b: real)
    ensures a * (b * a) == b * (a * a)
  {
  }

  lemma ByShare(size: real, whole: real, most: real, squares: real, hhi: real, share: real)
    requires whole > 0.0 && whole == size * size
    requires hhi * whole == squares && share * size == most && squares <= size * most
    ensures hhi <= share
  {
    SameProduct(size, most, share * size);
    Reorder(size, share);
    SameProduct(share, whole, size * size);
    Cancel(hhi, share, whole);
  }

  lemma PositiveSquare(x: real)
    requires x > 0.0
    ensures x * x > 0.0
  {
  }

  lemma ZeroTimes(size: nat, k: nat, squares: nat)
    requires size > 0 && squares <= size * 0
    ensures k * squares < size * size
  {
  }

  /** The counts behind both bounds of the index. */
  lemma SquaresBetween(m: Metrics, counts: seq<nat>)
    ensures Measures(m, counts) && m.playlistSize > 0 ==>
              && 0 < m.maxTracksPerArtist <= m.playlistSize && m.uniqueArtists > 0
              && m.playlistSize * m.playlistSize <= m.uniqueArtists * SumOfSquares(counts)
              && SumOfSquares(counts) <= m.playlistSize * m.maxTracksPerArtist
  {
    if Measures(m, counts) && m.playlistSize > 0 {
      CauchySchwarz(counts);
      SquaresUpTo(counts, m.maxTracksPerArtist);
      var i :| 0 <= i < |counts| && counts[i] == m.maxTracksPerArtist;
      SumAtLeast(counts, i);
      if m.maxTracksPerArtist == 0 { ZeroTimes(m.playlistSize, m.uniqueArtists, SumOfSquares(counts)); }
    }
  }

  lemma MeasuredReals(m: Metrics, counts: seq<nat>)
    ensures Measures(m, counts) && m.playlistSize > 0 ==>
              && m.maxArtistShare * m.playlistSize as real == m.maxTracksPerArtist as real
              && m.hhi * (m.playlistSize as real * m.playlistSize as real) == SumOfSquares(counts) as real
  {
    hide Sum, SumOfSquares, OverCap, AllUpTo;
  }

  lemma BetweenReals(size: nat, k: nat, most: nat, squares: nat, hhi: real, share: real)
    requires size > 0 && k > 0 && most <= size
    requires hhi * (size as real * size as real) == squares as real && share * size as real == most as real
    requires size * size <= k * squares && squares <= size * most
    ensures 1.0 / k as real <= hhi <= share <= 1.0
  {
    RealProduct(size, size);
    RealProduct(k, squares);
    RealProduct(size, most);
    var s := size as real;
    var whole := s * s;
    PositiveSquare(s);
    Reciprocal(whole, k as real, squares as real, hhi);
    ByShare(s, whole, most as real, squares as real, hhi, share);
    Cancel(share, 1.0, s);
  }

  /** For every playlist but the empty one the index lies between the reciprocal
      of the number of artists and the largest share, which is at most one. */
  lemma IndexIsBetween(m: Metrics, counts: seq<nat>)
    ensures Measures(m, counts) && m.playlistSize > 0 ==>
              m.uniqueArtists > 0 && 1.0 / m.uniqueArtists as real <= m.hhi <= m.maxArtistShare <= 1.0
  {
    hide Measures, SumOfSquares;
    SquaresBetween(m, counts);
    MeasuredReals(m, counts);
    if Measures(m, counts) && m.playlistSize > 0 {
      BetweenReals(m.playlistSize, m.uniqueArtists, m.maxTracksPerArtist, SumOfSquares(counts), m.hhi, m.maxArtistShare);
    }
  }

  /** Without cap violations both the index and the largest share are at most two tracks' worth. */
  lemma CapBoundsBoth(m: Metrics, counts: seq<nat>)
    ensures Measures(m, counts) && m.playlistSize > 0 && m.capViolations == 0 ==>
              m.hhi <= m.maxArtistShare <= 2.0 / m.playlistSize as real && m.maxTracksPerArtist <= 2
  {
    IndexIsBetween(m, counts);
    OverCapMeans(counts);
    if Measures(m, counts) && m.playlistSize > 0 && m.capViolations == 0 {
      var i :| 0 <= i < |counts| && counts[i] == m.maxTracksPerArtist;
      assert m.maxTracksPerArtist <= 2;
      hide Sum, SumOfSquares, OverCap, AllUpTo;
      Quotient(m.maxArtistShare, 2.0, m.playlistSize as real);
    }
  }

  // -------------------------------------------------------------- judgement

  datatype Reason = CapViolations | MaxArtistShare | UniqueArtistRatio | HighIndex | WeightingNotObserved

  datatype Thresholds = Thresholds(maxArtistShare: real, uniqueArtistRatio: real, hhi: real)

  function ThresholdsFor(targetSize: nat): Thresholds {
    if targetSize <= 10 then Thresholds(0.2, 0.6, 0.22) else Thresholds(0.15, 0.55, 0.18)
  }

  /** The largest discography must appear in a playlist filled at least to half. */
  predicate Shut(m: Metrics, targetSize: nat, largest: Option<nat>) {
    largest == Some(0) && m.playlistSize >= (targetSize + 1) / 2
  }

  function AddIf(reasons: seq<Reason>, applies: bool, reason: Reason): seq<Reason> {
    if applies then reasons + [reason] else reasons
  }

  /** The reasons, after those already there. */
  function FailuresAfter(before: seq<Reason>, m: Metrics, targetSize: nat, largest: Option<nat>): seq<Reason> {
    var t := ThresholdsFor(targetSize);
    var r1 := AddIf(before, m.capViolations > 0, CapViolations);
    var r2 := AddIf(r1, m.maxArtistShare > t.maxArtistShare, MaxArtistShare);
    var r3 := AddIf(r2, m.uniqueArtistRatio < t.uniqueArtistRatio, UniqueArtistRatio);
    var r4 := AddIf(r3, m.hhi > t.hhi, HighIndex);
    AddIf(r4, Shut(m, targetSize, largest), WeightingNotObserved)
  }

  function Failures(m: Metrics, targetSize: nat, largest: Option<nat>): seq<Reason> {
    FailuresAfter([], m, targetSize, largest)
  }

  /** The place of a reason among the checks of a run. */
  function Place(reason: Reason): nat {
    match reason
    case CapViolations => 0
    case MaxArtistShare => 1
    case UniqueArtistRatio => 2
    case HighIndex => 3
    case WeightingNotObserved => 4
  }

  ghost predicate InPlaces(reasons: seq<Reason>) {
    forall i, j | 0 <= i < j < |reasons| :: Place(reasons[i]) < Place(reasons[j])
  }

  /** What a run fails by is decided reason by reason, the reasons coming in the
      order of their checks, each once at most. */
  lemma FailuresMean(m: Metrics, targetSize: nat, largest: Option<nat>)
    ensures var failures := Failures(m, targetSize, largest);
            && (CapViolations in failures <==> m.capViolations > 0)
            && (MaxArtistShare in failures <==> m.maxArtistShare > if targetSize <= 10 then 0.2 else 0.15)
            && (UniqueArtistRatio in failures <==> m.uniqueArtistRatio < if targetSize <= 10 then 0.6 else 0.55)
            && (HighIndex in failures <==> m.hhi > if targetSize <= 10 then 0.22 else 0.18)
            && (WeightingNotObserved in failures <==> largest.Some? && largest.value == 0 && 2 * m.playlistSize >= targetSize)
            && InPlaces(failures)
  {
    ThresholdsMean(targetSize);
    ShutMeans(m, targetSize, largest);
    hide Shut, ThresholdsFor, InPlaces;
    var t := ThresholdsFor(targetSize);
    var r1 := AddIf([], m.capViolations > 0, CapViolations);
    var r2 := AddIf(r1, m.maxArtistShare > t.maxArtistShare, MaxArtistShare);
    var r3 := AddIf(r2, m.uniqueArtistRatio < t.uniqueArtistRatio, UniqueArtistRatio);
    var r4 := AddIf(r3, m.hhi > t.hhi, HighIndex);
    AddedOnce([], m.capViolations > 0, CapViolations);
    AddedOnce(r1, m.maxArtistShare > t.maxArtistShare, MaxArtistShare);
    AddedOnce(r2, m.uniqueArtistRatio < t.uniqueArtistRatio, UniqueArtistRatio);
    AddedOnce(r3, m.hhi > t.hhi, HighIndex);
    AddedOnce(r4, Shut(m, targetSize, largest), WeightingNotObserved);
    hide AddIf;
  }

  lemma ThresholdsMean(targetSize: nat)
    ensures ThresholdsFor(targetSize).maxArtistShare == if targetSize <= 10 then 0.2 else 0.15
    ensures ThresholdsFor(targetSize).uniqueArtistRatio == if targetSize <= 10 then 0.6 else 0.55
    ensures ThresholdsFor(targetSize).hhi == if targetSize <= 10 then 0.22 else 0.18
  {
  }

  lemma ShutMeans(m: Metrics, targetSize: nat, largest: Option<nat>)
    ensures Shut(m, targetSize, largest) <==> largest.Some? && largest.value == 0 && 2 * m.playlistSize >= targetSize
  {
  }

  lemma AddedOnce(reasons: seq<Reason>, applies: bool, reason: Reason)
    requires InPlaces(reasons) && forall x | x in reasons :: Place(x) < Place(reason)
    ensures var r := AddIf(reasons, applies, reason);
            && (forall x :: x in r <==> x in reasons || (applies && x == reason))
            && InPlaces(r) && forall x | x in r :: Place(x) <= Place(reason)
  {
  }

  lemma FailuresAppend(before: seq<Reason>, m: Metrics, targetSize: nat, largest: Option<nat>)
    ensures FailuresAfter(before, m, targetSize, largest) == before + Failures(m, targetSize, largest)
  {
    hide Shut, ThresholdsFor;
    assert before + [] == before;
    forall reasons, applies, reason ensures AddIf(before + reasons, applies, reason) == before + AddIf(reasons, applies, reason) {
      assert before + reasons + [reason] == before + (reasons + [reason]);
    }
    hide AddIf;
  }

  class RunMetric {
    const metrics: Metrics
    const targetSize: nat
    const largestDiscographySelected: Option<nat>
    var failedReasons: seq<Reason>

    constructor (metrics: Metrics, targetSize: nat, largest: Option<nat>)
      ensures this.metrics == metrics && this.targetSize == targetSize && largestDiscographySelected == largest && failedReasons == []
    {
      this.metrics, this.targetSize, largestDiscographySelected, failedReasons := metrics, targetSize, largest, [];
    }

    method Evaluate()
      modifies this
      ensures failedReasons == old(failedReasons) + Failures(metrics, targetSize, largestDiscographySelected)
    {
      FailuresAppend(failedReasons, metrics, targetSize, largestDiscographySelected);
      hide ThresholdsFor;
      var thresholds := ThresholdsFor(targetSize);
      if metrics.capViolations > 0 {
        failedReasons := failedReasons + [CapViolations];
      }
      if metrics.maxArtistShare > thresholds.maxArtistShare {
        failedReasons := failedReasons + [MaxArtistShare];
      }
      if metrics.uniqueArtistRatio < thresholds.uniqueArtistRatio {
        failedReasons := failedReasons + [UniqueArtistRatio];
      }
      if metrics.hhi > thresholds.hhi {
        failedReasons := failedReasons + [HighIndex];
      }
      if largestDiscographySelected.Some? && largestDiscographySelected.value == 0
         && metrics.playlistSize >= (targetSize + 1) / 2 {
        failedReasons := failedReasons + [WeightingNotObserved];
      }
    }
  }

  /** The size from which the artist cap alone keeps a playlist under both thresholds. */
  function Enough(targetSize: nat): nat {
    if targetSize <= 10 then 10 else 14
  }

  /** From that size on a run that keeps the cap can fail only by too few artists
      or by the missing largest discography, and fails exactly if one of them holds. */
  lemma CapKeepersFailOtherwise(m: Metrics, counts: seq<nat>, targetSize: nat, largest: Option<nat>)
    ensures Measures(m, counts) && m.capViolations == 0 && m.playlistSize >= Enough(targetSize) ==>
              && (forall reason | reason in Failures(m, targetSize, largest) :: reason in {UniqueArtistRatio, WeightingNotObserved})
              && (Failures(m, targetSize, largest) == [] <==>
                  m.uniqueArtistRatio >= ThresholdsFor(targetSize).uniqueArtistRatio && !Shut(m, targetSize, largest))
  {
    if Measures(m, counts) && m.capViolations == 0 && m.playlistSize >= Enough(targetSize) {
      CapBoundsBoth(m, counts);
      hide Measures;
      var size := m.playlistSize as real;
      assert m.maxArtistShare <= ThresholdsFor(targetSize).maxArtistShare by {
        Cancel(2.0 / size, ThresholdsFor(targetSize).maxArtistShare, size);
      }
    }
  }

  /** The size is the least such: with an artist at the cap the share fails below it. */
  lemma EnoughIsLeast(m: Metrics, counts: seq<nat>, targetSize: nat, largest: Option<nat>)
    ensures Measures(m, counts) && m.capViolations == 0 && m.maxTracksPerArtist == ARTIST_CAP ==>
              (MaxArtistShare in Failures(m, targetSize, largest) <==> m.playlistSize < Enough(targetSize))
  {
    hide Sum, SumOfSquares, OverCap, AllUpTo;
    if Measures(m, counts) && m.capViolations == 0 && m.maxTracksPerArtist == ARTIST_CAP {
      assert m.playlistSize > 0 by { AtCapIsNotEmpty(m, counts); }
      var size, share := m.playlistSize as real, ThresholdsFor(targetSize).maxArtistShare;
      assert m.maxArtistShare * size == 2.0;
      hide Measures;
      if m.maxArtistShare <= share {
        assert m.maxArtistShare * size <= share * size;
      } else {
        assert m.maxArtistShare * size > share * size;
      }
    }
  }

  lemma AtCapIsNotEmpty(m: Metrics, counts: seq<nat>)
    ensures Measures(m, counts) && m.maxTracksPerArtist > 0 ==> m.playlistSize > 0
  {
    if Measures(m, counts) && m.maxTracksPerArtist > 0 {
      var i :| 0 <= i < |counts| && counts[i] == m.maxTracksPerArtist;
      SumAtLeast(counts, i);
    }
  }
}
