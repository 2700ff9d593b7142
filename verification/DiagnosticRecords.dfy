/** Journal records: what a parsed line is, what it normalizes to, and the
    fingerprint that tells a redelivery from a different event. */
module DiagnosticRecords {
  import opened Tables

  /** A parsed JSON value. Integers and finite floats are kept apart, as their
      serializations are; `Special` is NaN or an infinity. */
  datatype Json =
    | Null
    | Bool(flag: bool)
    | Int(i: int)
    | Float(r: real)
    | Special(name: string)
    | Str(s: string)
    | Arr(items: seq<Json>)
    | Obj(fields: map<string, Json>)

  type Fields = map<string, Json>

  /** In alphabetical order of the names they have in the journal. */
  datatype Kind =
    | EnginePause | PlaybackError | Rebuffer | RebufferRecovered | RebufferTimeout
    | RecoveryAttempt | RecoveryReady | RecoveryResumed | TrackEnd
    | UnexpectedPause | UnexpectedStop | UserReport | VisibilityChange

  function NameOf(k: Kind): string {
    match k
    case EnginePause => "player.engine_pause"
    case PlaybackError => "player.playback_error"
    case Rebuffer => "player.rebuffer"
    case RebufferRecovered => "player.rebuffer_recovered"
    case RebufferTimeout => "player.rebuffer_timeout"
    case RecoveryAttempt => "player.recovery_attempt"
    case RecoveryReady => "player.recovery_ready"
    case RecoveryResumed => "player.recovery_resumed"
    case TrackEnd => "player.track_end"
    case UnexpectedPause => "player.unexpected_pause"
    case UnexpectedStop => "player.unexpected_stop"
    case UserReport => "player.user_report"
    case VisibilityChange => "player.visibility_change"
  }

  function KindNamed(name: string): Option<Kind> {
    if name == NameOf(EnginePause) then Some(EnginePause)
    else if name == NameOf(PlaybackError) then Some(PlaybackError)
    else if name == NameOf(Rebuffer) then Some(Rebuffer)
    else if name == NameOf(RebufferRecovered) then Some(RebufferRecovered)
    else if name == NameOf(RebufferTimeout) then Some(RebufferTimeout)
    else if name == NameOf(RecoveryAttempt) then Some(RecoveryAttempt)
    else if name == NameOf(RecoveryReady) then Some(RecoveryReady)
    else if name == NameOf(RecoveryResumed) then Some(RecoveryResumed)
    else if name == NameOf(TrackEnd) then Some(TrackEnd)
    else if name == NameOf(UnexpectedPause) then Some(UnexpectedPause)
    else if name == NameOf(UnexpectedStop) then Some(UnexpectedStop)
    else if name == NameOf(UserReport) then Some(UserReport)
    else if name == NameOf(VisibilityChange) then Some(VisibilityChange)
    else None
  }

  /** The place of a kind in the order of the names; sorting compares these. */
  function Rank(k: Kind): nat {
    match k
    case EnginePause => 0
    case PlaybackError => 1
    case Rebuffer => 2
    case RebufferRecovered => 3
    case RebufferTimeout => 4
    case RecoveryAttempt => 5
    case RecoveryReady => 6
    case RecoveryResumed => 7
    case TrackEnd => 8
    case UnexpectedPause => 9
    case UnexpectedStop => 10
    case UserReport => 11
    case VisibilityChange => 12
  }

  /** String order, decided at position i. */
  ghost predicate DecidedAt(a: string, b: string, i: int) {
    0 <= i < |b| && i <= |a| && a[..i] == b[..i] && (i == |a| || a[i] < b[i])
  }

  ghost predicate NameBefore(a: string, b: string) {
    exists i :: DecidedAt(a, b, i)
  }

  lemma NameBeforeTransitive(a: string, b: string, c: string)
    requires NameBefore(a, b) && NameBefore(b, c)
    ensures NameBefore(a, c)
  {
    var i :| DecidedAt(a, b, i);
    var j :| DecidedAt(b, c, j);
    var k := if i < j then i else j;
    assert a[..k] == a[..i][..k] == b[..i][..k] == b[..k];
    assert b[..k] == b[..j][..k] == c[..j][..k] == c[..k];
    if i < j {
      assert b[..j][i] == c[..j][i];
    } else if j < i {
      assert a[..i][j] == b[..i][j];
    }
    assert DecidedAt(a, c, k);
  }

  lemma AgreeBefore(a: string, b: string, i: int, k: int)
    requires DecidedAt(a, b, i) && 0 <= k < i
    ensures k < |a| && k < |b| && a[k] == b[k]
  {
    assert a[..i][k] == b[..i][k];
  }

  lemma NotBothBefore(a: string, b: string)
    requires NameBefore(a, b)
    ensures !NameBefore(b, a)
  {
    var i :| DecidedAt(a, b, i);
    forall j
      ensures !DecidedAt(b, a, j)
    {
      if 0 <= j < i { AgreeBefore(a, b, i, j); }
      if DecidedAt(b, a, j) && i < j { AgreeBefore(b, a, j, i); }
    }
  }

  lemma EarlyNamesFollow(a: Kind, b: Kind)
    requires Rank(b) == Rank(a) + 1 <= 6
    ensures NameBefore(NameOf(a), NameOf(b))
  {
    var i := match a
      case Rebuffer => 15
      case RebufferRecovered => 16
      case RebufferTimeout => 9
      case RecoveryAttempt => 16
      case _ => 7;
    assert DecidedAt(NameOf(a), NameOf(b), i);
  }

  lemma LateNamesFollow(a: Kind, b: Kind)
    requires 6 < Rank(b) == Rank(a) + 1
    ensures NameBefore(NameOf(a), NameOf(b))
  {
    var i := match a
      case RecoveryReady => 18
      case UnexpectedPause => 18
      case UnexpectedStop => 8
      case _ => 7;
    assert DecidedAt(NameOf(a), NameOf(b), i);
  }

  lemma NeighboursFollowNames(a: Kind, b: Kind)
    requires Rank(b) == Rank(a) + 1
    ensures NameBefore(NameOf(a), NameOf(b))
  {
    hide NameOf, NameBefore;
    if Rank(b) <= 6 { EarlyNamesFollow(a, b); } else { LateNamesFollow(a, b); }
  }

  lemma {:induction false} LowerRankComesBefore(a: Kind, b: Kind)
    requires Rank(a) < Rank(b)
    ensures NameBefore(NameOf(a), NameOf(b))
    decreases Rank(b) - Rank(a)
  {
    hide NameOf, NameBefore;
    if Rank(b) == Rank(a) + 1 {
      NeighboursFollowNames(a, b);
    } else {
      var next := [PlaybackError, Rebuffer, RebufferRecovered, RebufferTimeout, RecoveryAttempt, RecoveryReady,
                   RecoveryResumed, TrackEnd, UnexpectedPause, UnexpectedStop, UserReport, VisibilityChange][Rank(a)];
      NeighboursFollowNames(a, next);
      LowerRankComesBefore(next, b);
      NameBeforeTransitive(NameOf(a), NameOf(next), NameOf(b));
    }
  }

  lemma SameRankSameKind(a: Kind, b: Kind)
    requires Rank(a) == Rank(b)
    ensures a == b
  {
  }

  /** The ranks are the string order of the names. */
  lemma RanksFollowNames(a: Kind, b: Kind)
    ensures NameBefore(NameOf(a), NameOf(b)) <==> Rank(a) < Rank(b)
  {
    hide Rank, NameOf, NameBefore;
    if Rank(a) < Rank(b) {
      LowerRankComesBefore(a, b);
    } else if Rank(b) < Rank(a) {
      LowerRankComesBefore(b, a);
      NotBothBefore(NameOf(b), NameOf(a));
    } else {
      SameRankSameKind(a, b);
      if NameBefore(NameOf(a), NameOf(b)) { NotBothBefore(NameOf(a), NameOf(b)); }
    }
  }

  lemma NamesDiffer(a: Kind, b: Kind)
    requires a != b
    ensures NameOf(a) != NameOf(b)
  {
    if Rank(a) == Rank(b) { SameRankSameKind(a, b); }
    hide Rank, NameOf, NameBefore;
    if Rank(a) < Rank(b) {
      LowerRankComesBefore(a, b);
      NotBothBefore(NameOf(a), NameOf(b));
    } else {
      LowerRankComesBefore(b, a);
      NotBothBefore(NameOf(b), NameOf(a));
    }
  }

  lemma KnownByItsName(name: string, k: Kind)
    ensures if KindNamed(name).Some? then name == NameOf(KindNamed(name).value) else name != NameOf(k)
  {
    hide NameOf;
  }

  lemma NamesRoundTrip(k: Kind, name: string)
    ensures KindNamed(name) == Some(k) <==> name == NameOf(k)
  {
    KnownByItsName(name, k);
    if KindNamed(name).Some? && KindNamed(name).value != k { NamesDiffer(KindNamed(name).value, k); }
    hide NameOf, KindNamed;
  }

  predicate IsIssue(k: Kind) {
    k in {UnexpectedStop, UnexpectedPause, Rebuffer, RebufferTimeout, PlaybackError}
  }

  const SOURCES := {"local", "peer", "tidal", "ytmusic", "audius", "vk", "yandex"}
  const PLATFORMS := {"android", "ios", "other"}
  const CATEGORIES :=
    {"client_abort", "rate_limit", "timeout", "network", "unavailable", "provider_challenge", "unsupported_source", "unknown"}
  const REPORT_REASONS := {"wrong_version", "no_sound", "interruption"}
  const UNKNOWN := "unknown"

  /** The first instant datetime cannot represent, in milliseconds. */
  const END_OF_TIME: real := 253402300799000.0
  const MAX_POSITION: real := 86400000.0

  datatype Event = Event(
    kind: Kind, time: real, owner: Option<string>, id: Option<string>, run: Option<string>,
    source: string, platform: string, category: string, reason: string,
    position: Option<real>, playing: bool, fatal: bool)

  function Number(v: Json): Option<real> {
    match v
    case Int(i) => Some(i as real)
    case Float(r) => Some(r)
    case _ => None
  }

  predicate IdentifierChar(c: char) {
    'a' <= c <= 'z' || 'A' <= c <= 'Z' || '0' <= c <= '9' || c in "_:-"
  }

  function Identifier(v: Json): Option<string> {
    if v.Str? && 1 <= |v.s| <= 128 && forall c | c in v.s :: IdentifierChar(c) then Some(v.s) else None
  }

  function LabelOf(v: Json, allowed: set<string>): string {
    if v.Str? && v.s in allowed then v.s else UNKNOWN
  }

  /** `dict.get(key)`: a missing key reads as null. */
  function Field(m: Fields, key: string): Json {
    if key in m then m[key] else Null
  }

  function Timestamp(m: Fields): Json {
    if "observedAtMs" in m then m["observedAtMs"] else Field(m, "receivedAtMs")
  }

  function Position(v: Json): Option<real> {
    var n := Number(v);
    if n.Some? && 0.0 <= n.value <= MAX_POSITION then n else None
  }

  function NormalizeFields(m: Fields): Option<Event> {
    var name := Field(m, "event");
    var kind := if name.Str? then KindNamed(name.s) else None;
    var time := Number(Timestamp(m));
    var fields := Field(m, "fields");
    if kind.None? || time.None? || !(0.0 <= time.value < END_OF_TIME) || !fields.Obj? then None
    else
      var f := fields.fields;
      Some(Event(kind.value, time.value, Identifier(Field(m, "userId")), Identifier(Field(m, "eventId")),
                 Identifier(Field(f, "playbackRunId")), LabelOf(Field(f, "sourceType"), SOURCES),
                 LabelOf(Field(f, "platform"), PLATFORMS), LabelOf(Field(f, "errorCategory"), CATEGORIES),
                 LabelOf(Field(f, "reason"), REPORT_REASONS), Position(Field(f, "currentTimeSec")),
                 Field(f, "enginePlaying") == Bool(true),
                 Field(f, "stage") == Str("fatal") || Field(f, "stage") == Str("fatal_after_recovery")))
  }

  function Normalize(record: Json): Option<Event> {
    if record.Obj? then NormalizeFields(record.fields) else None
  }

  /** Whatever a record holds, what the report sees of it is bounded: a time and
      a position in range, labels from closed lists, identifiers of the agreed form. */
  lemma NormalizedIsBounded(record: Json)
    ensures Normalize(record).Some? ==>
              var e := Normalize(record).value;
              && 0.0 <= e.time < END_OF_TIME && (e.position.Some? ==> 0.0 <= e.position.value <= MAX_POSITION)
              && e.source in SOURCES + {UNKNOWN} && e.platform in PLATFORMS + {UNKNOWN}
              && e.category in CATEGORIES && e.reason in REPORT_REASONS + {UNKNOWN}
              && forall i | i in {e.owner, e.id, e.run} && i.Some? ::
                   1 <= |i.value| <= 128 && forall c | c in i.value :: IdentifierChar(c)
  {
  }

  // --------------------------------------------------- telling copies apart

  /** The receipt time does not count where the event says who, which and when. */
  predicate ReceiptIsNoise(m: Fields) {
    Identifier(Field(m, "userId")).Some? && Identifier(Field(m, "eventId")).Some? && "observedAtMs" in m
  }

  /** What of a record is hashed; the digest stands for this. */
  function Fingerprint(m: Fields): Fields {
    if ReceiptIsNoise(m) then m - {"receivedAtMs"} else m
  }

  datatype Identity = Owned(owner: string, id: string) | Exact(mark: Fields)

  function IdentityOf(m: Fields): Identity {
    var owner, id := Identifier(Field(m, "userId")), Identifier(Field(m, "eventId"));
    if owner.Some? && id.Some? then Owned(owner.value, id.value) else Exact(Fingerprint(m))
  }

  /** The fingerprint decides everything the report uses: normal form, identity,
      and itself. */
  lemma FingerprintDecides(m: Fields)
    ensures NormalizeFields(Fingerprint(m)) == NormalizeFields(m)
    ensures IdentityOf(Fingerprint(m)) == IdentityOf(m)
    ensures Fingerprint(Fingerprint(m)) == Fingerprint(m)
  {
    var p := Fingerprint(m);
    assert forall key | key != "receivedAtMs" :: Field(p, key) == Field(m, key) && (key in p <==> key in m);
    if ReceiptIsNoise(m) {
      assert p - {"receivedAtMs"} == p;
    }
  }

  /** Redelivery: a copy that differs in its receipt time only is the same event
      exactly when owner, id and observation time are there to identify it. */
  lemma RedeliveryKeepsFingerprint(m: Fields, receivedAt: Json)
    requires "receivedAtMs" in m && m["receivedAtMs"] != receivedAt
    ensures Fingerprint(m["receivedAtMs" := receivedAt]) == Fingerprint(m) <==> ReceiptIsNoise(m)
  {
    var copy := m["receivedAtMs" := receivedAt];
    assert forall key | key != "receivedAtMs" :: Field(copy, key) == Field(m, key) && (key in copy <==> key in m);
    if ReceiptIsNoise(m) {
      assert copy - {"receivedAtMs"} == m - {"receivedAtMs"};
    } else {
      assert Fingerprint(copy)["receivedAtMs"] != Fingerprint(m)["receivedAtMs"];
    }
  }
}
