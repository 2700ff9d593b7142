/** Which record is which event, which records are the same event, and which are
    the same content, said key by key. */
module DiagnosticFields {
  import opened Tables
  import opened DiagnosticRecords
  import opened DiagnosticDeliveries

  // --------------------------------------------------------------- normal form

  /** Letters, digits, `_`, `:` and `-`, between 1 and 128 of them. */
  predicate IsIdentifier(s: string) {
    1 <= |s| <= 128 && forall c | c in s :: 'a' <= c <= 'z' || 'A' <= c <= 'Z' || '0' <= c <= '9' || c in {'_', ':', '-'}
  }

  predicate Identifies(m: Fields, key: string, id: Option<string>) {
    if key in m && m[key].Str? && IsIdentifier(m[key].s) then id == Some(m[key].s) else id.None?
  }

  predicate Labels(m: Fields, key: string, allowed: set<string>, value: string) {
    if key in m && m[key].Str? && m[key].s in allowed then value == m[key].s else value == "unknown"
  }

  /** The finite number under this key. */
  predicate Numbers(m: Fields, key: string, x: real) {
    key in m && ((m[key].Int? && m[key].i as real == x) || (m[key].Float? && m[key].r == x))
  }

  /** The time is the observation's; the receipt's only if none is given at all. */
  predicate Times(m: Fields, time: real) {
    Numbers(m, if "observedAtMs" in m then "observedAtMs" else "receivedAtMs", time) && 0.0 <= time < 253402300799000.0
  }

  ghost predicate Positions(f: Fields, position: Option<real>) {
    if exists x :: Numbers(f, "currentTimeSec", x) && 0.0 <= x <= 86400000.0
    then position.Some? && Numbers(f, "currentTimeSec", position.value)
    else position.None?
  }

  predicate FlagsOf(f: Fields, playing: bool, fatal: bool) {
    && (playing <==> "enginePlaying" in f && f["enginePlaying"] == Bool(true))
    && (fatal <==> "stage" in f && f["stage"].Str? && f["stage"].s in {"fatal", "fatal_after_recovery"})
  }

  predicate LabelsOf(f: Fields, e: Event) {
    && Labels(f, "sourceType", {"local", "peer", "tidal", "ytmusic", "audius", "vk", "yandex"}, e.source)
    && Labels(f, "platform", {"android", "ios", "other"}, e.platform)
    && Labels(f, "errorCategory", {"client_abort", "rate_limit", "timeout", "network", "unavailable", "provider_challenge",
                                   "unsupported_source", "unknown"}, e.category)
    && Labels(f, "reason", {"wrong_version", "no_sound", "interruption"}, e.reason)
  }

  /** The record reads as this event. */
  ghost predicate ReadsAs(m: Fields, e: Event) {
    && "event" in m && m["event"] == Str(NameOf(e.kind)) && Times(m, e.time)
    && Identifies(m, "userId", e.owner) && Identifies(m, "eventId", e.id)
    && "fields" in m && m["fields"].Obj?
    && var f := m["fields"].fields;
       Identifies(f, "playbackRunId", e.run) && LabelsOf(f, e) && Positions(f, e.position) && FlagsOf(f, e.playing, e.fatal)
  }

  lemma IdentifierMeans(m: Fields, key: string, id: Option<string>)
    ensures Identifies(m, key, id) <==> Identifier(Field(m, key)) == id
  {
    assert forall c :: IdentifierChar(c) <==>
             'a' <= c <= 'z' || 'A' <= c <= 'Z' || '0' <= c <= '9' || c in {'_', ':', '-'};
    hide IdentifierChar;
  }

  lemma NumberMeans(m: Fields, key: string, x: real)
    ensures Numbers(m, key, x) <==> Number(Field(m, key)) == Some(x)
  {
  }

  lemma TimesMean(m: Fields, time: real)
    ensures Times(m, time) <==> Number(Timestamp(m)) == Some(time) && 0.0 <= time < END_OF_TIME
  {
    NumberMeans(m, if "observedAtMs" in m then "observedAtMs" else "receivedAtMs", time);
    hide Number, Numbers;
  }

  lemma PositionMeans(f: Fields, position: Option<real>)
    ensures Positions(f, position) <==> Position(Field(f, "currentTimeSec")) == position
  {
    forall x ensures Numbers(f, "currentTimeSec", x) <==> Number(Field(f, "currentTimeSec")) == Some(x) {
      NumberMeans(f, "currentTimeSec", x);
    }
    hide Number, Numbers, Field;
    var n := Number(Field(f, "currentTimeSec"));
    if n.Some? { assert Numbers(f, "currentTimeSec", n.value); }
  }

  lemma LabelsMean(f: Fields, e: Event)
    ensures LabelsOf(f, e) <==>
            && e.source == LabelOf(Field(f, "sourceType"), SOURCES) && e.platform == LabelOf(Field(f, "platform"), PLATFORMS)
            && e.category == LabelOf(Field(f, "errorCategory"), CATEGORIES) && e.reason == LabelOf(Field(f, "reason"), REPORT_REASONS)
  {
  }

  lemma FlagsMean(f: Fields, playing: bool, fatal: bool)
    ensures FlagsOf(f, playing, fatal) <==>
            && playing == (Field(f, "enginePlaying") == Bool(true))
            && fatal == (Field(f, "stage") == Str("fatal") || Field(f, "stage") == Str("fatal_after_recovery"))
  {
  }

  lemma KindMeans(m: Fields, k: Kind)
    ensures ("event" in m && m["event"] == Str(NameOf(k))) <==>
            (Field(m, "event").Str? && KindNamed(Field(m, "event").s) == Some(k))
  {
    hide NameOf, KindNamed;
    if Field(m, "event").Str? { NamesRoundTrip(k, Field(m, "event").s); }
  }

  /** Normalization, key by key: a record is accepted exactly if it reads as an
      event, and is then that event. */
  lemma NormalizeMeans(record: Json, e: Event)
    ensures Normalize(record) == Some(e) <==> record.Obj? && ReadsAs(record.fields, e)
  {
    if record.Obj? {
      var m := record.fields;
      KindMeans(m, e.kind);
      TimesMean(m, e.time);
      IdentifierMeans(m, "userId", e.owner);
      IdentifierMeans(m, "eventId", e.id);
      if "fields" in m && m["fields"].Obj? {
        var f := m["fields"].fields;
        IdentifierMeans(f, "playbackRunId", e.run);
        LabelsMean(f, e);
        PositionMeans(f, e.position);
        FlagsMean(f, e.playing, e.fatal);
      }
    }
    hide Identifies, Identifier, Times, Number, Timestamp, Labels, LabelsOf, LabelOf, Positions, Position, FlagsOf, KindNamed, NameOf;
  }

  /** The names under which the kinds come, and which of them are faults. */
  lemma KindsAreNamed()
    ensures KindNamed("player.engine_pause") == Some(EnginePause) && KindNamed("player.playback_error") == Some(PlaybackError)
    ensures KindNamed("player.rebuffer") == Some(Rebuffer) && KindNamed("player.rebuffer_recovered") == Some(RebufferRecovered)
    ensures KindNamed("player.rebuffer_timeout") == Some(RebufferTimeout)
    ensures KindNamed("player.recovery_attempt") == Some(RecoveryAttempt)
    ensures KindNamed("player.recovery_ready") == Some(RecoveryReady) && KindNamed("player.recovery_resumed") == Some(RecoveryResumed)
    ensures KindNamed("player.track_end") == Some(TrackEnd) && KindNamed("player.unexpected_pause") == Some(UnexpectedPause)
    ensures KindNamed("player.unexpected_stop") == Some(UnexpectedStop) && KindNamed("player.user_report") == Some(UserReport)
    ensures KindNamed("player.visibility_change") == Some(VisibilityChange)
    ensures forall k :: IsIssue(k) <==> k == UnexpectedStop || k == UnexpectedPause || k == Rebuffer || k == RebufferTimeout || k == PlaybackError
  {
    NamesRoundTrip(EnginePause, "player.engine_pause");
    NamesRoundTrip(PlaybackError, "player.playback_error");
    NamesRoundTrip(Rebuffer, "player.rebuffer");
    NamesRoundTrip(RebufferRecovered, "player.rebuffer_recovered");
    NamesRoundTrip(RebufferTimeout, "player.rebuffer_timeout");
    NamesRoundTrip(RecoveryAttempt, "player.recovery_attempt");
    NamesRoundTrip(RecoveryReady, "player.recovery_ready");
    NamesRoundTrip(RecoveryResumed, "player.recovery_resumed");
    NamesRoundTrip(TrackEnd, "player.track_end");
    NamesRoundTrip(UnexpectedPause, "player.unexpected_pause");
    NamesRoundTrip(UnexpectedStop, "player.unexpected_stop");
    NamesRoundTrip(UserReport, "player.user_report");
    NamesRoundTrip(VisibilityChange, "player.visibility_change");
    hide KindNamed;
  }

  // ------------------------------------------------------ identity and content

  /** The event says whose it is and which one. */
  predicate Identified(e: Event) {
    e.owner.Some? && e.id.Some?
  }

  ghost predicate SameAt(a: Fields, b: Fields, key: string) {
    (key in a <==> key in b) && (key in a ==> a[key] == b[key])
  }

  /** The two records have the same keys with the same values, but for a receipt
      time where owner, id and observation time say all there is to say. */
  ghost predicate SameContent(a: Json, b: Json)
    requires Valid(a) && Valid(b)
  {
    forall key :: SameAt(a.fields, b.fields, key) ||
                  (key == "receivedAtMs" && Identified(Normalize(a).value) && "observedAtMs" in a.fields)
  }

  lemma SameFields(a: Fields, b: Fields)
    ensures a == b <==> forall key :: SameAt(a, b, key)
  {
    if forall key :: SameAt(a, b, key) {
      forall key ensures key in a <==> key in b { assert SameAt(a, b, key); }
      forall key | key in a ensures a[key] == b[key] { assert SameAt(a, b, key); }
      assert a == b;
    }
  }

  lemma NoiseMeans(a: Json)
    requires Valid(a)
    ensures ReceiptIsNoise(a.fields) <==> Identified(Normalize(a).value) && "observedAtMs" in a.fields
  {
    hide Identifier, KindNamed, Number, Timestamp, LabelOf, Position;
  }

  /** Receipt times apart, the same keys are noise. */
  lemma SameNoise(a: Fields, b: Fields)
    requires forall key | key != "receivedAtMs" :: SameAt(a, b, key)
    ensures ReceiptIsNoise(a) <==> ReceiptIsNoise(b)
  {
    hide Identifier;
    assert SameAt(a, b, "userId") && SameAt(a, b, "eventId") && SameAt(a, b, "observedAtMs");
  }

  /** The fingerprint is the content. */
  lemma FingerprintMeans(a: Json, b: Json)
    requires Valid(a) && Valid(b)
    ensures PrintOf(a) == PrintOf(b) <==> SameContent(a, b)
  {
    var m, n := a.fields, b.fields;
    NoiseMeans(a);
    NoiseMeans(b);
    SameFields(m, n);
    SameFields(m - {"receivedAtMs"}, n - {"receivedAtMs"});
    hide ReceiptIsNoise, Valid, Identified;
    forall key | key != "receivedAtMs"
      ensures SameAt(m - {"receivedAtMs"}, n - {"receivedAtMs"}, key) <==> SameAt(m, n, key)
    {
    }
    assert SameAt(m - {"receivedAtMs"}, n - {"receivedAtMs"}, "receivedAtMs");
    if PrintOf(a) == PrintOf(b) {
      forall key | key != "receivedAtMs" ensures SameAt(m, n, key) {
        PrintKeeps(m, key);
        PrintKeeps(n, key);
      }
      SameNoise(m, n);
    }
    if SameContent(a, b) {
      SameNoise(m, n);
    }
  }

  lemma PrintKeeps(m: Fields, key: string)
    requires key != "receivedAtMs"
    ensures SameAt(Fingerprint(m), m, key)
  {
  }

  /** Records that say owner and id are the same event exactly if they agree on
      both; any other is the same event only as a record that is equal to it. */
  lemma IdentityMeans(a: Json, b: Json)
    requires Valid(a) && Valid(b)
    ensures var e, f := Normalize(a).value, Normalize(b).value;
            IdentityOf(a.fields) == IdentityOf(b.fields) <==>
            if Identified(e) && Identified(f) then e.owner == f.owner && e.id == f.id
            else !Identified(e) && !Identified(f) && a == b
  {
    hide Identifier, KindNamed, Number, Timestamp, LabelOf, Position;
  }
}
