/** Contexts, lanes and intents over their whole life: nothing stale ever acts,
    nothing is kept for longer than it is needed, and nothing leaks across
    tracks or clients. */
module PreferenceLifetimes {
  import opened Tables
  import opened TrackPreference

  // ------------------------------------------------------------- contexts

  /** No lane can ever accept this context again: its lane is gone or has
      already seen that generation leave. */
  ghost predicate Spent(s: Runtime, ctx: Context) {
    && ctx.laneIdentity < s.minted
    && forall c, t | Get(s.lanes, c, t).Some? && Get(s.lanes, c, t).value.identity == ctx.laneIdentity ::
         var lane := Get(s.lanes, c, t).value;
         ctx.generation <= lane.nextGeneration && ctx.generation !in lane.inFlight
  }

  lemma BeginIsAccepted(s: Runtime, c: ClientId, t: TrackId, signal: Signal)
    requires Inv(s)
    ensures var (s', ctx) := Begin(s, c, t, signal);
            Accepts(s', c, ctx) && !Accepts(s, c, ctx) && !Spent(s, ctx)
  {
    PutGet(s.lanes, c, t, Launch(OpenLane(s, c, t)));
  }

  lemma CompletedIsSpent(s: Runtime, c: ClientId, ctx: Context, completion: Completion)
    requires Inv(s) && Accepts(s, c, ctx)
    ensures Spent(Complete(s, c, ctx, completion).0, ctx)
  {
    CompleteLanes(s, c, ctx, completion);
  }

  lemma SignedOutIsSpent(s: Runtime, c: ClientId, ctx: Context)
    requires Inv(s) && (Accepts(s, c, ctx) || Spent(s, ctx))
    ensures Spent(Reset(s, c), ctx)
  {
    var s' := Reset(s, c);
    assert forall c', t' :: Get(s'.lanes, c', t') == if c' == c then None else Get(s.lanes, c', t');
  }

  /** Answering a spent context, from any client, changes nothing at all. */
  lemma SpentIsInert(s: Runtime, c: ClientId, ctx: Context, completion: Completion, data: Preference)
    requires Spent(s, ctx)
    ensures Complete(s, c, ctx, completion) == (s, Verdict(false, None))
    ensures OnSuccess(s, c, Some(ctx), data) == s && OnError(s, c, Some(ctx)) == s
  {
  }

  lemma MutateKeepsSpent(s: Runtime, c: ClientId, t: TrackId, signal: Signal, ctx: Context)
    requires Inv(s) && Spent(s, ctx)
    ensures Spent(Begin(s, c, t, signal).0, ctx)
  {
    PutGet(s.lanes, c, t, Launch(OpenLane(s, c, t)));
    hide Put, BuildOptimistic;
  }

  lemma CompleteKeepsSpent(s: Runtime, c: ClientId, other: Context, completion: Completion, ctx: Context)
    requires Inv(s) && Spent(s, ctx)
    ensures Spent(Complete(s, c, other, completion).0, ctx)
  {
    if Accepts(s, c, other) {
      CompleteLanes(s, c, other, completion);
      hide Put, Drop;
    }
  }

  lemma StepKeepsSpent(s: Runtime, e: Step, ctx: Context)
    requires Inv(s) && Spent(s, ctx)
    ensures Spent(Next(s, e), ctx)
  {
    match e
    case Mutate(c, t, signal) =>
      MutateKeepsSpent(s, c, t, signal, ctx);
      hide Begin, Inv;
    case Success(c, other, data) =>
      CompleteKeepsSpent(s, c, other, Succeeded(data), ctx);
      hide Complete, Inv;
    case Error(c, other) =>
      CompleteKeepsSpent(s, c, other, Failed, ctx);
      hide Complete, Inv;
    case Write(_, _, _) => hide Inv;
    case SignOut(c) => SignedOutIsSpent(s, c, ctx);
    case TapOn(_, _, _) => hide Inv;
    case LetGo(_, _, _) => hide Inv;
  }

  lemma {:induction false} RunKeepsSpent(s: Runtime, steps: seq<Step>, ctx: Context)
    requires Inv(s) && Spent(s, ctx)
    ensures Spent(Run(s, steps), ctx)
    decreases |steps|
  {
    if steps == [] {
    } else {
      StepKeepsInv(s, steps[0]);
      StepKeepsSpent(s, steps[0], ctx);
      RunKeepsSpent(Next(s, steps[0]), steps[1..], ctx);
    }
  }

  /** Once answered, or once its session ended, a mutation's callbacks are inert
      for ever: also after its lane was recreated and counts from 1 again. */
  lemma NoStaleCallback(s: Runtime, c: ClientId, ctx: Context, first: Step, later: seq<Step>, data: Preference)
    requires Inv(s) && Accepts(s, c, ctx)
    requires first == SignOut(c) || first == Error(c, ctx) || (first.Success? && first.client == c && first.context == ctx)
    ensures var s' := Run(Next(s, first), later);
            forall c' :: OnSuccess(s', c', Some(ctx), data) == s' && OnError(s', c', Some(ctx)) == s'
  {
    StepKeepsInv(s, first);
    match first {
      case SignOut(_) => SignedOutIsSpent(s, c, ctx);
      case Success(_, _, answer) => CompletedIsSpent(s, c, ctx, Succeeded(answer));
      case _ => CompletedIsSpent(s, c, ctx, Failed);
    }
    assert Spent(Next(s, first), ctx);
    RunKeepsSpent(Next(s, first), later, ctx);
  }

  // -------------------------------------------------------- nothing retained

  ghost predicate InFlight(s: Runtime, c: ClientId, t: TrackId, identity: nat, generation: nat) {
    Get(s.lanes, c, t).Some? && Get(s.lanes, c, t).value.identity == identity && generation in Get(s.lanes, c, t).value.inFlight
  }

  lemma BeginAddsOne(s: Runtime, c: ClientId, t: TrackId, signal: Signal)
    requires Inv(s)
    ensures var (s', ctx) := Begin(s, c, t, signal);
            forall c', t', i, g :: InFlight(s', c', t', i, g) <==>
              InFlight(s, c', t', i, g) || (c' == c && t' == t && i == ctx.laneIdentity && g == ctx.generation)
  {
    PutGet(s.lanes, c, t, Launch(OpenLane(s, c, t)));
  }

  lemma CompleteRemovesOne(s: Runtime, c: ClientId, ctx: Context, completion: Completion)
    requires Inv(s)
    ensures var s' := Complete(s, c, ctx, completion).0;
            forall c', t', i, g :: InFlight(s', c', t', i, g) <==>
              InFlight(s, c', t', i, g) && !(c' == c && t' == ctx.trackId && i == ctx.laneIdentity && g == ctx.generation)
  {
    if Accepts(s, c, ctx) {
      CompleteLanes(s, c, ctx, completion);
      var before := Get(s.lanes, c, ctx.trackId).value;
      assert forall g :: g in before.inFlight <==> g == ctx.generation || g in Settle(before, ctx.generation, completion).inFlight;
    }
  }

  /** The lane table is empty exactly when no mutation awaits its answer. */
  lemma NoLaneWithoutMutation(s: Runtime)
    requires Inv(s)
    ensures s.lanes == map[] <==> forall c, t, i, g :: !InFlight(s, c, t, i, g)
  {
    if forall c, t, i, g :: !InFlight(s, c, t, i, g) {
      forall c: ClientId ensures c !in s.lanes {
        if c in s.lanes {
          var t :| t in s.lanes[c].Keys;
          var lane := Get(s.lanes, c, t).value;
          assert LaneOk(lane);
          var g :| g in lane.inFlight;
          assert InFlight(s, c, t, lane.identity, g);
        }
      }
      assert s.lanes.Keys == {};
    }
  }

  // --------------------------------------------------------- independence

  predicate Touches(e: Step, c: ClientId, t: TrackId) {
    match e
    case Mutate(c', t', _) => c' == c && t' == t
    case Success(c', ctx, _) => c' == c && ctx.trackId == t
    case Error(c', ctx) => c' == c && ctx.trackId == t
    case Write(c', t', _) => c' == c && t' == t
    case SignOut(c') => c' == c
    case TapOn(c', t', _) => c' == c && t' == t
    case LetGo(c', t', _) => c' == c && t' == t
  }

  ghost predicate SameFor(s: Runtime, s': Runtime, c: ClientId, t: TrackId) {
    && Get(s'.lanes, c, t) == Get(s.lanes, c, t)
    && Get(s'.intents, c, t) == Get(s.intents, c, t)
    && Cached(s', c, t) == Cached(s, c, t)
  }

  lemma UntouchedStaysSame(s: Runtime, e: Step, c: ClientId, t: TrackId)
    requires !Touches(e, c, t)
    ensures SameFor(s, Next(s, e), c, t)
  {
    match e
    case Mutate(c', t', signal) =>
    case Success(c', ctx, data) =>
      if Accepts(s, c', ctx) { CompleteLanes(s, c', ctx, Succeeded(data)); }
    case Error(c', ctx) =>
      if Accepts(s, c', ctx) { CompleteLanes(s, c', ctx, Failed); }
    case Write(c', t', value) =>
    case SignOut(c') =>
    case TapOn(c', t', tap) =>
    case LetGo(c', t', token) => DropGet(s.intents, c', t');
  }

  // -------------------------------------------------------------- intents

  /** The signal after a sequence of taps, each toggling what the one before left. */
  function Fold(signal: Signal, steps: seq<Step>, c: ClientId, t: TrackId): Signal
    decreases |steps|
  {
    if steps == [] then signal
    else if steps[0].TapOn? && Touches(steps[0], c, t) then Fold(Resolve(steps[0].tap, signal), steps[1..], c, t)
    else Fold(signal, steps[1..], c, t)
  }

  /** The newest intent of (c, t) is never given up along the way. */
  ghost predicate KeepsNewest(s: Runtime, steps: seq<Step>, c: ClientId, t: TrackId)
    decreases |steps|
  {
    steps == [] ||
    (var e := steps[0];
     && e != SignOut(c)
     && !(e.LetGo? && Touches(e, c, t) && Holds(s, c, t, e.token))
     && KeepsNewest(Next(s, e), steps[1..], c, t))
  }

  lemma StepFolds(s: Runtime, e: Step, c: ClientId, t: TrackId)
    requires Get(s.intents, c, t).Some? && KeepsNewest(s, [e], c, t)
    ensures Get(Next(s, e).intents, c, t).Some?
    ensures Get(Next(s, e).intents, c, t).value.signal ==
            if e.TapOn? && Touches(e, c, t) then Resolve(e.tap, Get(s.intents, c, t).value.signal)
            else Get(s.intents, c, t).value.signal
  {
    if !Touches(e, c, t) {
      UntouchedStaysSame(s, e, c, t);
    }
  }

  /** Taps compose: whatever else happens in between (older releases, answers,
      refetches, other tracks), the reserved signal is the fold of the taps. */
  lemma {:induction false} TapsFold(s: Runtime, steps: seq<Step>, c: ClientId, t: TrackId)
    requires Get(s.intents, c, t).Some? && KeepsNewest(s, steps, c, t)
    ensures Get(Run(s, steps).intents, c, t).Some?
    ensures Get(Run(s, steps).intents, c, t).value.signal == Fold(Get(s.intents, c, t).value.signal, steps, c, t)
    decreases |steps|
  {
    if steps == [] {
    } else {
      StepFolds(s, steps[0], c, t);
      TapsFold(Next(s, steps[0]), steps[1..], c, t);
    }
  }

  /** From the first tap on: the fold starts at the cached signal, or "clear". */
  lemma FirstTapFolds(s: Runtime, tap: Tap, steps: seq<Step>, c: ClientId, t: TrackId)
    requires Get(s.intents, c, t).None? && KeepsNewest(s, [TapOn(c, t, tap)] + steps, c, t)
    ensures var start := if Cached(s, c, t).Some? then Cached(s, c, t).value.signal else Clear;
            Get(Run(s, [TapOn(c, t, tap)] + steps).intents, c, t).Some? &&
            Get(Run(s, [TapOn(c, t, tap)] + steps).intents, c, t).value.signal == Fold(start, [TapOn(c, t, tap)] + steps, c, t)
  {
    var all := [TapOn(c, t, tap)] + steps;
    assert all[0] == TapOn(c, t, tap) && all[1..] == steps;
    TapsFold(Next(s, all[0]), steps, c, t);
  }

  /** `n` taps on one button. */
  function Burst(c: ClientId, t: TrackId, tap: Tap, n: nat): seq<Step> {
    if n == 0 then [] else [TapOn(c, t, tap)] + Burst(c, t, tap, n - 1)
  }

  /** A burst of likes alternates between liked and clear, starting opposite to
      what was there; likewise a burst of dislikes. */
  lemma {:induction false} BurstsAlternate(signal: Signal, c: ClientId, t: TrackId, n: nat)
    requires n > 0
    ensures Fold(signal, Burst(c, t, Like, n), c, t) == if (signal == ThumbsUp) == (n % 2 == 0) then ThumbsUp else Clear
    ensures Fold(signal, Burst(c, t, Dislike, n), c, t) == if (signal == ThumbsDown) == (n % 2 == 0) then ThumbsDown else Clear
    decreases n
  {
    assert Burst(c, t, Like, n)[1..] == Burst(c, t, Like, n - 1);
    assert Burst(c, t, Dislike, n)[1..] == Burst(c, t, Dislike, n - 1);
    if n > 1 {
      BurstsAlternate(ToggleLike(signal), c, t, n - 1);
      BurstsAlternate(ToggleDislike(signal), c, t, n - 1);
    }
  }

  /** Letting go of an intent that a newer tap replaced changes nothing; letting
      go of the newest one removes it and only it. */
  lemma ReleaseOnlyOwn(s: Runtime, tap: Tap, c: ClientId, t: TrackId, older: nat)
    requires Inv(s) && older < s.minted
    ensures var (s', newer) := Reserve(s, c, t, tap);
            Release(s', c, t, older) == s' &&
            Get(Release(s', c, t, newer.token).intents, c, t).None? &&
            forall c', t' | c' != c || t' != t ::
              Get(Release(s', c, t, newer.token).intents, c', t') == Get(s.intents, c', t')
  {
    var (s', newer) := Reserve(s, c, t, tap);
    DropGet(s'.intents, c, t);
  }

  /** A superseded caller always learns the newest signal. It gets no preference
      at all exactly when the newest intent is gone and nothing is cached. The
      newest caller gets what the cache shows, or the answer if nothing is cached. */
  lemma ReservedResultSignal(s: Runtime, c: ClientId, t: TrackId, intent: Intent, response: Preference)
    ensures var result := ReservedResult(s, c, t, intent, response);
            var newest := Get(s.intents, c, t);
            var cached := Cached(s, c, t);
            if Holds(s, c, t, intent.token) then
              result.Some? && result.value.signal == (if cached.Some? then cached.value.signal else response.signal)
            else if newest.Some? then result.Some? && result.value.signal == newest.value.signal
            else if cached.Some? then result.Some? && result.value.signal == cached.value.signal
            else result.None?
  {
    assert forall p: Signal :: BuildOptimistic(t, p).signal == p;
  }
}
