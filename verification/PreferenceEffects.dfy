/** What each call and each callback does to the tables, entry by entry. */
module PreferenceEffects {
  import opened Tables
  import opened TrackPreference

  /** A start shows its signal at once and remembers what was shown before. */
  lemma BeginShows(s: Runtime, c: ClientId, t: TrackId, signal: Signal)
    ensures var (s', ctx) := Begin(s, c, t, signal);
            && Anticipates(Cached(s', c, t), t, signal)
            && ctx.trackId == t && ctx.previous == Cached(s, c, t) && s'.intents == s.intents
  {
    PutGet(s.cache, c, t, Some(BuildOptimistic(t, signal)));
    hide Put;
  }

  /** It is the next generation of the track's lane, newest and in flight; the
      rollback point moves to what was shown only if nothing newer was unsettled. */
  lemma BeginLaunches(s: Runtime, c: ClientId, t: TrackId, signal: Signal)
    ensures var (s', ctx) := Begin(s, c, t, signal);
            var before, after := Get(s.lanes, c, t), Get(s'.lanes, c, t);
            && after.Some? && !after.value.latestSettled
            && ctx.generation == after.value.nextGeneration == after.value.latestGeneration
            && ctx.laneIdentity == after.value.identity
            && if before.None? then
                 && s'.minted == s.minted + 1 && ctx.laneIdentity == s.minted && ctx.generation == 1
                 && after.value.inFlight == {1} && after.value.rollback == Cached(s, c, t)
               else
                 && s'.minted == s.minted && ctx.laneIdentity == before.value.identity
                 && ctx.generation == before.value.nextGeneration + 1
                 && after.value.inFlight == before.value.inFlight + {ctx.generation}
                 && after.value.rollback == if before.value.latestSettled then Cached(s, c, t) else before.value.rollback
  {
    PutGet(s.lanes, c, t, Launch(OpenLane(s, c, t)));
    hide Put, BuildOptimistic, Cached;
  }

  /** The verdict on an answer: newest or not, and the rollback point, which the
      newest success moves. A context that is not in flight has no verdict and no effect. */
  lemma CompleteMeans(s: Runtime, c: ClientId, ctx: Context, completion: Completion)
    ensures var (s', verdict) := Complete(s, c, ctx, completion);
            var lane := Get(s.lanes, c, ctx.trackId);
            if lane.Some? && lane.value.identity == ctx.laneIdentity && ctx.generation in lane.value.inFlight then
              && (verdict.isLatest <==> ctx.generation == lane.value.latestGeneration)
              && verdict.rollback == (if verdict.isLatest && completion.Succeeded? then Some(completion.preference) else lane.value.rollback)
              && s' == s.(lanes := s'.lanes)
            else s' == s && !verdict.isLatest && verdict.rollback.None?
  {
    hide Put, Drop;
  }

  /** Only the answer to the newest generation in flight reaches the cache: its
      data, or the rollback point of the lane. Without a context nothing happens. */
  lemma AnswersShow(s: Runtime, c: ClientId, ctx: Context, data: Preference)
    ensures var lane := Get(s.lanes, c, ctx.trackId);
            var newest := lane.Some? && lane.value.identity == ctx.laneIdentity
                          && ctx.generation in lane.value.inFlight && ctx.generation == lane.value.latestGeneration;
            && Cached(Next(s, Success(c, ctx, data)), c, ctx.trackId) == (if newest then Some(data) else Cached(s, c, ctx.trackId))
            && Cached(Next(s, Error(c, ctx)), c, ctx.trackId) == (if newest then lane.value.rollback else Cached(s, c, ctx.trackId))
    ensures OnSuccess(s, c, None, data) == s && OnError(s, c, None) == s
  {
    hide Drop;
  }

  /** A mutation without a track starts nothing and has no context; any other has one. */
  lemma MutatingNeedsATrack(s: Runtime, c: ClientId, t: TrackId, signal: Signal)
    ensures var (s', ctx) := OnMutate(s, c, t, signal);
            && s' == Next(s, Mutate(c, t, signal)) && (ctx.None? <==> t == "")
            && (if ctx.None? then s' == s else Accepts(s', c, ctx.value) && Anticipates(Cached(s', c, t), t, signal))
  {
    BeginShows(s, c, t, signal);
    PutGet(s.lanes, c, t, Launch(OpenLane(s, c, t)));
    hide Put, BuildOptimistic, Anticipates, Cached;
  }

  /** A tap reserves a signal under a fresh token: set as it is, or toggled against
      the newest intent, else what is shown, else "clear". */
  lemma TapReserves(s: Runtime, c: ClientId, t: TrackId, tap: Tap)
    ensures var (s', intent) := Reserve(s, c, t, tap);
            var newest, shown := Get(s.intents, c, t), Cached(s, c, t);
            var current := if newest.Some? then newest.value.signal else if shown.Some? then shown.value.signal else Clear;
            && s' == Next(s, TapOn(c, t, tap)) && Get(s'.intents, c, t) == Some(intent)
            && (tap == Like ==> intent.signal == if current == ThumbsUp then Clear else ThumbsUp)
            && (tap == Dislike ==> intent.signal == if current == ThumbsDown then Clear else ThumbsDown)
            && (tap.Set? ==> intent.signal == tap.signal)
            && intent.token == s.minted && s'.minted == s.minted + 1 && s'.lanes == s.lanes && s'.cache == s.cache
  {
    PutGet(s.intents, c, t, Reserve(s, c, t, tap).1);
    hide Put;
  }

  /** Letting go removes the intent if it still has that token, and changes nothing else. */
  lemma LettingGo(s: Runtime, c: ClientId, t: TrackId, token: nat)
    ensures var s' := Next(s, LetGo(c, t, token));
            if Get(s.intents, c, t).Some? && Get(s.intents, c, t).value.token == token then
              Get(s'.intents, c, t).None? && s' == s.(intents := s'.intents)
            else s' == s
  {
    DropGet(s.intents, c, t);
    hide Drop;
  }

  /** Signing out removes every lane and intent of one client, and nothing else. */
  lemma SigningOut(s: Runtime, c: ClientId)
    ensures var s' := Next(s, SignOut(c));
            && (forall t :: Get(s'.lanes, c, t).None? && Get(s'.intents, c, t).None?)
            && (forall c', t | c' != c :: Get(s'.lanes, c', t) == Get(s.lanes, c', t) && Get(s'.intents, c', t) == Get(s.intents, c', t))
            && s'.cache == s.cache && s'.minted == s.minted
  {
  }

  /** Whose answer it is: the newest caller gets the response, unless the cache
      shows another signal; a superseded one gets what the cache shows if that is
      the newest signal, and else an anticipation of the newest signal. */
  lemma ReservedResultMeans(s: Runtime, c: ClientId, t: TrackId, intent: Intent, response: Preference)
    ensures var result := ReservedResult(s, c, t, intent, response);
            var newest, shown := Get(s.intents, c, t), Cached(s, c, t);
            if newest.Some? && newest.value.token == intent.token then
              result == if shown.None? || shown.value.signal == response.signal then Some(response) else shown
            else if newest.Some? then
              if shown.Some? && shown.value.signal == newest.value.signal then result == shown
              else Anticipates(result, t, newest.value.signal)
            else if shown.Some? then Anticipates(result, t, shown.value.signal)
            else result.None?
  {
  }
}
