/** Overlapping like/dislike mutations of one track, as steps on a value.

    `Runtime` is everything the hooks share: the mutation lanes, the reserved
    intents, the query cache, and the number of opaque identities handed out so
    far (each `{}` of the source is the next number). A missing cache entry and
    an entry holding null are the same thing here. `Begin`, `Complete`, ... say
    what one call does; the class in TrackPreferenceStore.dfy does it in place. */
module TrackPreference {
  import opened Tables

  datatype Signal = ThumbsUp | ThumbsDown | Clear

  datatype Stance = Liked | Disliked | Neutral

  datatype Preference = Preference(trackId: TrackId, signal: Signal, state: Stance, score: int)

  function BuildOptimistic(trackId: TrackId, signal: Signal): Preference {
    match signal
    case ThumbsUp => Preference(trackId, signal, Liked, 1)
    case ThumbsDown => Preference(trackId, signal, Disliked, -1)
    case Clear => Preference(trackId, signal, Neutral, 0)
  }

  /** What is shown for a signal until the server has answered, entry by entry. */
  predicate Anticipates(shown: Option<Preference>, trackId: TrackId, signal: Signal) {
    && shown.Some? && shown.value.trackId == trackId && shown.value.signal == signal
    && (shown.value.state == Liked <==> signal == ThumbsUp)
    && (shown.value.state == Disliked <==> signal == ThumbsDown)
    && shown.value.score == if signal == ThumbsUp then 1 else if signal == ThumbsDown then -1 else 0
  }

  function ToggleLike(current: Signal): Signal {
    if current == ThumbsUp then Clear else ThumbsUp
  }

  function ToggleDislike(current: Signal): Signal {
    if current == ThumbsDown then Clear else ThumbsDown
  }

  datatype Lane = Lane(
    identity: nat,
    nextGeneration: nat,
    latestGeneration: nat,
    latestSettled: bool,
    inFlight: set<nat>,
    rollback: Option<Preference>)

  datatype Context = Context(trackId: TrackId, previous: Option<Preference>, generation: nat, laneIdentity: nat)

  datatype Completion = Succeeded(preference: Preference) | Failed

  datatype Verdict = Verdict(isLatest: bool, rollback: Option<Preference>)

  datatype Intent = Intent(signal: Signal, token: nat)

  datatype Runtime = Runtime(
    lanes: Table<Lane>,
    intents: Table<Intent>,
    cache: Table<Option<Preference>>,
    minted: nat)

  function Cached(s: Runtime, c: ClientId, t: TrackId): Option<Preference> {
    match Get(s.cache, c, t)
    case None => None
    case Some(entry) => entry
  }

  function SetCached(s: Runtime, c: ClientId, t: TrackId, p: Option<Preference>): Runtime {
    s.(cache := Put(s.cache, c, t, p))
  }

  // ---------------------------------------------------------------- lanes

  function OpenLane(s: Runtime, c: ClientId, t: TrackId): Lane {
    match Get(s.lanes, c, t)
    case None => Lane(s.minted, 0, 0, true, {}, Cached(s, c, t))
    case Some(lane) => if lane.latestSettled then lane.(rollback := Cached(s, c, t)) else lane
  }

  function Launch(lane: Lane): Lane {
    lane.(nextGeneration := lane.nextGeneration + 1,
          latestGeneration := lane.nextGeneration + 1,
          latestSettled := false,
          inFlight := lane.inFlight + {lane.nextGeneration + 1})
  }

  function Begin(s: Runtime, c: ClientId, t: TrackId, signal: Signal): (Runtime, Context) {
    var lane := Launch(OpenLane(s, c, t));
    (Runtime(Put(s.lanes, c, t, lane),
             s.intents,
             Put(s.cache, c, t, Some(BuildOptimistic(t, signal))),
             if Get(s.lanes, c, t).None? then s.minted + 1 else s.minted),
     Context(t, Cached(s, c, t), lane.nextGeneration, lane.identity))
  }

  predicate Accepts(s: Runtime, c: ClientId, ctx: Context) {
    var found := Get(s.lanes, c, ctx.trackId);
    found.Some? && found.value.identity == ctx.laneIdentity && ctx.generation in found.value.inFlight
  }

  function Settle(lane: Lane, generation: nat, completion: Completion): Lane {
    var settled :=
      if lane.latestGeneration != generation then lane
      else if completion.Succeeded? then lane.(latestSettled := true, rollback := Some(completion.preference))
      else lane.(latestSettled := true);
    settled.(inFlight := settled.inFlight - {generation})
  }

  function Complete(s: Runtime, c: ClientId, ctx: Context, completion: Completion): (Runtime, Verdict) {
    if !Accepts(s, c, ctx) then (s, Verdict(false, None)) else
    var before := Get(s.lanes, c, ctx.trackId).value;
    var lane := Settle(before, ctx.generation, completion);
    (s.(lanes := if lane.inFlight == {} then Drop(s.lanes, c, ctx.trackId) else Put(s.lanes, c, ctx.trackId, lane)),
     Verdict(before.latestGeneration == ctx.generation, lane.rollback))
  }

  function Reset(s: Runtime, c: ClientId): Runtime {
    s.(lanes := s.lanes - {c}, intents := s.intents - {c})
  }

  // -------------------------------------------------- the hook's callbacks

  function OnMutate(s: Runtime, c: ClientId, t: TrackId, signal: Signal): (Runtime, Option<Context>) {
    if t == "" then (s, None) else
    var (s', ctx) := Begin(s, c, t, signal);
    (s', Some(ctx))
  }

  function OnSuccess(s: Runtime, c: ClientId, context: Option<Context>, data: Preference): Runtime {
    if context.None? then s else
    var (s', verdict) := Complete(s, c, context.value, Succeeded(data));
    if verdict.isLatest then SetCached(s', c, context.value.trackId, Some(data)) else s'
  }

  function OnError(s: Runtime, c: ClientId, context: Option<Context>): Runtime {
    if context.None? then s else
    var (s', verdict) := Complete(s, c, context.value, Failed);
    if verdict.isLatest then SetCached(s', c, context.value.trackId, verdict.rollback) else s'
  }

  // -------------------------------------------------------------- intents

  datatype Tap = Like | Dislike | Set(signal: Signal)

  function Resolve(tap: Tap, current: Signal): Signal {
    match tap
    case Like => ToggleLike(current)
    case Dislike => ToggleDislike(current)
    case Set(signal) => signal
  }

  /** What a tap starts from: the newest intent, else the cache, else "clear". */
  function Baseline(s: Runtime, c: ClientId, t: TrackId): Signal {
    match Get(s.intents, c, t)
    case Some(intent) => intent.signal
    case None => if Cached(s, c, t).Some? then Cached(s, c, t).value.signal else Clear
  }

  function Reserve(s: Runtime, c: ClientId, t: TrackId, tap: Tap): (Runtime, Intent) {
    var intent := Intent(Resolve(tap, Baseline(s, c, t)), s.minted);
    (s.(intents := Put(s.intents, c, t, intent), minted := s.minted + 1), intent)
  }

  predicate Holds(s: Runtime, c: ClientId, t: TrackId, token: nat) {
    var found := Get(s.intents, c, t);
    found.Some? && found.value.token == token
  }

  function Release(s: Runtime, c: ClientId, t: TrackId, token: nat): Runtime {
    if Holds(s, c, t, token) then s.(intents := Drop(s.intents, c, t)) else s
  }

  /** What `mutateReservedSignal` resolves to once the server has answered.
      `undefined` is None. */
  function ReservedResult(s: Runtime, c: ClientId, t: TrackId, intent: Intent, response: Preference): Option<Preference> {
    var latest := Cached(s, c, t);
    var latestIntent := Get(s.intents, c, t);
    if !Holds(s, c, t, intent.token) then
      var cachedSignal := if latest.Some? then Some(latest.value.signal) else None;
      var intentSignal := if latestIntent.Some? then Some(latestIntent.value.signal) else None;
      if cachedSignal == intentSignal then latest
      else Some(BuildOptimistic(t, intentSignal.GetOr(cachedSignal.GetOr(Clear))))
    else if latest.Some? && latest.value.signal == response.signal then Some(response)
    else if latest.Some? then latest
    else Some(response)
  }

  // ------------------------------------------------------- steps and runs

  /** Everything that can happen to the runtime between two turns of the event
      loop. Contexts and tokens are arbitrary: any callback may arrive, at any
      time, any number of times. */
  datatype Step =
    | Mutate(client: ClientId, track: TrackId, signal: Signal)
    | Success(client: ClientId, context: Context, data: Preference)
    | Error(client: ClientId, context: Context)
    | Write(client: ClientId, track: TrackId, value: Option<Preference>)
    | SignOut(client: ClientId)
    | TapOn(client: ClientId, track: TrackId, tap: Tap)
    | LetGo(client: ClientId, track: TrackId, token: nat)

  function Next(s: Runtime, e: Step): Runtime {
    match e
    case Mutate(c, t, signal) => OnMutate(s, c, t, signal).0
    case Success(c, ctx, data) => OnSuccess(s, c, Some(ctx), data)
    case Error(c, ctx) => OnError(s, c, Some(ctx))
    case Write(c, t, value) => SetCached(s, c, t, value)
    case SignOut(c) => Reset(s, c)
    case TapOn(c, t, tap) => Reserve(s, c, t, tap).0
    case LetGo(c, t, token) => Release(s, c, t, token)
  }

  function Run(s: Runtime, steps: seq<Step>): Runtime
    decreases |steps|
  {
    if steps == [] then s else Run(Next(s, steps[0]), steps[1..])
  }

  const FRESH := Runtime(map[], map[], map[], 0)

  // ------------------------------------------------------------ invariant

  ghost predicate LaneOk(lane: Lane) {
    && lane.latestGeneration == lane.nextGeneration
    && lane.inFlight != {}
    && (forall g | g in lane.inFlight :: 1 <= g <= lane.nextGeneration)
    && (lane.latestSettled <==> lane.latestGeneration !in lane.inFlight)
  }

  ghost predicate Inv(s: Runtime) {
    && Tidy(s.lanes) && Tidy(s.intents)
    && (forall c, t :: Get(s.lanes, c, t).Some? ==>
          LaneOk(Get(s.lanes, c, t).value) && Get(s.lanes, c, t).value.identity < s.minted)
    && (forall c, t, c', t' | Get(s.lanes, c, t).Some? && Get(s.lanes, c', t').Some? ::
          Get(s.lanes, c, t).value.identity == Get(s.lanes, c', t').value.identity ==> c == c' && t == t')
    && (forall c, t :: Get(s.intents, c, t).Some? ==> Get(s.intents, c, t).value.token < s.minted)
  }

  lemma BeginKeepsInv(s: Runtime, c: ClientId, t: TrackId, signal: Signal)
    requires Inv(s)
    ensures Inv(Begin(s, c, t, signal).0)
  {
    var lane := Launch(OpenLane(s, c, t));
    PutGet(s.lanes, c, t, lane);
    assert lane.nextGeneration in lane.inFlight;
    assert LaneOk(lane);
  }

  /** The lanes an accepted completion leaves: one generation fewer, and no lane without generations. */
  lemma CompleteLanes(s: Runtime, c: ClientId, ctx: Context, completion: Completion)
    requires Accepts(s, c, ctx)
    ensures var lane := Settle(Get(s.lanes, c, ctx.trackId).value, ctx.generation, completion);
            forall c', t' :: Get(Complete(s, c, ctx, completion).0.lanes, c', t') ==
                             if c' != c || t' != ctx.trackId then Get(s.lanes, c', t')
                             else if lane.inFlight == {} then None else Some(lane)
    ensures Tidy(s.lanes) ==> Tidy(Complete(s, c, ctx, completion).0.lanes)
  {
    var lane := Settle(Get(s.lanes, c, ctx.trackId).value, ctx.generation, completion);
    PutGet(s.lanes, c, ctx.trackId, lane);
    DropGet(s.lanes, c, ctx.trackId);
  }

  /** A lane whose last generation just left was settled. */
  lemma LastOneOutIsSettled(lane: Lane, generation: nat, completion: Completion)
    requires LaneOk(lane) && generation in lane.inFlight
    ensures var after := Settle(lane, generation, completion);
            after.latestSettled <==> after.latestGeneration !in after.inFlight
    ensures Settle(lane, generation, completion).inFlight != {} ==> LaneOk(Settle(lane, generation, completion))
    ensures Settle(lane, generation, completion).inFlight == {} ==> Settle(lane, generation, completion).latestSettled
  {
  }

  lemma CompleteKeepsInv(s: Runtime, c: ClientId, ctx: Context, completion: Completion)
    requires Inv(s)
    ensures Inv(Complete(s, c, ctx, completion).0)
  {
    if Accepts(s, c, ctx) {
      CompleteLanes(s, c, ctx, completion);
      LastOneOutIsSettled(Get(s.lanes, c, ctx.trackId).value, ctx.generation, completion);
    }
  }

  lemma StepKeepsInv(s: Runtime, e: Step)
    requires Inv(s)
    ensures Inv(Next(s, e))
  {
    match e
    case Mutate(c, t, signal) => BeginKeepsInv(s, c, t, signal);
    case Success(c, ctx, data) => CompleteKeepsInv(s, c, ctx, Succeeded(data));
    case Error(c, ctx) => CompleteKeepsInv(s, c, ctx, Failed);
    case Write(c, t, value) =>
    case SignOut(c) =>
      var s' := Reset(s, c);
      assert forall c', t' :: Get(s'.lanes, c', t') == if c' == c then None else Get(s.lanes, c', t');
      assert forall c', t' :: Get(s'.intents, c', t') == if c' == c then None else Get(s.intents, c', t');
    case TapOn(c, t, tap) => PutGet(s.intents, c, t, Reserve(s, c, t, tap).1);
    case LetGo(c, t, token) => DropGet(s.intents, c, t);
  }

  lemma {:induction false} RunKeepsInv(s: Runtime, steps: seq<Step>)
    requires Inv(s)
    ensures Inv(Run(s, steps))
    decreases |steps|
  {
    if steps == [] {
    } else {
      StepKeepsInv(s, steps[0]);
      RunKeepsInv(Next(s, steps[0]), steps[1..]);
    }
  }

  lemma EveryRunIsOk(steps: seq<Step>)
    ensures Inv(Run(FRESH, steps))
  {
    RunKeepsInv(FRESH, steps);
  }
}
