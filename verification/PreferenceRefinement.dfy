/** What a listener sees of the lane machine: one stable preference and at most
    one pending mutation per track, whatever order the callbacks arrive in. */
module PreferenceRefinement {
  import opened Tables
  import opened TrackPreference

  datatype Ticket = Ticket(laneIdentity: nat, generation: nat)

  /** `stable` is the last value not in doubt, `pending` the newest unanswered
      mutation, `shown` what the cache displays. */
  datatype View = View(stable: Option<Preference>, pending: Option<Ticket>, shown: Option<Preference>)

  datatype Action =
    | Start(ticket: Ticket, optimistic: Preference)
    | Finish(ticket: Ticket, outcome: Completion)
    | Overwrite(value: Option<Preference>)
    | Forget
    | Idle

  function Act(v: View, a: Action): View {
    match a
    case Start(ticket, optimistic) => View(v.stable, Some(ticket), Some(optimistic))
    case Finish(ticket, outcome) =>
      if v.pending != Some(ticket) then v
      else if outcome.Succeeded? then View(Some(outcome.preference), None, Some(outcome.preference))
      else View(v.stable, None, v.stable)
    case Overwrite(value) => if v.pending.None? then View(value, None, value) else v.(shown := value)
    case Forget => View(v.shown, None, v.shown)
    case Idle => v
  }

  function ActAll(v: View, actions: seq<Action>): View
    decreases |actions|
  {
    if actions == [] then v else ActAll(Act(v, actions[0]), actions[1..])
  }

  function ViewOf(s: Runtime, c: ClientId, t: TrackId): View {
    var lane := Get(s.lanes, c, t);
    if lane.None? || lane.value.latestSettled then View(Cached(s, c, t), None, Cached(s, c, t))
    else View(lane.value.rollback, Some(Ticket(lane.value.identity, lane.value.latestGeneration)), Cached(s, c, t))
  }

  function TicketOf(ctx: Context): Ticket {
    Ticket(ctx.laneIdentity, ctx.generation)
  }

  /** What a step means for one client and track. */
  function Label(s: Runtime, e: Step, c: ClientId, t: TrackId): Action {
    match e
    case Mutate(c', t', signal) =>
      if c' == c && t' == t && t != "" then Start(TicketOf(Begin(s, c, t, signal).1), BuildOptimistic(t, signal)) else Idle
    case Success(c', ctx, data) => if c' == c && ctx.trackId == t then Finish(TicketOf(ctx), Succeeded(data)) else Idle
    case Error(c', ctx) => if c' == c && ctx.trackId == t then Finish(TicketOf(ctx), Failed) else Idle
    case Write(c', t', value) => if c' == c && t' == t then Overwrite(value) else Idle
    case SignOut(c') => if c' == c then Forget else Idle
    case TapOn(_, _, _) => Idle
    case LetGo(_, _, _) => Idle
  }

  function Labels(s: Runtime, steps: seq<Step>, c: ClientId, t: TrackId): seq<Action>
    decreases |steps|
  {
    if steps == [] then [] else [Label(s, steps[0], c, t)] + Labels(Next(s, steps[0]), steps[1..], c, t)
  }

  lemma MutateRefines(s: Runtime, c': ClientId, t': TrackId, signal: Signal, c: ClientId, t: TrackId)
    requires Inv(s)
    ensures ViewOf(Next(s, Mutate(c', t', signal)), c, t) == Act(ViewOf(s, c, t), Label(s, Mutate(c', t', signal), c, t))
  {
    PutGet(s.lanes, c', t', Launch(OpenLane(s, c', t')));
    PutGet(s.cache, c', t', Some(BuildOptimistic(t', signal)));
    hide Inv, Put, BuildOptimistic;
  }

  lemma StepRefines(s: Runtime, e: Step, c: ClientId, t: TrackId)
    requires Inv(s)
    ensures ViewOf(Next(s, e), c, t) == Act(ViewOf(s, c, t), Label(s, e, c, t))
  {
    match e
    case Mutate(c', t', signal) =>
      MutateRefines(s, c', t', signal, c, t);
    case Success(c', ctx, data) =>
      FinishRefines(s, c', ctx, Succeeded(data), c, t);
      hide OnSuccess, ViewOf, Act;
    case Error(c', ctx) =>
      FinishRefines(s, c', ctx, Failed, c, t);
      hide OnError, ViewOf, Act;
    case Write(c', t', value) =>
      PutGet(s.cache, c', t', value);
      hide Inv, Put;
    case SignOut(c') => hide Inv;
    case TapOn(c', t', tap) => hide Inv;
    case LetGo(c', t', token) => hide Inv;
  }

  lemma FinishRefines(s: Runtime, c': ClientId, ctx: Context, completion: Completion, c: ClientId, t: TrackId)
    requires Inv(s)
    ensures var s' := if completion.Succeeded? then OnSuccess(s, c', Some(ctx), completion.preference)
                      else OnError(s, c', Some(ctx));
            ViewOf(s', c, t) ==
            if c' == c && ctx.trackId == t then Act(ViewOf(s, c, t), Finish(TicketOf(ctx), completion)) else ViewOf(s, c, t)
  {
    var t' := ctx.trackId;
    if Accepts(s, c', ctx) {
      var before := Get(s.lanes, c', t').value;
      CompleteLanes(s, c', ctx, completion);
      LastOneOutIsSettled(before, ctx.generation, completion);
      PutGet(s.cache, c', t', Settle(before, ctx.generation, completion).rollback);
    }
  }

  lemma {:induction false} RunRefines(s: Runtime, steps: seq<Step>, c: ClientId, t: TrackId)
    requires Inv(s)
    ensures ViewOf(Run(s, steps), c, t) == ActAll(ViewOf(s, c, t), Labels(s, steps, c, t))
    decreases |steps|
  {
    if steps == [] {
    } else {
      var e, rest := steps[0], steps[1..];
      StepRefines(s, e, c, t);
      StepKeepsInv(s, e);
      RunRefines(Next(s, e), rest, c, t);
      var labels := Labels(s, steps, c, t);
      assert labels[0] == Label(s, e, c, t) && labels[1..] == Labels(Next(s, e), rest, c, t);
    }
  }

  // ------------------------------------------- what the small machine promises

  /** No refetch lands while an answer is outstanding (the source cancels those). */
  ghost predicate Undisturbed(v: View, actions: seq<Action>)
    decreases |actions|
  {
    actions == [] ||
    (!(v.pending.Some? && actions[0].Overwrite?) && Undisturbed(Act(v, actions[0]), actions[1..]))
  }

  /** The value of the newest Start, or `prior` when there is none. */
  function Newest(prior: Option<Preference>, actions: seq<Action>): Option<Preference>
    decreases |actions|
  {
    if actions == [] then prior
    else Newest(if actions[0].Start? then Some(actions[0].optimistic) else prior, actions[1..])
  }

  ghost predicate Settled(v: View) {
    v.pending.None? && v.shown == v.stable
  }

  /** The cache is the stable value as soon as nothing is pending, whatever was
      written meanwhile; and the newest optimistic value while something is. */
  lemma {:induction false} ShownIsNewestOrStable(v: View, prior: Option<Preference>, actions: seq<Action>)
    requires v.pending.None? ==> v.shown == v.stable
    ensures ActAll(v, actions).pending.None? ==> ActAll(v, actions).shown == ActAll(v, actions).stable
    ensures (v.pending.Some? ==> v.shown == prior) && Undisturbed(v, actions) && ActAll(v, actions).pending.Some? ==>
              ActAll(v, actions).shown == Newest(prior, actions)
    decreases |actions|
  {
    if actions == [] {
    } else {
      ShownIsNewestOrStable(Act(v, actions[0]), if actions[0].Start? then Some(actions[0].optimistic) else prior, actions[1..]);
    }
  }

  ghost predicate Answers(a: Action, ticket: Ticket) {
    a.Forget? || (a.Finish? && a.ticket == ticket)
  }

  /** A mutation is pending exactly until its own answer, or a sign-out. */
  lemma {:induction false} PendingUntilAnswered(v: View, ticket: Ticket, actions: seq<Action>)
    requires forall a | a in actions :: !a.Start?
    requires v.pending.None? || v.pending == Some(ticket)
    ensures ActAll(v, actions).pending ==
            if v.pending.Some? && (forall a | a in actions :: !Answers(a, ticket)) then Some(ticket) else None
    decreases |actions|
  {
    if actions == [] {
    } else {
      PendingUntilAnswered(Act(v, actions[0]), ticket, actions[1..]);
      assert actions == [actions[0]] + actions[1..];
      assert (forall a | a in actions :: !Answers(a, ticket)) <==>
             !Answers(actions[0], ticket) && forall a | a in actions[1..] :: !Answers(a, ticket);
    }
  }

  lemma {:induction false} ActAllAppend(v: View, first: seq<Action>, second: seq<Action>)
    ensures ActAll(v, first + second) == ActAll(ActAll(v, first), second)
    decreases |first|
  {
    if first == [] {
      assert first + second == second;
    } else {
      assert (first + second)[1..] == first[1..] + second;
      ActAllAppend(Act(v, first[0]), first[1..], second);
    }
  }

  lemma {:induction false} UnansweredKeepsStable(v: View, ticket: Ticket, actions: seq<Action>)
    requires v.pending == Some(ticket)
    requires forall a | a in actions :: !a.Start? && !Answers(a, ticket)
    ensures ActAll(v, actions).stable == v.stable && ActAll(v, actions).pending == Some(ticket)
    decreases |actions|
  {
    if actions == [] {
    } else {
      assert actions[0] in actions;
      UnansweredKeepsStable(Act(v, actions[0]), ticket, actions[1..]);
    }
  }

  lemma {:induction false} SettledIgnoresAnswers(v: View, actions: seq<Action>)
    requires v.pending.None?
    requires forall a | a in actions :: a.Finish? || a.Idle?
    ensures ActAll(v, actions) == v
    decreases |actions|
  {
    if actions == [] {
    } else {
      assert actions[0] in actions;
      SettledIgnoresAnswers(Act(v, actions[0]), actions[1..]);
    }
  }

  /** The newest mutation decides. Whatever came before it, whatever older
      answers and refetches arrive while it is out, and however many answers
      arrive after its own: its success is what the track shows, and its failure
      brings back the stable value. */
  lemma NewestAnswerWins(v: View, before: seq<Action>, ticket: Ticket, optimistic: Preference,
                         early: seq<Action>, outcome: Completion, late: seq<Action>)
    requires forall a | a in early :: !a.Start? && !Answers(a, ticket)
    requires forall a | a in late :: a.Finish? || a.Idle?
    ensures var value := if outcome.Succeeded? then Some(outcome.preference) else ActAll(v, before).stable;
            ActAll(v, before + [Start(ticket, optimistic)] + early + [Finish(ticket, outcome)] + late) == View(value, None, value)
  {
    var start, finish := [Start(ticket, optimistic)], [Finish(ticket, outcome)];
    ActAllAppend(v, before + start + early + finish, late);
    ActAllAppend(v, before + start + early, finish);
    ActAllAppend(v, before + start, early);
    ActAllAppend(v, before, start);
    var started := ActAll(v, before + start);
    UnansweredKeepsStable(started, ticket, early);
    SettledIgnoresAnswers(ActAll(v, before + start + early + finish), late);
  }

  // --------------------------------------------------- the same, for the tables

  lemma {:induction false} LabelsAppend(s: Runtime, first: seq<Step>, second: seq<Step>, c: ClientId, t: TrackId)
    ensures Labels(s, first + second, c, t) == Labels(s, first, c, t) + Labels(Run(s, first), second, c, t)
    decreases |first|
  {
    hide Next, Label;
    if first == [] {
      assert first + second == second;
    } else {
      var e, rest := first[0], first[1..];
      assert (first + second)[1..] == rest + second;
      LabelsAppend(Next(s, e), rest, second, c, t);
      assert [Label(s, e, c, t)] + (Labels(Next(s, e), rest, c, t) + Labels(Run(s, first), second, c, t)) ==
             ([Label(s, e, c, t)] + Labels(Next(s, e), rest, c, t)) + Labels(Run(s, first), second, c, t);
    }
  }

  /** A step that leaves the pending mutation of (c, t) pending. */
  predicate Spares(e: Step, c: ClientId, t: TrackId, ticket: Ticket) {
    match e
    case Mutate(c', t', _) => !(c' == c && t' == t)
    case Success(c', ctx, _) => !(c' == c && ctx.trackId == t && TicketOf(ctx) == ticket)
    case Error(c', ctx) => !(c' == c && ctx.trackId == t && TicketOf(ctx) == ticket)
    case SignOut(c') => c' != c
    case _ => true
  }

  /** A step that neither mutates, writes nor forgets (c, t): answers, taps and all that is elsewhere. */
  predicate OnlyAnswers(e: Step, c: ClientId, t: TrackId) {
    match e
    case Mutate(c', t', _) => !(c' == c && t' == t)
    case Write(c', t', _) => !(c' == c && t' == t)
    case SignOut(c') => c' != c
    case _ => true
  }

  lemma {:induction false} SparingLabels(s: Runtime, steps: seq<Step>, c: ClientId, t: TrackId, ticket: Ticket)
    requires forall e | e in steps :: Spares(e, c, t, ticket)
    ensures forall a | a in Labels(s, steps, c, t) :: !a.Start? && !Answers(a, ticket)
    decreases |steps|
  {
    hide Next;
    if steps == [] {
    } else {
      assert steps[0] in steps;
      SparingLabels(Next(s, steps[0]), steps[1..], c, t, ticket);
    }
  }

  lemma {:induction false} AnsweringLabels(s: Runtime, steps: seq<Step>, c: ClientId, t: TrackId)
    requires forall e | e in steps :: OnlyAnswers(e, c, t)
    ensures forall a | a in Labels(s, steps, c, t) :: a.Finish? || a.Idle?
    decreases |steps|
  {
    hide Next;
    if steps == [] {
    } else {
      assert steps[0] in steps;
      AnsweringLabels(Next(s, steps[0]), steps[1..], c, t);
    }
  }

  lemma OneLabel(s: Runtime, e: Step, c: ClientId, t: TrackId)
    ensures Labels(s, [e], c, t) == [Label(s, e, c, t)]
  {
    hide Next, Label;
    assert Labels(Next(s, e), [e][1..], c, t) == [];
  }

  lemma MutateLabel(s: Runtime, c: ClientId, t: TrackId, signal: Signal)
    requires t != ""
    ensures Label(s, Mutate(c, t, signal), c, t) == Start(TicketOf(Begin(s, c, t, signal).1), BuildOptimistic(t, signal))
  {
    hide Begin, BuildOptimistic;
  }

  lemma AnswerLabel(s: Runtime, answer: Step, c: ClientId, t: TrackId, ctx: Context)
    requires ctx.trackId == t
    requires answer == Error(c, ctx) || (answer.Success? && answer.client == c && answer.context == ctx)
    ensures Label(s, answer, c, t) == Finish(TicketOf(ctx), if answer.Success? then Succeeded(answer.data) else Failed)
  {
  }

  /** Over every run of the tables: a mutation, any steps that leave it pending, its
      answer, and any answers after that. Its success is what the track then
      shows; its failure brings back what was stable when it was made. */
  lemma NewestMutationWins(before: seq<Step>, c: ClientId, t: TrackId, signal: Signal, early: seq<Step>, answer: Step, late: seq<Step>)
    requires t != ""
    requires var ctx := Begin(Run(FRESH, before), c, t, signal).1;
             && (answer == Error(c, ctx) || (answer.Success? && answer.client == c && answer.context == ctx))
             && forall e | e in early :: Spares(e, c, t, TicketOf(ctx))
    requires forall e | e in late :: OnlyAnswers(e, c, t)
    ensures var value := if answer.Success? then Some(answer.data) else ViewOf(Run(FRESH, before), c, t).stable;
            ViewOf(Run(FRESH, before + [Mutate(c, t, signal)] + early + [answer] + late), c, t) == View(value, None, value)
  {
    var ctx := Begin(Run(FRESH, before), c, t, signal).1;
    var mutate, optimistic := Mutate(c, t, signal), BuildOptimistic(t, signal);
    var outcome := if answer.Success? then Succeeded(answer.data) else Failed;
    var s0 := Run(FRESH, before);
    var s1 := Run(FRESH, before + [mutate]);
    var s2 := Run(FRESH, before + [mutate] + early);
    var s3 := Run(FRESH, before + [mutate] + early + [answer]);
    MutateLabel(s0, c, t, signal);
    AnswerLabel(s2, answer, c, t, ctx);
    EveryRunIsOk([]);
    hide Begin, BuildOptimistic, Next, Label, Act, Inv, ViewOf, Spares, OnlyAnswers;
    LabelsAppend(FRESH, before + [mutate] + early + [answer], late, c, t);
    LabelsAppend(FRESH, before + [mutate] + early, [answer], c, t);
    LabelsAppend(FRESH, before + [mutate], early, c, t);
    LabelsAppend(FRESH, before, [mutate], c, t);
    OneLabel(s0, mutate, c, t);
    OneLabel(s2, answer, c, t);
    SparingLabels(s1, early, c, t, TicketOf(ctx));
    AnsweringLabels(s3, late, c, t);
    RunRefines(FRESH, before, c, t);
    RunRefines(FRESH, before + [mutate] + early + [answer] + late, c, t);
    NewestAnswerWins(ViewOf(FRESH, c, t), Labels(FRESH, before, c, t), TicketOf(ctx), optimistic,
                     Labels(s1, early, c, t), outcome, Labels(s3, late, c, t));
  }

  /** Nothing but starts, failures and answers to superseded mutations. */
  ghost predicate NothingTakesEffect(v: View, actions: seq<Action>)
    decreases |actions|
  {
    actions == [] ||
    (var a := actions[0];
     && !a.Overwrite? && !a.Forget?
     && (a.Finish? && a.outcome.Succeeded? ==> v.pending != Some(a.ticket))
     && NothingTakesEffect(Act(v, a), actions[1..]))
  }

  lemma {:induction false} StableSurvivesFailures(v: View, actions: seq<Action>)
    requires NothingTakesEffect(v, actions)
    ensures ActAll(v, actions).stable == v.stable
    decreases |actions|
  {
    if actions == [] {
    } else {
      StableSurvivesFailures(Act(v, actions[0]), actions[1..]);
    }
  }

  /** However many mutations overlap and in whatever order they fail, the track
      falls back to what it showed before the first of them. */
  lemma FailedBurstRestores(s: Runtime, steps: seq<Step>, c: ClientId, t: TrackId)
    requires Inv(s) && Settled(ViewOf(s, c, t))
    requires NothingTakesEffect(ViewOf(s, c, t), Labels(s, steps, c, t))
    requires ViewOf(Run(s, steps), c, t).pending.None?
    ensures Cached(Run(s, steps), c, t) == Cached(s, c, t)
  {
    var v, labels := ViewOf(s, c, t), Labels(s, steps, c, t);
    RunRefines(s, steps, c, t);
    StableSurvivesFailures(v, labels);
    ShownIsNewestOrStable(v, None, labels);
  }

  /** The answer to anything but the newest mutation changes no cache entry and no view. */
  lemma SupersededAnswerIsInvisible(s: Runtime, c: ClientId, ctx: Context, data: Preference)
    requires Inv(s) && ViewOf(s, c, ctx.trackId).pending != Some(TicketOf(ctx))
    ensures OnSuccess(s, c, Some(ctx), data).cache == s.cache && OnError(s, c, Some(ctx)).cache == s.cache
    ensures forall c', t' :: ViewOf(OnSuccess(s, c, Some(ctx), data), c', t') == ViewOf(s, c', t')
    ensures forall c', t' :: ViewOf(OnError(s, c, Some(ctx)), c', t') == ViewOf(s, c', t')
  {
    if Accepts(s, c, ctx) {
      assert LaneOk(Get(s.lanes, c, ctx.trackId).value);
    }
    forall c', t'
      ensures ViewOf(OnSuccess(s, c, Some(ctx), data), c', t') == ViewOf(s, c', t')
      ensures ViewOf(OnError(s, c, Some(ctx)), c', t') == ViewOf(s, c', t')
    {
      FinishRefines(s, c, ctx, Succeeded(data), c', t');
      FinishRefines(s, c, ctx, Failed, c', t');
    }
  }
}
