/** The module-level lane and intent tables, changed in place. Every method is
    tied to the step function of TrackPreference.dfy that says what it does. */
module TrackPreferenceStore {
  import opened Tables
  import P = TrackPreference

  class MutationLane {
    const identity: nat
    var nextGeneration: nat
    var latestGeneration: nat
    var latestSettled: bool
    var inFlightGenerations: set<nat>
    var rollbackPreference: Option<P.Preference>

    constructor (identity: nat, rollback: Option<P.Preference>)
      ensures Abs() == P.Lane(identity, 0, 0, true, {}, rollback)
    {
      this.identity := identity;
      nextGeneration, latestGeneration, latestSettled := 0, 0, true;
      inFlightGenerations := {};
      rollbackPreference := rollback;
    }

    ghost function Abs(): P.Lane
      reads this
    {
      P.Lane(identity, nextGeneration, latestGeneration, latestSettled, inFlightGenerations, rollbackPreference)
    }

    method StartGeneration() returns (generation: nat)
      modifies this
      ensures Abs() == P.Launch(old(Abs())) && generation == nextGeneration
    {
      generation := nextGeneration + 1;
      nextGeneration := generation;
      latestGeneration := generation;
      latestSettled := false;
      inFlightGenerations := inFlightGenerations + {generation};
    }

    method FinishGeneration(generation: nat, completion: P.Completion) returns (isLatest: bool)
      modifies this
      ensures Abs() == P.Settle(old(Abs()), generation, completion)
      ensures isLatest == (old(latestGeneration) == generation)
    {
      isLatest := latestGeneration == generation;
      if isLatest {
        latestSettled := true;
        if completion.Succeeded? {
          rollbackPreference := Some(completion.preference);
        }
      }
      inFlightGenerations := inFlightGenerations - {generation};
    }
  }

  lemma SameCacheShowsSame(a: P.Runtime, b: P.Runtime, c: ClientId, t: TrackId)
    requires a.cache == b.cache
    ensures P.Cached(a, c, t) == P.Cached(b, c, t)
  {
  }

  class PreferenceStore {
    // One lane object per client and track that has one.
    var lanes: map<(ClientId, TrackId), MutationLane>
    var intents: Table<P.Intent>
    var cache: Table<Option<P.Preference>>
    var minted: nat

    // The runtime these tables stand for.
    ghost var model: P.Runtime

    ghost predicate Valid()
      reads this, lanes.Values
    {
      && model.intents == intents && model.cache == cache && model.minted == minted
      && (forall c, t :: Get(model.lanes, c, t) == if (c, t) in lanes then Some(lanes[(c, t)].Abs()) else None)
      && (forall k, k' | k in lanes && k' in lanes :: lanes[k] == lanes[k'] ==> k == k')
    }

    constructor ()
      ensures Valid() && model == P.FRESH && lanes == map[] && intents == map[] && cache == map[]
    {
      lanes, intents, cache, minted := map[], map[], map[], 0;
      model := P.FRESH;
    }

    method GetQueryData(c: ClientId, t: TrackId) returns (p: Option<P.Preference>)
      requires Valid()
      ensures p == P.Cached(model, c, t)
    {
      p := if c in cache && t in cache[c] then cache[c][t] else None;
    }

    method SetQueryData(c: ClientId, t: TrackId, p: Option<P.Preference>)
      requires Valid()
      modifies this`cache, this`model
      ensures Valid() && model == P.SetCached(old(model), c, t, p)
    {
      cache := Put(cache, c, t, p);
      model := P.SetCached(model, c, t, p);
    }

    method ApplyOptimistic(c: ClientId, t: TrackId, signal: P.Signal) returns (previous: Option<P.Preference>)
      requires Valid()
      modifies this`cache, this`model
      ensures Valid() && previous == P.Cached(old(model), c, t)
      ensures model == P.SetCached(old(model), c, t, Some(P.BuildOptimistic(t, signal)))
      ensures P.Anticipates(P.Cached(model, c, t), t, signal)
    {
      previous := GetQueryData(c, t);
      SetQueryData(c, t, Some(P.BuildOptimistic(t, signal)));
    }

    method CreateLane(c: ClientId, t: TrackId, current: Option<P.Preference>) returns (lane: MutationLane)
      requires Valid() && (c, t) !in lanes
      modifies this`lanes, this`minted, this`model
      ensures Valid() && fresh(lane) && lanes == old(lanes)[(c, t) := lane]
      ensures lane.Abs() == P.Lane(old(minted), 0, 0, true, {}, current)
      ensures model == old(model).(lanes := Put(old(model).lanes, c, t, lane.Abs()), minted := old(minted) + 1)
    {
      hide Put;
      lane := new MutationLane(minted, current);
      minted := minted + 1;
      lanes := lanes[(c, t) := lane];
      PutGet(model.lanes, c, t, lane.Abs());
      model := model.(lanes := Put(model.lanes, c, t, lane.Abs()), minted := minted);
    }

    method Rebase(c: ClientId, t: TrackId, lane: MutationLane, current: Option<P.Preference>)
      requires Valid() && (c, t) in lanes && lane == lanes[(c, t)]
      modifies this`model, lane`rollbackPreference
      ensures Valid() && lane.Abs() == old(lane.Abs()).(rollback := current)
      ensures model == old(model).(lanes := Put(old(model).lanes, c, t, lane.Abs()))
    {
      hide Put;
      lane.rollbackPreference := current;
      PutGet(model.lanes, c, t, lane.Abs());
      model := model.(lanes := Put(model.lanes, c, t, lane.Abs()));
    }

    /** The lane of a track: created on its first mutation, re-based on the
        cache when its newest mutation has settled. */
    method OpenLane(c: ClientId, t: TrackId) returns (lane: MutationLane)
      requires Valid()
      modifies this`lanes, this`minted, this`model, lanes.Values
      ensures Valid() && fresh(lanes.Values - old(lanes.Values))
      ensures (c, t) in lanes && lane == lanes[(c, t)] && lane.Abs() == P.OpenLane(old(model), c, t)
      ensures model == old(model).(
                lanes := Put(old(model).lanes, c, t, P.OpenLane(old(model), c, t)),
                minted := if (c, t) in old(lanes) then old(minted) else old(minted) + 1)
    {
      hide P.Cached;
      var current := GetQueryData(c, t);
      if (c, t) !in lanes {
        lane := CreateLane(c, t, current);
      } else {
        lane := lanes[(c, t)];
        if lane.latestSettled {
          Rebase(c, t, lane, current);
        } else {
          SamePut(model.lanes, c, t, lane.Abs());
        }
      }
    }

    method ApplyOrdered(c: ClientId, t: TrackId, signal: P.Signal) returns (ctx: P.Context)
      requires Valid()
      modifies this, lanes.Values
      ensures Valid() && fresh(lanes.Values - old(lanes.Values))
      ensures (model, ctx) == P.Begin(old(model), c, t, signal)
      ensures P.Anticipates(P.Cached(model, c, t), t, signal) && ctx.trackId == t && ctx.previous == P.Cached(old(model), c, t)
    {
      hide P.OpenLane, P.Launch, Put, P.BuildOptimistic, P.Anticipates, P.Cached;
      var lane := OpenLane(c, t);
      ghost var entry := lane.Abs();
      PutPut(old(model).lanes, c, t, entry, P.Launch(entry));
      var generation := lane.StartGeneration();
      PutGet(model.lanes, c, t, lane.Abs());
      model := model.(lanes := Put(model.lanes, c, t, lane.Abs()));
      SameCacheShowsSame(old(model), model, c, t);
      var previous := ApplyOptimistic(c, t, signal);
      ctx := P.Context(t, previous, generation, lane.identity);
    }

    method CompleteOrdered(c: ClientId, ctx: P.Context, completion: P.Completion) returns (verdict: P.Verdict)
      requires Valid()
      modifies this`lanes, this`model, lanes.Values
      ensures Valid() && lanes.Values <= old(lanes.Values)
      ensures (model, verdict) == P.Complete(old(model), c, ctx, completion)
    {
      var key := (c, ctx.trackId);
      if key !in lanes {
        return P.Verdict(false, None);
      }
      var lane := lanes[key];
      if lane.identity != ctx.laneIdentity || ctx.generation !in lane.inFlightGenerations {
        return P.Verdict(false, None);
      }
      var isLatest := lane.FinishGeneration(ctx.generation, completion);
      verdict := P.Verdict(isLatest, lane.rollbackPreference);
      if lane.inFlightGenerations == {} {
        lanes := lanes - {key};
      }
      P.CompleteLanes(model, c, ctx, completion);
      model := P.Complete(model, c, ctx, completion).0;
    }

    method ResetOrdered(c: ClientId)
      requires Valid()
      modifies this`lanes, this`intents, this`model
      ensures Valid() && lanes.Values <= old(lanes.Values)
      ensures model == P.Reset(old(model), c)
    {
      var gone := set k | k in lanes && k.0 == c;
      lanes := lanes - gone;
      intents := intents - {c};
      model := P.Reset(model, c);
    }

    method ReserveIntent(c: ClientId, t: TrackId, tap: P.Tap) returns (intent: P.Intent)
      requires Valid()
      modifies this`intents, this`minted, this`model
      ensures Valid() && (model, intent) == P.Reserve(old(model), c, t, tap)
    {
      var current := P.Clear;
      if c in intents && t in intents[c] {
        current := intents[c][t].signal;
      } else {
        var cached := GetQueryData(c, t);
        if cached.Some? {
          current := cached.value.signal;
        }
      }
      intent := P.Intent(P.Resolve(tap, current), minted);
      minted := minted + 1;
      intents := Put(intents, c, t, intent);
      model := P.Reserve(model, c, t, tap).0;
    }

    method ReleaseIntent(c: ClientId, t: TrackId, intent: P.Intent)
      requires Valid()
      modifies this`intents, this`model
      ensures Valid() && model == P.Release(old(model), c, t, intent.token)
    {
      if c !in intents || t !in intents[c] || intents[c][t].token != intent.token {
        return;
      }
      intents := Drop(intents, c, t);
      model := P.Release(model, c, t, intent.token);
    }

    // The callbacks that useTrackPreference gives to the mutation.

    method OnMutate(c: ClientId, t: TrackId, signal: P.Signal) returns (context: Option<P.Context>)
      requires Valid()
      modifies this, lanes.Values
      ensures Valid() && fresh(lanes.Values - old(lanes.Values))
      ensures (model, context) == P.OnMutate(old(model), c, t, signal)
    {
      if t == "" {
        return None;
      }
      var ctx := ApplyOrdered(c, t, signal);
      context := Some(ctx);
    }

    method OnSuccess(c: ClientId, context: Option<P.Context>, data: P.Preference)
      requires Valid()
      modifies this, lanes.Values
      ensures Valid() && model == P.OnSuccess(old(model), c, context, data)
    {
      if context.None? {
        return;
      }
      var verdict := CompleteOrdered(c, context.value, P.Succeeded(data));
      if !verdict.isLatest {
        return;
      }
      SetQueryData(c, context.value.trackId, Some(data));
    }

    method OnError(c: ClientId, context: Option<P.Context>)
      requires Valid()
      modifies this, lanes.Values
      ensures Valid() && model == P.OnError(old(model), c, context)
    {
      if context.None? {
        return;
      }
      var verdict := CompleteOrdered(c, context.value, P.Failed);
      if !verdict.isLatest {
        return;
      }
      SetQueryData(c, context.value.trackId, verdict.rollback);
    }
  }
}
