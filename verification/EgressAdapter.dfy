/** The adapter of `EgressProbe` as it runs: a generation's counters, and one
    response's `send` wrapper, changed in place. */
module EgressAdapter {
  import opened Bytes
  import opened Tables
  import P = EgressProbe

  class EgressGeneration {
    var firstByteCount: nat
    var active: nat
    var peakActive: nat
    ghost var entered: set<int>
    ghost var exits: nat
    // the responses held now
    ghost var held: set<int>

    ghost function Snapshot(): P.Generation
      reads this
    {
      P.Generation(firstByteCount, active, peakActive, entered, exits)
    }

    /** The counters are true of the responses held. */
    ghost predicate Valid()
      reads this
    {
      P.Tallied(Snapshot(), |held|) && held <= entered
    }

    constructor ()
      ensures Valid() && Snapshot() == P.BEGUN.generation && held == {}
    {
      firstByteCount, active, peakActive, entered, exits, held := 0, 0, 0, {}, 0, {};
    }

    method Joined(ghost id: int)
      requires Valid() && id !in entered
      modifies this
      ensures Valid() && held == old(held) + {id}
      ensures Snapshot() == P.Joined(old(Snapshot()), id)
    {
      firstByteCount := firstByteCount + 1;
      active := active + 1;
      peakActive := Max(peakActive, active);
      entered := entered + {id};
      assert id !in held;
      held := held + {id};
    }

    method Left(ghost id: int)
      requires Valid() && id in held
      modifies this
      ensures Valid() && held == old(held) - {id}
      ensures Snapshot() == P.Left(old(Snapshot())) && active == old(active) - 1
    {
      active := Max(0, active - 1);
      exits := exits + 1;
      assert |held - {id}| == |held| - 1;
      held := held - {id};
    }
  }

  /** The `send` wrapper of one response; `sent` is what reached the server. */
  class Backpressure {
    const id: int
    const chunk: nat
    const generation: EgressGeneration
    var joined: bool
    var statusCode: Option<int>
    var stage: P.Stage
    var sent: seq<P.Message>
    ghost var received: seq<P.Message>
    ghost var broken: bool

    ghost function Snapshot(): P.Response
      reads this
    {
      P.Response(joined, statusCode, stage, received, sent, broken)
    }

    /** What was passed on and what is owed are what was received, and the
        generation counts this response while it is held. */
    ghost predicate Valid()
      reads this, generation
    {
      && P.Sound(Snapshot(), chunk) && generation.Valid()
      && (id in generation.held <==> stage.Held?)
      && (id in generation.entered ==> joined && !stage.Sending?)
      && (!stage.Ready? ==> joined)
    }

    constructor (id: int, chunk: nat, generation: EgressGeneration)
      requires chunk >= 1 && generation.Valid() && id !in generation.entered
      ensures this.generation == generation && this.id == id && this.chunk == chunk && Snapshot() == P.OPENED && Valid()
    {
      this.id, this.chunk, this.generation := id, chunk, generation;
      joined, statusCode, stage, sent, received, broken := false, None, P.Ready, [], [], false;
    }

    /** Up to where the message, or its first chunk, is being sent. */
    method Send(message: P.Message)
      requires Valid() && stage.Ready?
      modifies this
      ensures Valid() && Snapshot() == P.Receive(old(Snapshot()), message, chunk)
    {
      hide P.Sound;
      P.ReceiveKeepsSound(Snapshot(), message, chunk);
      received := received + [message];
      if message.Start? {
        statusCode := Some(message.status);
      }
      if message.Body? && statusCode in {Some(200), Some(206)} && message.body != [] && !joined {
        joined := true;
        var first := P.Body(message.body[..Min(chunk, |message.body|)], true);
        sent := sent + [first];
        stage := P.Sending(message);
      } else {
        sent := sent + [message];
      }
    }

    /** The first chunk is sent: join and wait. */
    method Hold()
      requires Valid() && stage.Sending?
      modifies this, generation
      ensures Valid() && generation.held == old(generation.held) + {id}
      ensures Snapshot() == old(Snapshot()).(stage := P.Held(old(stage).message))
      ensures generation.Snapshot() == P.Joined(old(generation.Snapshot()), id)
    {
      hide P.Sound;
      P.WaitKeepsSound(Snapshot(), chunk);
      generation.Joined(id);
      stage := P.Held(stage.message);
    }

    method Resume()
      requires Valid() && stage.Held?
      modifies this, generation
      ensures Valid() && generation.held == old(generation.held) - {id}
      ensures Snapshot() == P.Resume(old(Snapshot()), chunk)
      ensures generation.Snapshot() == P.Left(old(generation.Snapshot()))
    {
      P.WaitKeepsSound(Snapshot(), chunk);
      assert stage.message.Body?;
      hide P.Sound;
      generation.Left(id);
      var message := stage.message;
      var remainder := message.body[Min(chunk, |message.body|)..];
      if remainder != [] || !message.more {
        sent := sent + [P.Body(remainder, message.more)];
      } else {
        assert sent == sent + [];
      }
      stage := P.Ready;
      assert Snapshot() == P.Resume(old(Snapshot()), chunk);
    }

    /** Sending the first chunk, or the wait, raises; whoever waited leaves. */
    method Raise()
      requires Valid() && !stage.Ready?
      modifies this, generation
      ensures Valid() && generation.held == old(generation.held) - {id}
      ensures Snapshot() == P.Break(old(Snapshot()))
      ensures generation.Snapshot() == if old(stage).Held? then P.Left(old(generation.Snapshot())) else old(generation.Snapshot())
    {
      hide P.Sound;
      P.WaitKeepsSound(Snapshot(), chunk);
      if stage.Held? {
        generation.Left(id);
      }
      stage, broken := P.Ready, true;
    }
  }
}
