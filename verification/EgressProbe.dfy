/** The ASGI adapter that holds each playback response after its first bytes.

    A response's `send` wrapper is cut where it awaits: while the first chunk is
    being sent, and while the response is held for the release. Any number of
    responses run at once; `World` is what they share and their states. */
module EgressProbe {
  import opened Bytes
  import opened Tables

  datatype Message = Start(status: int) | Body(body: seq<Byte>, more: bool) | Other(kind: string)

  datatype Stage = Ready | Sending(message: Message) | Held(message: Message)

  /** One response: the wrapper's two variables, where it waits, what the
      application has sent it and what it has passed on. `broken` once a send
      or the wait has raised. */
  datatype Response = Response(
    joined: bool, status: Option<int>, stage: Stage, received: seq<Message>, sent: seq<Message>, broken: bool)

  /** `entered` and `exits` only observe: who has joined, and how often one left. */
  datatype Generation = Generation(firstBytes: nat, active: nat, peak: nat, entered: set<int>, exits: nat)

  datatype World = World(generation: Generation, responses: map<int, Response>, released: bool)

  const OPENED := Response(false, None, Ready, [], [], false)
  const BEGUN := World(Generation(0, 0, 0, {}, 0), map[], false)

  // ------------------------------------------------------------ one response

  /** Whether a message is the one to hold. */
  predicate Holds(r: Response, message: Message) {
    message.Body? && r.status in {Some(200), Some(206)} && message.body != [] && !r.joined
  }

  function First(message: Message, chunk: nat): Message
    requires message.Body?
  {
    Body(message.body[..Min(chunk, |message.body|)], true)
  }

  /** What is sent after the release: nothing if no byte is left and more will come. */
  function Rest(message: Message, chunk: nat): seq<Message>
    requires message.Body?
  {
    var remainder := message.body[Min(chunk, |message.body|)..];
    if remainder != [] || !message.more then [Body(remainder, message.more)] else []
  }

  function Receive(r: Response, message: Message, chunk: nat): Response {
    var r := r.(received := r.received + [message], status := if message.Start? then Some(message.status) else r.status);
    if Holds(r, message) then r.(joined := true, stage := Sending(message), sent := r.sent + [First(message, chunk)])
    else r.(sent := r.sent + [message])
  }

  function Resume(r: Response, chunk: nat): Response
    requires r.stage.Held? && r.stage.message.Body?
  {
    r.(stage := Ready, sent := r.sent + Rest(r.stage.message, chunk))
  }

  function Break(r: Response): Response {
    r.(stage := Ready, broken := true)
  }

  // -------------------------------------------------------------- generation

  function Joined(g: Generation, id: int): Generation {
    g.(firstBytes := g.firstBytes + 1, active := g.active + 1,
       peak := Max(g.peak, g.active + 1), entered := g.entered + {id})
  }

  function Left(g: Generation): Generation {
    g.(active := Max(0, g.active - 1), exits := g.exits + 1)
  }

  // ------------------------------------------------------------------- steps

  datatype Event =
    | Opens(id: int)
    | Sends(id: int, message: Message)
    | FirstSent(id: int)
    | FirstRaises(id: int)
    | Releases
    | Resumes(id: int)
    | WaitRaises(id: int)

  predicate Enabled(w: World, e: Event) {
    match e
    case Opens(id) => id !in w.responses
    case Sends(id, _) => id in w.responses && w.responses[id].stage.Ready?
    case FirstSent(id) => id in w.responses && w.responses[id].stage.Sending?
    case FirstRaises(id) => id in w.responses && w.responses[id].stage.Sending?
    case Releases => true
    case Resumes(id) => id in w.responses && w.responses[id].stage.Held? && w.responses[id].stage.message.Body? && w.released
    case WaitRaises(id) => id in w.responses && w.responses[id].stage.Held?
  }

  function Next(w: World, e: Event, chunk: nat): World
    requires Enabled(w, e)
  {
    match e
    case Opens(id) => w.(responses := w.responses[id := OPENED])
    case Sends(id, message) => w.(responses := w.responses[id := Receive(w.responses[id], message, chunk)])
    case FirstSent(id) =>
      var r := w.responses[id];
      World(Joined(w.generation, id), w.responses[id := r.(stage := Held(r.stage.message))], w.released)
    case FirstRaises(id) => w.(responses := w.responses[id := Break(w.responses[id])])
    case Releases => w.(released := true)
    case Resumes(id) => World(Left(w.generation), w.responses[id := Resume(w.responses[id], chunk)], w.released)
    case WaitRaises(id) => World(Left(w.generation), w.responses[id := Break(w.responses[id])], w.released)
  }

  ghost predicate Legal(w: World, events: seq<Event>, chunk: nat)
    decreases |events|
  {
    events != [] ==> Enabled(w, events[0]) && Legal(Next(w, events[0], chunk), events[1..], chunk)
  }

  ghost function After(w: World, events: seq<Event>, chunk: nat): World
    requires Legal(w, events, chunk)
    decreases |events|
  {
    if events == [] then w else After(Next(w, events[0], chunk), events[1..], chunk)
  }

  // ------------------------------------------------------- the stream it is

  /** What a client can tell of a response: statuses, body bytes one by one,
      where the body ends, and any other message. */
  datatype Mark = Status(status: int) | Octet(value: Byte) | End | Else(kind: string)

  ghost function Octets(body: seq<Byte>): seq<Mark> {
    seq(|body|, i requires 0 <= i < |body| => Octet(body[i]))
  }

  ghost function Marks(m: Message): seq<Mark> {
    match m
    case Start(status) => [Status(status)]
    case Body(body, more) => Octets(body) + if more then [] else [End]
    case Other(kind) => [Else(kind)]
  }

  ghost function Stream(messages: seq<Message>): seq<Mark> {
    if messages == [] then [] else Stream(messages[..|messages| - 1]) + Marks(messages[|messages| - 1])
  }

  lemma StreamAppend(messages: seq<Message>, m: Message)
    ensures Stream(messages + [m]) == Stream(messages) + Marks(m)
  {
    assert (messages + [m])[..|messages|] == messages;
  }

  lemma OctetsSplit(body: seq<Byte>, n: nat)
    requires n <= |body|
    ensures Octets(body) == Octets(body[..n]) + Octets(body[n..])
  {
  }

  lemma Regroup(a: seq<Mark>, b: seq<Mark>, c: seq<Mark>)
    ensures (a + b) + c == a + (b + c) && a + [] == a
  {
  }

  lemma MarksSplit(message: Message, n: nat)
    requires message.Body? && n <= |message.body|
    ensures Marks(Body(message.body[..n], true)) + Marks(Body(message.body[n..], message.more)) == Marks(message)
    ensures message.more && message.body[n..] == [] ==> Marks(Body(message.body[..n], true)) == Marks(message)
  {
    var ending := if message.more then [] else [End];
    OctetsSplit(message.body, n);
    Regroup(Octets(message.body[..n]), Octets(message.body[n..]), ending);
    if message.body[n..] == [] { assert message.body[..n] == message.body; }
    hide Octets;
  }

  /** The first chunk and the rest together are the message they stand for. */
  lemma SplitIsWhole(message: Message, chunk: nat, before: seq<Message>)
    requires message.Body?
    ensures Stream(before + [First(message, chunk)] + Rest(message, chunk)) == Stream(before + [message])
  {
    hide Stream, Marks;
    var n := Min(chunk, |message.body|);
    var first, rest := First(message, chunk), Body(message.body[n..], message.more);
    StreamAppend(before, first);
    StreamAppend(before, message);
    StreamAppend(before + [first], rest);
    MarksSplit(message, n);
    Regroup(Stream(before), Marks(first), Marks(rest));
    if Rest(message, chunk) == [] { assert before + [first] + [] == before + [first]; }
  }

  /** A waiting response owes its client exactly the rest of the message it holds. */
  ghost predicate Faithful(r: Response, chunk: nat) {
    !r.broken ==>
      if r.stage.Ready? then Stream(r.sent) == Stream(r.received)
      else r.stage.message.Body? && Stream(r.sent + Rest(r.stage.message, chunk)) == Stream(r.received)
  }

  /** The status the application announced last. */
  function StatusOf(messages: seq<Message>): Option<int> {
    if messages == [] then None
    else var last := messages[|messages| - 1]; if last.Start? then Some(last.status) else StatusOf(messages[..|messages| - 1])
  }

  /** Whether some message carried a media byte: body of a 200 or a 206. */
  predicate CarriedMedia(messages: seq<Message>) {
    messages != [] &&
    var front, last := messages[..|messages| - 1], messages[|messages| - 1];
    CarriedMedia(front) || (last.Body? && last.body != [] && StatusOf(front) in {Some(200), Some(206)})
  }

  /** A response has joined exactly if a media byte came, and waits only after
      passing on the first chunk of a message that carries one. */
  ghost predicate Tracked(r: Response, chunk: nat) {
    && r.status == StatusOf(r.received) && r.joined == CarriedMedia(r.received)
    && (!r.stage.Ready? ==> r.stage.message.Body? && r.stage.message.body != []
                            && r.sent != [] && r.sent[|r.sent| - 1] == First(r.stage.message, chunk))
  }

  lemma OneMoreReceived(messages: seq<Message>, m: Message)
    ensures StatusOf(messages + [m]) == if m.Start? then Some(m.status) else StatusOf(messages)
    ensures CarriedMedia(messages + [m]) <==>
            CarriedMedia(messages) || (m.Body? && m.body != [] && StatusOf(messages) in {Some(200), Some(206)})
  {
    assert (messages + [m])[..|messages|] == messages;
  }

  lemma ReceiveKeepsTracked(r: Response, message: Message, chunk: nat)
    requires Tracked(r, chunk) && r.stage.Ready?
    ensures Tracked(Receive(r, message, chunk), chunk)
  {
    hide First, StatusOf, CarriedMedia;
    OneMoreReceived(r.received, message);
  }

  lemma ReceiveKeepsFaithful(r: Response, message: Message, chunk: nat)
    requires Faithful(r, chunk) && r.stage.Ready?
    ensures Faithful(Receive(r, message, chunk), chunk)
  {
    hide Stream, Marks, Rest, First;
    StreamAppend(r.received, message);
    StreamAppend(r.sent, message);
    if message.Body? { SplitIsWhole(message, chunk, r.sent); }
  }

  // ------------------------------------------------------------- invariant

  ghost function Holding(w: World): set<int> {
    set id | id in w.responses && w.responses[id].stage.Held?
  }

  /** The counters count, when `holding` responses are held. */
  ghost predicate Tallied(g: Generation, holding: nat) {
    && g.active == holding
    && g.firstBytes == |g.entered| == g.active + g.exits
    && g.active <= g.peak <= g.firstBytes
  }

  /** Who ever held has joined, once; who waits has joined with a body. */
  ghost predicate Marked(w: World) {
    && (forall id | id in w.generation.entered :: id in w.responses && w.responses[id].joined && !w.responses[id].stage.Sending?)
    && (forall id | id in w.responses && !w.responses[id].stage.Ready? :: w.responses[id].joined && w.responses[id].stage.message.Body?)
  }

  ghost predicate Counted(w: World) {
    Tallied(w.generation, |Holding(w)|) && Marked(w)
  }

  ghost predicate AllSound(responses: map<int, Response>, chunk: nat) {
    forall id | id in responses :: Sound(responses[id], chunk)
  }

  ghost predicate Inv(w: World, chunk: nat) {
    Counted(w) && AllSound(w.responses, chunk)
  }

  lemma HoldingAfter(w: World, id: int, r: Response, g: Generation)
    ensures Holding(World(g, w.responses[id := r], w.released)) == if r.stage.Held? then Holding(w) + {id} else Holding(w) - {id}
  {
  }

  lemma JoinKeepsCounted(w: World, id: int)
    requires Counted(w) && Enabled(w, FirstSent(id))
    ensures Counted(Next(w, FirstSent(id), 0))
  {
    var r := w.responses[id];
    HoldingAfter(w, id, r.(stage := Held(r.stage.message)), Joined(w.generation, id));
    assert id !in Holding(w);
    hide Holding;
  }

  lemma LeaveKeepsCounted(w: World, id: int, r: Response)
    requires Counted(w) && id in w.responses && w.responses[id].stage.Held? && r.stage.Ready? && r.joined
    ensures w.generation.active >= 1 && Counted(World(Left(w.generation), w.responses[id := r], w.released))
  {
    HoldingAfter(w, id, r, Left(w.generation));
    assert id in Holding(w);
    assert |Holding(w) - {id}| == |Holding(w)| - 1;
    hide Holding;
  }

  /** The first message of a response makes it no holder yet. */
  lemma StayKeepsCounted(w: World, id: int, r: Response)
    requires Counted(w) && (id in w.responses ==> !w.responses[id].stage.Held?) && !r.stage.Held?
    requires id in w.generation.entered ==> r.joined && r.stage.Ready?
    requires !r.stage.Ready? ==> r.joined && r.stage.message.Body?
    ensures Counted(w.(responses := w.responses[id := r]))
  {
    var w' := w.(responses := w.responses[id := r]);
    HoldingAfter(w, id, r, w.generation);
    assert id !in Holding(w);
    hide Holding, Tallied;
    assert Holding(w') == Holding(w);
  }

  /** The counters stay true; whoever leaves is counted, so the clamp at zero is idle. */
  lemma StepKeepsCounted(w: World, e: Event, chunk: nat)
    requires Counted(w) && Enabled(w, e)
    ensures Counted(Next(w, e, chunk))
    ensures e.Resumes? || e.WaitRaises? ==> w.generation.active >= 1
  {
    match e
    case Opens(id) => StayKeepsCounted(w, id, OPENED);
    case Sends(id, message) =>
      var r := Receive(w.responses[id], message, chunk);
      hide Rest, First;
      StayKeepsCounted(w, id, r);
    case FirstSent(id) => JoinKeepsCounted(w, id);
    case FirstRaises(id) => StayKeepsCounted(w, id, Break(w.responses[id]));
    case Releases => assert Holding(Next(w, e, chunk)) == Holding(w);
    case Resumes(id) => LeaveKeepsCounted(w, id, Resume(w.responses[id], chunk));
    case WaitRaises(id) => LeaveKeepsCounted(w, id, Break(w.responses[id]));
  }

  ghost predicate Sound(r: Response, chunk: nat) {
    Faithful(r, chunk) && Tracked(r, chunk)
  }

  lemma ReceiveKeepsSound(r: Response, message: Message, chunk: nat)
    requires Sound(r, chunk) && r.stage.Ready?
    ensures Sound(Receive(r, message, chunk), chunk)
  {
    ReceiveKeepsFaithful(r, message, chunk);
    ReceiveKeepsTracked(r, message, chunk);
    hide Receive, Faithful, Tracked;
  }

  /** A response that stops waiting has paid what it owed, or is broken. */
  lemma WaitKeepsSound(r: Response, chunk: nat)
    requires Sound(r, chunk)
    ensures Sound(Break(r), chunk)
    ensures r.stage.Sending? ==> Sound(r.(stage := Held(r.stage.message)), chunk)
    ensures r.stage.Held? ==> Sound(Resume(r, chunk), chunk)
  {
    hide Stream, Rest, First;
  }

  lemma OneMoreSound(responses: map<int, Response>, id: int, r: Response, chunk: nat)
    requires AllSound(responses, chunk) && Sound(r, chunk)
    ensures AllSound(responses[id := r], chunk)
  {
    hide Sound;
  }

  lemma StepKeepsSound(w: World, e: Event, chunk: nat)
    requires AllSound(w.responses, chunk) && Enabled(w, e)
    ensures AllSound(Next(w, e, chunk).responses, chunk)
  {
    if e.Sends? {
      ReceiveKeepsSound(w.responses[e.id], e.message, chunk);
    } else if e.FirstSent? || e.FirstRaises? || e.Resumes? || e.WaitRaises? {
      WaitKeepsSound(w.responses[e.id], chunk);
    }
    assert Sound(OPENED, chunk);
    var w' := Next(w, e, chunk);
    if !e.Releases? {
      assert Sound(w'.responses[e.id], chunk);
      OneMoreSound(w.responses, e.id, w'.responses[e.id], chunk);
    }
    hide AllSound, Sound, Receive, Break, Resume;
  }

  lemma StepKeepsInv(w: World, e: Event, chunk: nat)
    requires Inv(w, chunk) && Enabled(w, e)
    ensures Inv(Next(w, e, chunk), chunk)
  {
    hide Counted, AllSound, Next, Enabled;
    StepKeepsCounted(w, e, chunk);
    StepKeepsSound(w, e, chunk);
  }

  lemma {:induction false} RunKeepsInv(w: World, events: seq<Event>, chunk: nat)
    requires Inv(w, chunk) && Legal(w, events, chunk)
    ensures Inv(After(w, events, chunk), chunk)
    decreases |events|
  {
    hide Inv, Next, Enabled;
    if events == [] {
    } else {
      StepKeepsInv(w, events[0], chunk);
      RunKeepsInv(Next(w, events[0], chunk), events[1..], chunk);
    }
  }

  // ------------------------------------------------------------ main results

  lemma BegunInv(chunk: nat)
    ensures Inv(BEGUN, chunk)
  {
    assert Holding(BEGUN) == {};
  }

  /** Whatever the interleaving, a response that is not waiting has given its
      client the very stream the application sent. */
  lemma StreamsArePreserved(events: seq<Event>, chunk: nat, id: int)
    requires Legal(BEGUN, events, chunk)
    ensures var w := After(BEGUN, events, chunk);
            id in w.responses && w.responses[id].stage.Ready? && !w.responses[id].broken
            ==> Stream(w.responses[id].sent) == Stream(w.responses[id].received)
  {
    hide Legal, After, Counted, Tracked, Stream;
    BegunInv(chunk);
    RunKeepsInv(BEGUN, events, chunk);
  }

  lemma FirstIsSome(message: Message, chunk: nat)
    requires message.Body? && message.body != [] && chunk >= 1
    ensures 1 <= |Marks(First(message, chunk))| == (if chunk < |message.body| then chunk else |message.body|)
    ensures Marks(First(message, chunk)) <= Marks(message)
    ensures End !in Marks(First(message, chunk))
  {
  }

  /** What is passed on of a message: the first media bytes only, and as an
      unfinished body, where the response has to wait with them; else all of it. */
  lemma SendDecides(r: Response, message: Message, chunk: nat)
    ensures var r' := Receive(r, message, chunk);
            && r'.received == r.received + [message] && r'.broken == r.broken
            && if message.Body? && message.body != [] && (r.status == Some(200) || r.status == Some(206)) && !r.joined then
                 && r'.joined && r'.stage == Sending(message) && r'.status == r.status
                 && r'.sent == r.sent + [Body(if chunk < |message.body| then message.body[..chunk] else message.body, true)]
               else
                 && r'.joined == r.joined && r'.stage == r.stage && r'.sent == r.sent + [message]
                 && r'.status == if message.Start? then Some(message.status) else r.status
  {
    if message.Body? { assert message.body[..|message.body|] == message.body; }
  }

  /** What is passed on once released: the bytes after the first ones with the
      message's own end, and nothing at all if there are none and more will come. */
  lemma ReleaseDecides(r: Response, chunk: nat)
    requires r.stage.Held? && r.stage.message.Body?
    ensures var message, r' := r.stage.message, Resume(r, chunk);
            && r' == r.(stage := Ready, sent := r'.sent)
            && r'.sent == if |message.body| > chunk then r.sent + [Body(message.body[chunk..], message.more)]
                          else if message.more then r.sent else r.sent + [Body([], false)]
  {
    var body := r.stage.message.body;
    if |body| <= chunk {
      assert body[|body|..] == [];
      assert r.sent + [] == r.sent;
    }
  }

  /** What else happens to a response: it opens with nothing sent, its first chunk
      is through and it waits, or something raises. No other response is touched. */
  lemma EventDecides(w: World, e: Event, chunk: nat)
    requires Enabled(w, e) && !e.Releases?
    ensures var w', id := Next(w, e, chunk), e.id;
            && id in w'.responses && w'.released == w.released && w'.responses == w.responses[id := w'.responses[id]]
            && var r' := w'.responses[id];
               && (e.Opens? ==> !r'.joined && r'.status.None? && r'.stage.Ready? && r'.received == r'.sent == [] && !r'.broken)
               && (e.FirstSent? ==> r' == w.responses[id].(stage := Held(w.responses[id].stage.message)))
               && (e.FirstRaises? || e.WaitRaises? ==> r' == w.responses[id].(stage := Ready, broken := true))
               && (e.Sends? ==> r' == Receive(w.responses[id], e.message, chunk))
               && (e.Resumes? ==> r' == Resume(w.responses[id], chunk))
  {
    hide Receive, Resume, Joined, Left;
  }

  /** Nobody who waits for the release gets away before it, but by an exception. */
  ghost predicate Waiting(w: World) {
    !w.released ==> forall id | id in w.responses :: w.responses[id].joined && !w.responses[id].broken ==> !w.responses[id].stage.Ready?
  }

  lemma StepKeepsWaiting(w: World, e: Event, chunk: nat)
    requires Waiting(w) && Enabled(w, e)
    ensures Waiting(Next(w, e, chunk)) && (Next(w, e, chunk).released <==> w.released || e.Releases?)
  {
    hide First, Rest, Joined, Left;
  }

  lemma {:induction false} RunKeepsWaiting(w: World, events: seq<Event>, chunk: nat)
    requires Waiting(w) && Legal(w, events, chunk)
    ensures Waiting(After(w, events, chunk))
    ensures After(w, events, chunk).released <==> w.released || Releases in events
    decreases |events|
  {
    hide Next, Enabled, Waiting;
    if events == [] {
    } else {
      StepKeepsWaiting(w, events[0], chunk);
      RunKeepsWaiting(Next(w, events[0], chunk), events[1..], chunk);
      assert events == [events[0]] + events[1..];
    }
  }

  /** Before the release every response that has got a media byte through is
      still waiting with it, unless something raised. */
  lemma HeldUntilReleased(events: seq<Event>, chunk: nat, id: int)
    requires Legal(BEGUN, events, chunk) && Releases !in events
    ensures var w := After(BEGUN, events, chunk);
            id in w.responses && CarriedMedia(w.responses[id].received) && !w.responses[id].broken
            ==> w.responses[id].stage.Sending? || w.responses[id].stage.Held?
  {
    hide Legal, After, CarriedMedia, Counted, Faithful;
    BegunInv(chunk);
    RunKeepsInv(BEGUN, events, chunk);
    RunKeepsWaiting(BEGUN, events, chunk);
  }

  /** A response is held once a media byte came, and then its client has exactly the
      first `chunk` bytes of the held message, or all if it has fewer, and not its end. */
  lemma HeldAfterTheFirstBytes(events: seq<Event>, chunk: nat, id: int)
    requires chunk >= 1 && Legal(BEGUN, events, chunk) && id in After(BEGUN, events, chunk).responses
    ensures var r := After(BEGUN, events, chunk).responses[id];
            && r.joined == CarriedMedia(r.received)
            && (r.stage.Held? ==>
                  r.sent != [] && var chunkSent := Marks(r.sent[|r.sent| - 1]);
                  && r.stage.message.Body? && 1 <= |chunkSent| == (if chunk < |r.stage.message.body| then chunk else |r.stage.message.body|)
                  && chunkSent <= Marks(r.stage.message) && End !in chunkSent)
  {
    hide Legal, After, Marks, Counted, Faithful, First, CarriedMedia;
    BegunInv(chunk);
    RunKeepsInv(BEGUN, events, chunk);
    var r := After(BEGUN, events, chunk).responses[id];
    assert Sound(r, chunk);
    hide AllSound, Inv;
    if r.stage.Held? { FirstIsSome(r.stage.message, chunk); }
  }

  /** The most responses held at once at any point of a run. */
  ghost function Highest(w: World, events: seq<Event>, chunk: nat): nat
    requires Legal(w, events, chunk)
    decreases |events|
  {
    var here := |Holding(w)|;
    if events == [] then here
    else var later := Highest(Next(w, events[0], chunk), events[1..], chunk); if here < later then later else here
  }

  lemma StepRaisesPeak(w: World, e: Event, chunk: nat)
    requires Counted(w) && Enabled(w, e)
    ensures var w' := Next(w, e, chunk);
            w'.generation.peak == if w.generation.peak < |Holding(w')| then |Holding(w')| else w.generation.peak
  {
    StepKeepsCounted(w, e, chunk);
    hide Holding, Receive, Resume;
  }

  lemma {:induction false} PeakIsHighest(w: World, events: seq<Event>, chunk: nat)
    requires Inv(w, chunk) && Legal(w, events, chunk)
    ensures var highest := Highest(w, events, chunk);
            After(w, events, chunk).generation.peak == if w.generation.peak < highest then highest else w.generation.peak
    decreases |events|
  {
    assert |Holding(w)| <= w.generation.peak;
    hide Next, Enabled, Holding;
    if events == [] {
    } else {
      StepKeepsInv(w, events[0], chunk);
      StepRaisesPeak(w, events[0], chunk);
      PeakIsHighest(Next(w, events[0], chunk), events[1..], chunk);
    }
  }

  lemma TalliedFits(w: World)
    requires Counted(w)
    ensures w.generation.active == |Holding(w)| == w.generation.firstBytes - w.generation.exits
    ensures w.generation.firstBytes <= |w.responses|
  {
    hide Holding;
    var entered, all := w.generation.entered, w.responses.Keys;
    forall id | id in entered ensures id in all {}
    assert all == entered + (all - entered);
  }

  /** `active` is the number of responses held, `peak_active` the most that ever
      were, and those who joined are those still held and those who left. */
  lemma CountersAreTrue(events: seq<Event>, chunk: nat)
    requires Legal(BEGUN, events, chunk)
    ensures var w := After(BEGUN, events, chunk);
            && w.generation.active == |Holding(w)| == w.generation.firstBytes - w.generation.exits
            && w.generation.peak == Highest(BEGUN, events, chunk)
            && w.generation.firstBytes <= |w.responses|
  {
    hide Legal, After, Highest, Holding, Counted, AllSound;
    BegunInv(chunk);
    RunKeepsInv(BEGUN, events, chunk);
    PeakIsHighest(BEGUN, events, chunk);
    TalliedFits(After(BEGUN, events, chunk));
  }
}
