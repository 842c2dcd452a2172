/**
 Capture sessions, their owners and their read-only subscribers, as the state
 changes between two suspension points of the asyncio event loop.
 */
module Sessions {
  import opened Bytes
  import opened Pcapng
  import Framer

  type Socket = nat
  type SessionId = nat
  type Iface = string

  const QUEUE_BLOCKS := 1024
  const MAX_SUBSCRIBERS := 4

  /** What a subscriber queue holds: JSON events, capture bytes, the slow-subscriber close, the end mark. */
  datatype Item = Subscribed(session: SessionId) | Data(bytes: seq<Byte>) | Ended(session: SessionId) | Close | Done

  /** The coroutine that drains one subscriber's queue. */
  datatype Sender = NoTask | Waiting | Sending(item: Item) | TimedOut(item: Item)

  /** Where a socket's own command loop is suspended. */
  datatype Phase = Idle | Claimed | Ready | Stopping | Subscribing(session: SessionId) | Leaving | LeavingStop | Left

  datatype Stream = Off | Running | Cancelled

  datatype Client = Client(
    interfaces: set<Iface>,
    sessionId: Option<SessionId>,
    subscribers: set<Socket>,
    subscribedTo: Option<SessionId>,
    queue: Option<seq<Item>>,
    closing: bool,
    sender: Sender,
    framer: Framer.State,
    phase: Phase,
    stream: Stream,
    // History of the latest subscription: session, blocks framed before it, header replayed, items delivered.
    feedOf: Option<SessionId>,
    joinAt: nat,
    hello: seq<Byte>,
    sent: seq<Item>)

  const NEW_CLIENT := Client({}, None, {}, None, None, false, NoTask, Framer.INITIAL, Idle, Off, None, 0, [], [])

  /** `logs` is history: every block framed in each session so far. */
  datatype Registry = Registry(
    clients: map<Socket, Client>,
    owners: map<Iface, Socket>,
    sessions: map<SessionId, Socket>,
    logs: map<SessionId, seq<Block>>)

  const EMPTY := Registry(map[], map[], map[], map[])

  function Put(r: Registry, w: Socket, c: Client): Registry { r.(clients := r.clients[w := c]) }

  // ---------------------------------------------------------------- interfaces

  function Conflicts(r: Registry, w: Socket, wanted: set<Iface>): set<Iface> {
    set i | i in wanted && i in r.owners && r.owners[i] != w
  }

  function Claim(r: Registry, w: Socket, wanted: set<Iface>): Registry
    requires w in r.clients
  {
    if Conflicts(r, w, wanted) != {} then r
    else Put(r, w, r.clients[w].(interfaces := wanted)).(owners := r.owners + map i | i in wanted :: w)
  }

  function Release(r: Registry, w: Socket): Registry {
    if w !in r.clients then r
    else
      var mine := set i | i in r.clients[w].interfaces && i in r.owners && r.owners[i] == w;
      Put(r, w, r.clients[w].(interfaces := {})).(owners := r.owners - mine)
  }

  // ---------------------------------------------------------------- subscriptions

  function Unlisted(r: Registry, s: Option<SessionId>, w: Socket): Registry {
    if s.Some? && s.value in r.sessions && r.sessions[s.value] in r.clients then
      var o := r.sessions[s.value];
      Put(r, o, r.clients[o].(subscribers := r.clients[o].subscribers - {w}))
    else r
  }

  /** Forget a subscription, if it is still the expected one; its sender ends. */
  function Clear(r: Registry, w: Socket, expected: Option<SessionId>): Registry {
    if w !in r.clients || (expected.Some? && r.clients[w].subscribedTo != expected) then r
    else
      var c := r.clients[w];
      Unlisted(Put(r, w, c.(subscribedTo := None, queue := None, closing := false, sender := NoTask)), c.subscribedTo, w)
  }

  /** Drop everything queued; only the close is still to be sent. */
  function Evict(c: Client): Client {
    if c.queue.None? || c.closing then c else c.(closing := true, queue := Some([Close]))
  }

  function Offer(c: Client, x: Item): Client
    requires c.queue.Some?
  {
    if |c.queue.value| < QUEUE_BLOCKS then c.(queue := Some(c.queue.value + [x])) else Evict(c)
  }

  /** A listed socket that takes this session's blocks. */
  predicate Listens(r: Registry, s: SessionId, w: Socket) {
    w in r.clients && r.clients[w].subscribedTo == Some(s) && !r.clients[w].closing && r.clients[w].queue.Some?
  }

  predicate HasRoom(r: Registry, w: Socket) {
    w in r.clients && r.clients[w].queue.Some? && |r.clients[w].queue.value| < QUEUE_BLOCKS
  }

  /** One framed block to every listed subscriber; a full one is unlisted and closed. */
  function QueueBlock(r: Registry, owner: Socket, s: SessionId, b: Block): Registry
    requires owner in r.clients
  {
    var listed := r.clients[owner].subscribers;
    var kept := set w | w in listed && Listens(r, s, w) && HasRoom(r, w);
    var served := r.(clients := map w | w in r.clients ::
      if w in listed && Listens(r, s, w) then Offer(r.clients[w], Data(b)) else r.clients[w]);
    Put(served, owner, served.clients[owner].(subscribers := kept))
    .(logs := if s in r.logs then r.logs[s := r.logs[s] + [b]] else r.logs)
  }

  function QueueBlocks(r: Registry, owner: Socket, s: SessionId, bs: seq<Block>): (q: Registry)
    requires owner in r.clients
    ensures q.clients.Keys == r.clients.Keys
    decreases |bs|
  {
    if bs == [] then r else QueueBlocks(QueueBlock(r, owner, s, bs[0]), owner, s, bs[1..])
  }

  /** The end event and the end mark, or the close when they do not fit. */
  function Finish(c: Client, s: SessionId): Client
    requires c.queue.Some?
  {
    if |c.queue.value| + 2 <= QUEUE_BLOCKS then c.(queue := Some(c.queue.value + [Ended(s), Done]))
    else Evict(c)
  }

  /** Unregister a finished capture; its subscribers are told and unlisted. */
  function EndSession(r: Registry, owner: Socket): Registry
    requires owner in r.clients
  {
    var c := r.clients[owner];
    var told := r.(clients := map w | w in r.clients ::
      if w in c.subscribers && c.sessionId.Some? && r.clients[w].subscribedTo == c.sessionId && r.clients[w].queue.Some?
      then Finish(r.clients[w], c.sessionId.value) else r.clients[w]);
    Put(told, owner, told.clients[owner].(sessionId := None, subscribers := {}, framer := Framer.INITIAL))
    .(sessions := if c.sessionId.Some? then r.sessions - {c.sessionId.value} else r.sessions)
  }

  // ---------------------------------------------------------------- steps

  datatype Step =
    | Connect(w: Socket)
    | StartClaim(w: Socket, wanted: set<Iface>)
    | StartReset(w: Socket)
    | StartFail(w: Socket)
    | Launch(w: Socket, session: SessionId)
    | Chunk(w: Socket, bytes: seq<Byte>)
    | StreamEnd(w: Socket)
    | StopBegin(w: Socket)
    | StopEnd(w: Socket)
    | SubscribeBegin(w: Socket, session: SessionId)
    | SubscribeEnd(w: Socket)
    | Unsubscribe(w: Socket)
    | SenderTake(w: Socket)
    | SenderSent(w: Socket)
    | SenderTimeout(w: Socket)
    | SenderFail(w: Socket)
    | SenderClosed(w: Socket)
    | DisconnectBegin(w: Socket)
    | DisconnectPop(w: Socket)

  /** The segment a step stands for may run now. */
  predicate Enabled(r: Registry, step: Step) {
    if step.Connect? then step.w !in r.clients
    else
      step.w in r.clients
      && var c := r.clients[step.w];
      match step
      case Connect(_) => false
      case StartClaim(_, _) => c.phase == Idle && c.subscribedTo.None? && c.stream == Off
      case StartReset(_) => c.phase == Claimed
      case StartFail(_) => c.phase == Claimed || c.phase == Ready
      case Launch(_, s) => c.phase == Ready && s !in r.logs
      case Chunk(_, _) => c.stream == Running
      case StreamEnd(_) => c.stream != Off
      case StopBegin(_) => (c.phase == Idle || c.phase == Leaving) && c.subscribedTo.None?
      case StopEnd(_) => c.phase == Stopping || c.phase == LeavingStop
      case SubscribeBegin(_, s) => c.phase == Idle && s in r.sessions && c.sessionId.None?
      case SubscribeEnd(_) => c.phase.Subscribing?
      case Unsubscribe(_) => c.phase == Idle
      case SenderTake(_) => c.sender == Waiting && c.queue.Some? && c.queue.value != []
      case SenderSent(_) => c.sender.Sending?
      case SenderTimeout(_) => c.sender.Sending?
      case SenderFail(_) => c.sender.Sending? || c.sender.TimedOut?
      case SenderClosed(_) => c.sender.TimedOut?
      case DisconnectBegin(_) => c.phase == Idle || c.phase == Claimed || c.phase == Ready
      case DisconnectPop(_) => c.phase == Left
  }

  function Next(r: Registry, step: Step): Registry
    requires Enabled(r, step)
  {
    var w := step.w;
    match step
    case Connect(_) => Put(r, w, NEW_CLIENT)
    case StartClaim(_, wanted) => StartClaimed(r, w, wanted)
    case StartReset(_) => Put(r, w, r.clients[w].(framer := Framer.INITIAL, phase := Ready))
    case StartFail(_) => SetPhase(Release(r, w), w, Idle)
    case Launch(_, s) => Launched(r, w, s)
    case Chunk(_, bytes) => Broadcast(r, w, bytes)
    case StreamEnd(_) => SetStream(EndSession(Release(r, w), w), w, Off)
    case StopBegin(_) => StopBegun(r, w)
    case StopEnd(_) => StopEnded(r, w)
    case SubscribeBegin(_, s) => SetPhase(Clear(r, w, None), w, Subscribing(s))
    case SubscribeEnd(_) => Attach(r, w)
    case Unsubscribe(_) => Clear(r, w, None)
    case SenderTake(_) => Taken(r, w)
    case SenderSent(_) => Sent(r, w)
    case SenderTimeout(_) => Put(r, w, r.clients[w].(sender := TimedOut(r.clients[w].sender.item)))
    case SenderFail(_) => Clear(r, w, r.clients[w].subscribedTo)
    case SenderClosed(_) => Clear(Put(r, w, r.clients[w].(sent := r.clients[w].sent + [Close])), w, r.clients[w].subscribedTo)
    case DisconnectBegin(_) => SetPhase(Clear(r, w, None), w, Leaving)
    case DisconnectPop(_) => r.(clients := r.clients - {w})
  }

  function SetPhase(r: Registry, w: Socket, phase: Phase): Registry {
    if w in r.clients then Put(r, w, r.clients[w].(phase := phase)) else r
  }

  function SetStream(r: Registry, w: Socket, stream: Stream): Registry {
    if w in r.clients then Put(r, w, r.clients[w].(stream := stream)) else r
  }

  function StartClaimed(r: Registry, w: Socket, wanted: set<Iface>): Registry
    requires w in r.clients
  {
    if Conflicts(r, w, wanted) != {} then r else SetPhase(Claim(r, w, wanted), w, Claimed)
  }

  /** The capture process runs: its stream task and its session appear together. */
  function Launched(r: Registry, w: Socket, s: SessionId): Registry
    requires w in r.clients
  {
    Put(r, w, r.clients[w].(stream := Running, sessionId := Some(s), phase := Idle))
    .(sessions := r.sessions[s := w], logs := r.logs[s := []])
  }

  /** Frame one chunk of the capture and queue its blocks. */
  function Broadcast(r: Registry, w: Socket, bytes: seq<Byte>): Registry
    requires w in r.clients
  {
    var c := r.clients[w];
    var (bs, f) := Framer.Feed(c.framer, bytes);
    if c.sessionId.None? then Put(r, w, c.(framer := f))
    else
      QueueBlocks(Put(r, w, c.(framer := f)), w, c.sessionId.value, bs)
  }

  function StopBegun(r: Registry, w: Socket): Registry
    requires w in r.clients
  {
    var c := r.clients[w];
    Put(r, w, c.(phase := if c.phase == Leaving then LeavingStop else Stopping,
                 stream := if c.stream == Off then Off else Cancelled))
  }

  function StopEnded(r: Registry, w: Socket): Registry
    requires w in r.clients
  {
    var phase := if r.clients[w].phase == LeavingStop then Left else Idle;
    SetPhase(SetStream(EndSession(Release(r, w), w), w, Off), w, phase)
  }

  /** The session is checked again: it may have ended, or filled up, while the old sender was awaited. */
  function Attach(r: Registry, w: Socket): Registry
    requires w in r.clients && r.clients[w].phase.Subscribing?
  {
    var s := r.clients[w].phase.session;
    var q := SetPhase(r, w, Idle);
    if s !in r.sessions || r.sessions[s] !in r.clients || |r.clients[r.sessions[s]].subscribers| >= MAX_SUBSCRIBERS then q
    else
      var o := r.sessions[s];
      var hello := r.clients[o].framer.header;
      var joined := Put(q, w, q.clients[w].(
        subscribedTo := Some(s),
        queue := Some([Subscribed(s)] + if hello == [] then [] else [Data(hello)]),
        closing := false,
        sender := Waiting,
        feedOf := Some(s), joinAt := if s in r.logs then |r.logs[s]| else 0, hello := hello, sent := []));
      Put(joined, o, joined.clients[o].(subscribers := joined.clients[o].subscribers + {w}))
  }

  function Taken(r: Registry, w: Socket): Registry
    requires w in r.clients && r.clients[w].queue.Some? && r.clients[w].queue.value != []
  {
    var c := r.clients[w];
    var x := c.queue.value[0];
    var q := Put(r, w, c.(queue := Some(c.queue.value[1..]), sender := Sending(x)));
    if x == Done then Clear(q, w, c.subscribedTo) else q
  }

  function Sent(r: Registry, w: Socket): Registry
    requires w in r.clients && r.clients[w].sender.Sending?
  {
    var c := r.clients[w];
    var q := Put(r, w, c.(sent := c.sent + [c.sender.item], sender := Waiting));
    if c.sender.item == Close then Clear(q, w, c.subscribedTo) else q
  }

  predicate Allowed(r: Registry, steps: seq<Step>)
    decreases |steps|
  {
    steps == [] || (Enabled(r, steps[0]) && Allowed(Next(r, steps[0]), steps[1..]))
  }

  function Run(r: Registry, steps: seq<Step>): Registry
    requires Allowed(r, steps)
    decreases |steps|
  {
    if steps == [] then r else Run(Next(r, steps[0]), steps[1..])
  }
}
