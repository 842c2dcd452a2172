/**
 What holds whenever the event loop can switch tasks, on every run: the three
 registries agree, and every subscriber has received a gap-free prefix of its
 session.
 */
module SessionLaws {
  import opened Bytes
  import opened Pcapng
  import opened FramerLaws
  import Framer
  import opened Sessions
  import Reader
  import ReaderLaws

  // ---------------------------------------------------------------- the invariant

  /** Interface ownership, read from either side. */
  ghost predicate OwnersAgree(r: Registry) {
    && (forall i :: i in r.owners ==> r.owners[i] in r.clients && i in r.clients[r.owners[i]].interfaces)
    && (forall w, i :: w in r.clients && i in r.clients[w].interfaces ==> i in r.owners && r.owners[i] == w)
  }

  /** Sessions and owners are in bijection. */
  ghost predicate SessionsAgree(r: Registry) {
    && (forall s :: s in r.sessions ==> r.sessions[s] in r.clients && r.clients[r.sessions[s]].sessionId == Some(s))
    && (forall w :: w in r.clients && r.clients[w].sessionId.Some? ==>
          r.clients[w].sessionId.value in r.sessions && r.sessions[r.clients[w].sessionId.value] == w)
  }

  /** Listed sockets are exactly the open subscriptions of a live session, at most four of them. */
  ghost predicate ListsAgree(r: Registry) {
    && (forall w, x :: w in r.clients && x in r.clients[w].subscribers ==>
          r.clients[w].sessionId.Some? && Listens(r, r.clients[w].sessionId.value, x))
    && (forall s, x :: s in r.sessions && r.sessions[s] in r.clients && Listens(r, s, x) ==>
          x in r.clients[r.sessions[s]].subscribers)
    && (forall w :: w in r.clients ==> |r.clients[w].subscribers| <= MAX_SUBSCRIBERS)
  }

  /** One client's fields fit together. */
  predicate Shape(c: Client) {
    && (c.subscribedTo.Some? <==> c.queue.Some?)
    && (c.subscribedTo.Some? <==> c.sender != NoTask)
    && (c.closing ==> c.subscribedTo.Some?)
    && (c.sessionId.Some? ==> c.subscribedTo.None? && c.stream != Off)
    && (c.stream == Running ==> c.sessionId.Some?)
    && (c.stream == Cancelled ==> c.phase == Stopping || c.phase == LeavingStop)
    && (c.subscribedTo.Some? ==> c.phase == Idle)
    && (c.phase == Claimed || c.phase == Ready || c.phase.Subscribing? || c.phase == Left ==> c.stream == Off)
    && (c.stream == Off && (c.phase == Idle || c.phase.Subscribing? || c.phase == Left) ==> c.interfaces == {})
    && (c.phase == Ready ==> c.framer == Framer.INITIAL)
  }

  function Datas(bs: seq<Block>): (xs: seq<Item>)
    ensures |xs| == |bs|
  {
    seq(|bs|, i requires 0 <= i < |bs| => Data(bs[i]))
  }

  /** Everything a lossless subscription to `s` would be sent so far. */
  function Transcript(r: Registry, s: SessionId, joinAt: nat, hello: seq<Byte>): seq<Item>
    requires s in r.logs && joinAt <= |r.logs[s]|
  {
    [Subscribed(s)] + (if hello == [] then [] else [Data(hello)]) + Datas(r.logs[s][joinAt..])
    + (if s in r.sessions then [] else [Ended(s), Done])
  }

  function InFlight(c: Client): seq<Item> {
    match c.sender
    case Sending(x) => [x]
    case TimedOut(x) => [x]
    case _ => []
  }

  /** A client's latest subscription: joined on the replayed header, and gap-free since. */
  predicate Fed(r: Registry, c: Client) {
    && (c.subscribedTo.Some? ==> c.feedOf == c.subscribedTo && c.queue.Some?)
    && (c.feedOf.Some? ==>
          var s := c.feedOf.value;
          && s in r.logs && c.joinAt <= |r.logs[s]|
          && Blocks(None, r.logs[s][..c.joinAt])
          && c.hello == Flat(Replay(None, NO_HEAD, r.logs[s][..c.joinAt]).kept)
          && var all := Transcript(r, s, c.joinAt, c.hello);
          if c.subscribedTo.None? then
            c.sent <= all || (c.sent != [] && c.sent[|c.sent| - 1] == Close && c.sent[..|c.sent| - 1] <= all)
          else if !c.closing then c.sent + InFlight(c) + c.queue.value == all
          else if c.queue.value == [Close] then c.sent + InFlight(c) <= all
          else c.queue.value == [] && InFlight(c) == [Close] && c.sent <= all)
  }

  ghost predicate Core(r: Registry) {
    && OwnersAgree(r) && SessionsAgree(r) && ListsAgree(r)
    && (forall w :: w in r.clients ==> Shape(r.clients[w]))
    && (forall w :: w in r.clients ==> Fed(r, r.clients[w]))
    && (forall w :: w in r.clients && r.clients[w].sessionId.Some? ==> r.clients[w].sessionId.value in r.logs)
  }

  /** A running capture's framer state is that of the blocks it has framed. */
  ghost predicate FramersAgree(r: Registry) {
    forall w :: w in r.clients && r.clients[w].sessionId.Some? && r.clients[w].sessionId.value in r.logs ==>
      Framed(r.clients[w].framer, r.logs[r.clients[w].sessionId.value])
  }

  ghost predicate Inv(r: Registry) { Core(r) && FramersAgree(r) }

  lemma Parts(r: Registry)
    requires Inv(r)
    ensures OwnersAgree(r) && SessionsAgree(r) && ListsAgree(r) && FramersAgree(r)
  {
    hide OwnersAgree, SessionsAgree, ListsAgree, FramersAgree, Shape, Fed;
  }

  lemma One(r: Registry, x: Socket)
    requires Inv(r) && x in r.clients
    ensures Shape(r.clients[x]) && Fed(r, r.clients[x])
    ensures r.clients[x].sessionId.Some? ==> r.clients[x].sessionId.value in r.logs
  {
    hide OwnersAgree, SessionsAgree, ListsAgree, FramersAgree, Shape, Fed;
  }

  lemma Whole(q: Registry)
    requires OwnersAgree(q) && SessionsAgree(q) && ListsAgree(q) && FramersAgree(q)
    requires forall w :: w in q.clients ==> Shape(q.clients[w]) && Fed(q, q.clients[w])
    requires forall w :: w in q.clients && q.clients[w].sessionId.Some? ==> q.clients[w].sessionId.value in q.logs
    ensures Inv(q)
  {
    hide OwnersAgree, SessionsAgree, ListsAgree, FramersAgree, Shape, Fed;
  }

  // ---------------------------------------------------------------- steps that leave the lists alone

  /** The parts of a client that Fed looks at. */
  predicate SameFeed(c: Client, d: Client) {
    && c.subscribedTo == d.subscribedTo && c.queue == d.queue && c.closing == d.closing && c.sender == d.sender
    && c.feedOf == d.feedOf && c.joinAt == d.joinAt && c.hello == d.hello && c.sent == d.sent
  }

  lemma FedFrame(r: Registry, q: Registry, c: Client, d: Client)
    requires Fed(r, c) && SameFeed(c, d)
    requires r.logs == q.logs && r.sessions == q.sessions
    ensures Fed(q, d)
  {
  }

  predicate Like(c: Client, d: Client) {
    SameFeed(c, d) && c.sessionId == d.sessionId && c.subscribers == d.subscribers
  }

  /** Same sockets, sessions and logs, and clients alike. */
  ghost predicate Parallel(r: Registry, q: Registry) {
    && q.clients.Keys == r.clients.Keys && q.sessions == r.sessions && q.logs == r.logs
    && (forall w :: w in r.clients ==> Like(r.clients[w], q.clients[w]))
  }

  lemma ParallelSessions(r: Registry, q: Registry)
    requires Parallel(r, q) && SessionsAgree(r)
    ensures SessionsAgree(q)
  {
  }

  lemma ParallelLists(r: Registry, q: Registry)
    requires Parallel(r, q) && ListsAgree(r)
    ensures ListsAgree(q)
  {
    assert forall s, x :: Listens(q, s, x) <==> Listens(r, s, x);
  }

  lemma ParallelFed(r: Registry, q: Registry)
    requires Parallel(r, q) && forall w :: w in r.clients ==> Fed(r, r.clients[w])
    ensures forall w :: w in q.clients ==> Fed(q, q.clients[w])
  {
    hide Fed;
    forall x | x in q.clients
      ensures Fed(q, q.clients[x])
    {
      FedFrame(r, q, r.clients[x], q.clients[x]);
    }
  }

  /** Only `w` changed, and neither its session, list, subscription nor delivery. */
  lemma QuietStep(r: Registry, q: Registry, w: Socket)
    requires Inv(r) && w in r.clients && w in q.clients
    requires q.clients == r.clients[w := q.clients[w]] && q.sessions == r.sessions && q.logs == r.logs
    requires Like(r.clients[w], q.clients[w]) && Shape(q.clients[w])
    requires q.clients[w].sessionId.Some? ==> q.clients[w].framer == r.clients[w].framer
    requires OwnersAgree(q)
    ensures Inv(q)
  {
    hide Fed, Framed, Shape, OwnersAgree, SessionsAgree, ListsAgree;
    ParallelSessions(r, q);
    ParallelLists(r, q);
    ParallelFed(r, q);
  }

  lemma OwnersFrame(r: Registry, q: Registry)
    requires OwnersAgree(r) && r.owners == q.owners && r.clients.Keys == q.clients.Keys
    requires forall w :: w in r.clients ==> r.clients[w].interfaces == q.clients[w].interfaces
    ensures OwnersAgree(q)
  {
  }

  lemma SessionsFrame(r: Registry, q: Registry)
    requires SessionsAgree(r) && r.sessions == q.sessions && r.clients.Keys == q.clients.Keys
    requires forall w :: w in r.clients ==> r.clients[w].sessionId == q.clients[w].sessionId
    ensures SessionsAgree(q)
  {
  }

  lemma NoConflicts(r: Registry, w: Socket, wanted: set<Iface>)
    ensures Conflicts(r, w, wanted) == {} <==> forall i :: i in wanted && i in r.owners ==> r.owners[i] == w
  {
    forall i | i in wanted && i in r.owners && r.owners[i] != w
      ensures i in Conflicts(r, w, wanted)
    {
    }
  }

  lemma ClaimOwners(r: Registry, w: Socket, wanted: set<Iface>)
    requires OwnersAgree(r) && w in r.clients && r.clients[w].interfaces == {} && Conflicts(r, w, wanted) == {}
    ensures OwnersAgree(Claim(r, w, wanted))
  {
    NoConflicts(r, w, wanted);
  }

  /** After a release no interface names `w`, and no other owner moved. */
  lemma ReleaseOwners(r: Registry, w: Socket)
    requires OwnersAgree(r) && w in r.clients
    ensures OwnersAgree(Release(r, w))
  {
  }

  lemma KeepsStartClaim(r: Registry, w: Socket, wanted: set<Iface>)
    requires Inv(r) && Enabled(r, StartClaim(w, wanted))
    ensures Inv(StartClaimed(r, w, wanted))
  {
    hide Fed, Framed, OwnersAgree, SessionsAgree, ListsAgree;
    var q := StartClaimed(r, w, wanted);
    assert Shape(r.clients[w]);
    if Conflicts(r, w, wanted) == {} {
      ClaimOwners(r, w, wanted);
      OwnersFrame(Claim(r, w, wanted), q);
      QuietStep(r, q, w);
    }
  }

  lemma KeepsStartReset(r: Registry, w: Socket)
    requires Inv(r) && Enabled(r, StartReset(w))
    ensures Inv(Next(r, StartReset(w)))
  {
    hide Fed, Framed, OwnersAgree, SessionsAgree, ListsAgree;
    OwnersFrame(r, Next(r, StartReset(w)));
    QuietStep(r, Next(r, StartReset(w)), w);
  }

  lemma KeepsStartFail(r: Registry, w: Socket)
    requires Inv(r) && Enabled(r, StartFail(w))
    ensures Inv(Next(r, StartFail(w)))
  {
    hide Fed, Framed, OwnersAgree, SessionsAgree, ListsAgree;
    var q := Next(r, StartFail(w));
    ReleaseOwners(r, w);
    OwnersFrame(Release(r, w), q);
    QuietStep(r, q, w);
  }

  lemma KeepsStopBegin(r: Registry, w: Socket)
    requires Inv(r) && Enabled(r, StopBegin(w))
    ensures Inv(Next(r, StopBegin(w)))
  {
    hide Fed, Framed, OwnersAgree, SessionsAgree, ListsAgree;
    OwnersFrame(r, Next(r, StopBegin(w)));
    QuietStep(r, Next(r, StopBegin(w)), w);
  }

  // ---------------------------------------------------------------- leaving a session

  /** What is delivered of an ended subscription: a prefix, perhaps with the close. */
  predicate Delivered(r: Registry, c: Client) {
    c.feedOf.Some? ==>
      var s := c.feedOf.value;
      && s in r.logs && c.joinAt <= |r.logs[s]|
      && var all := Transcript(r, s, c.joinAt, c.hello);
      c.sent <= all || (c.sent != [] && c.sent[|c.sent| - 1] == Close && c.sent[..|c.sent| - 1] <= all)
  }

  /** The client once its subscription is forgotten. */
  predicate Dropped(c: Client, d: Client) {
    d == c.(subscribedTo := None, queue := None, closing := false, sender := NoTask, sent := d.sent, phase := d.phase)
  }

  lemma DropListens(r: Registry, q: Registry, w: Socket, s: SessionId, x: Socket)
    requires w in r.clients && w in q.clients && Dropped(r.clients[w], q.clients[w])
    requires q == Unlisted(Put(r, w, q.clients[w]), r.clients[w].subscribedTo, w)
    ensures Listens(q, s, x) <==> x != w && Listens(r, s, x)
  {
  }

  lemma DropLists(r: Registry, q: Registry, w: Socket)
    requires ListsAgree(r) && SessionsAgree(r) && w in r.clients && Shape(r.clients[w])
    requires w in q.clients && Dropped(r.clients[w], q.clients[w])
    requires q == Unlisted(Put(r, w, q.clients[w]), r.clients[w].subscribedTo, w)
    ensures ListsAgree(q)
  {
    var c := r.clients[w];
    forall s, x
      ensures Listens(q, s, x) <==> x != w && Listens(r, s, x)
    {
      DropListens(r, q, w, s, x);
    }
    hide Listens;
    if c.subscribedTo.Some? && c.subscribedTo.value in r.sessions {
      var o := r.sessions[c.subscribedTo.value];
      assert q.clients[o].subscribers == r.clients[o].subscribers - {w};
    }
    forall v, x | v in q.clients && x in q.clients[v].subscribers
      ensures q.clients[v].sessionId.Some? && Listens(q, q.clients[v].sessionId.value, x)
    {
      assert x in r.clients[v].subscribers;
    }
  }

  lemma DropShape(r: Registry, q: Registry, w: Socket)
    requires SessionsAgree(r) && w in r.clients && Shape(r.clients[w])
    requires w in q.clients && Dropped(r.clients[w], q.clients[w])
    requires q == Unlisted(Put(r, w, q.clients[w]), r.clients[w].subscribedTo, w)
    ensures q.clients.Keys == r.clients.Keys && q.owners == r.owners && q.sessions == r.sessions && q.logs == r.logs
    ensures forall x :: x in r.clients && x != w ==> q.clients[x] == r.clients[x].(subscribers := q.clients[x].subscribers)
  {
  }

  lemma Drop(r: Registry, q: Registry, w: Socket)
    requires Inv(r) && w in r.clients
    requires w in q.clients && Dropped(r.clients[w], q.clients[w]) && Shape(q.clients[w])
    requires q == Unlisted(Put(r, w, q.clients[w]), r.clients[w].subscribedTo, w)
    requires Delivered(r, q.clients[w])
    ensures Inv(q)
  {
    hide Inv, Core, Fed, Framed, OwnersAgree, SessionsAgree, ListsAgree, FramersAgree, Shape, Delivered, Unlisted;
    Parts(r);
    One(r, w);
    DropLists(r, q, w);
    DropShape(r, q, w);
    OwnersFrame(r, q);
    SessionsFrame(r, q);
    FramersFrame(r, q);
    forall x | x in q.clients
      ensures Shape(q.clients[x]) && Fed(q, q.clients[x]) && (q.clients[x].sessionId.Some? ==> q.clients[x].sessionId.value in q.logs)
    {
      One(r, x);
      if x == w {
        DeliveredIsFed(r, q, r.clients[w], q.clients[w]);
      } else {
        FedFrame(r, q, r.clients[x], q.clients[x]);
        ShapeLists(r.clients[x], q.clients[x]);
      }
    }
    Whole(q);
  }

  lemma ShapeLists(c: Client, d: Client)
    requires Shape(c) && d == c.(subscribers := d.subscribers)
    ensures Shape(d)
  {
  }

  lemma DeliveredIsFed(r: Registry, q: Registry, c: Client, d: Client)
    requires Fed(r, c) && Delivered(r, d) && Dropped(c, d)
    requires r.logs == q.logs && r.sessions == q.sessions
    ensures Fed(q, d)
  {
  }

  lemma FedIsDelivered(r: Registry, c: Client)
    requires Fed(r, c) && Shape(c)
    ensures Delivered(r, c)
    ensures c.subscribedTo.Some? ==> Delivered(r, c.(sent := c.sent + [Close]))
  {
    if c.subscribedTo.Some? {
      assert (c.sent + [Close])[..|c.sent|] == c.sent;
    }
  }

  /** Forgetting a subscription, perhaps after one last close was sent, and moving the command loop on. */
  lemma ClearKeeps(r: Registry, w: Socket, sent: seq<Item>, phase: Phase)
    requires Inv(r) && w in r.clients
    requires var c := r.clients[w];
             && (sent == c.sent || (c.subscribedTo.Some? && sent == c.sent + [Close]))
             && Shape(c.(subscribedTo := None, queue := None, closing := false, sender := NoTask, phase := phase))
    ensures var c := r.clients[w];
            var d := c.(subscribedTo := None, queue := None, closing := false, sender := NoTask, sent := sent, phase := phase);
            Inv(Unlisted(Put(r, w, d), c.subscribedTo, w))
  {
    hide Fed, Framed, OwnersAgree, SessionsAgree, ListsAgree, Replay, Delivered;
    var c := r.clients[w];
    var d := c.(subscribedTo := None, queue := None, closing := false, sender := NoTask, sent := sent, phase := phase);
    var q := Unlisted(Put(r, w, d), c.subscribedTo, w);
    assert Shape(c);
    FedIsDelivered(r, c);
    DeliveredFrame(r, c.(sent := sent), d);
    OwnerIsOther(r, w);
    Drop(r, q, w);
  }

  lemma DeliveredFrame(r: Registry, c: Client, d: Client)
    requires Delivered(r, c) && c.feedOf == d.feedOf && c.joinAt == d.joinAt && c.hello == d.hello && c.sent == d.sent
    ensures Delivered(r, d)
  {
  }

  /** A subscriber does not own the session it is subscribed to. */
  lemma OwnerIsOther(r: Registry, w: Socket)
    requires Inv(r) && w in r.clients
    ensures var s := r.clients[w].subscribedTo; s.Some? && s.value in r.sessions ==> r.sessions[s.value] != w
  {
    hide Fed, Framed, OwnersAgree, ListsAgree;
    assert Shape(r.clients[w]);
  }

  /** Clear, from where it is called, is that. */
  lemma ClearIs(r: Registry, w: Socket, expected: Option<SessionId>, phase: Phase)
    requires w in r.clients && (expected.Some? ==> r.clients[w].subscribedTo == expected)
    requires r.clients[w].subscribedTo.Some? && r.clients[w].subscribedTo.value in r.sessions ==> r.sessions[r.clients[w].subscribedTo.value] != w
    ensures var c := r.clients[w];
            var d := c.(subscribedTo := None, queue := None, closing := false, sender := NoTask, phase := phase);
            SetPhase(Clear(r, w, expected), w, phase) == Unlisted(Put(r, w, d), c.subscribedTo, w)
    ensures phase == r.clients[w].phase ==> SetPhase(Clear(r, w, expected), w, phase) == Clear(r, w, expected)
  {
    ClearPhase(r, w, expected, phase);
    var q := SetPhase(Clear(r, w, expected), w, phase);
    var c := r.clients[w];
    var d := c.(subscribedTo := None, queue := None, closing := false, sender := NoTask, phase := phase);
    assert q.clients == Unlisted(Put(r, w, d), c.subscribedTo, w).clients;
  }

  lemma ClearPhase(r: Registry, w: Socket, expected: Option<SessionId>, phase: Phase)
    requires w in r.clients
    requires r.clients[w].subscribedTo.Some? && r.clients[w].subscribedTo.value in r.sessions ==> r.sessions[r.clients[w].subscribedTo.value] != w
    ensures phase == r.clients[w].phase ==> SetPhase(Clear(r, w, expected), w, phase) == Clear(r, w, expected)
  {
    var p := Clear(r, w, expected);
    assert w in p.clients && p.clients[w].phase == r.clients[w].phase;
    hide Clear;
    assert phase == r.clients[w].phase ==> SetPhase(p, w, phase).clients == p.clients;
  }

  lemma KeepsClear(r: Registry, step: Step)
    requires Inv(r) && Enabled(r, step)
    requires step.SubscribeBegin? || step.Unsubscribe? || step.DisconnectBegin? || step.SenderFail?
    ensures Inv(Next(r, step))
  {
    hide Inv, Core, Fed, Clear, Unlisted;
    var w := step.w;
    var c := r.clients[w];
    One(r, w);
    var expected := if step.SenderFail? then c.subscribedTo else None;
    var phase := if step.SubscribeBegin? then Subscribing(step.session) else if step.DisconnectBegin? then Leaving else c.phase;
    assert Shape(c);
    OwnerIsOther(r, w);
    ClearIs(r, w, expected, phase);
    ClearKeeps(r, w, c.sent, phase);
  }

  // ---------------------------------------------------------------- the sender task

  /** Only what `w` has queued, in flight and delivered changed. */
  lemma DeliveryStep(r: Registry, q: Registry, w: Socket)
    requires Inv(r) && w in r.clients && w in q.clients && q == Put(r, w, q.clients[w])
    requires r.clients[w].subscribedTo.Some? && q.clients[w].queue.Some? && q.clients[w].sender != NoTask
    requires q.clients[w] == r.clients[w].(queue := q.clients[w].queue, sender := q.clients[w].sender, sent := q.clients[w].sent)
    requires Fed(r, q.clients[w])
    ensures Inv(q)
  {
    hide Inv, Core, Fed, Framed, OwnersAgree, SessionsAgree, ListsAgree, FramersAgree;
    Parts(r);
    One(r, w);
    OwnersFrame(r, q);
    SessionsFrame(r, q);
    ListsFrame(r, q);
    FramersFrame(r, q);
    forall x | x in q.clients
      ensures Shape(q.clients[x]) && Fed(q, q.clients[x]) && (q.clients[x].sessionId.Some? ==> q.clients[x].sessionId.value in q.logs)
    {
      One(r, x);
      FedFrame(r, q, if x == w then q.clients[w] else r.clients[x], q.clients[x]);
    }
    hide Shape;
    Whole(q);
  }

  lemma FramersFrame(r: Registry, q: Registry)
    requires FramersAgree(r) && q.clients.Keys == r.clients.Keys && q.logs == r.logs
    requires forall w :: w in r.clients ==> q.clients[w].sessionId == r.clients[w].sessionId && q.clients[w].framer == r.clients[w].framer
    ensures FramersAgree(q)
  {
    hide Framed;
  }

  lemma ListsFrame(r: Registry, q: Registry)
    requires ListsAgree(r) && r.sessions == q.sessions && r.clients.Keys == q.clients.Keys
    requires forall w :: w in r.clients ==>
      var c, d := r.clients[w], q.clients[w];
      && c.sessionId == d.sessionId && c.subscribers == d.subscribers && c.subscribedTo == d.subscribedTo
      && c.closing == d.closing && c.queue.Some? == d.queue.Some?
    ensures ListsAgree(q)
  {
    assert forall s, x :: Listens(q, s, x) <==> Listens(r, s, x);
  }

  lemma FedTake(r: Registry, c: Client)
    requires Fed(r, c) && c.subscribedTo.Some? && c.sender == Waiting && c.queue.value != []
    ensures Fed(r, c.(queue := Some(c.queue.value[1..]), sender := Sending(c.queue.value[0])))
  {
    hide Transcript;
    assert [c.queue.value[0]] + c.queue.value[1..] == c.queue.value;
  }

  lemma FedSent(r: Registry, c: Client)
    requires Fed(r, c) && c.subscribedTo.Some? && c.sender.Sending? && c.sender.item != Close
    ensures Fed(r, c.(sent := c.sent + [c.sender.item], sender := Waiting))
  {
    hide Transcript;
  }

  lemma FedTimeout(r: Registry, c: Client)
    requires Fed(r, c) && c.subscribedTo.Some? && c.sender.Sending?
    ensures Fed(r, c.(sender := TimedOut(c.sender.item)))
  {
  }

  lemma KeepsSender(r: Registry, step: Step)
    requires Inv(r) && Enabled(r, step)
    requires step.SenderTake? || step.SenderSent? || step.SenderTimeout? || step.SenderClosed?
    ensures Inv(Next(r, step))
  {
    hide Inv, Core, Fed, Clear, Unlisted;
    var w := step.w;
    var c, q := r.clients[w], Next(r, step);
    One(r, w);
    OwnerIsOther(r, w);
    if step.SenderTimeout? {
      FedTimeout(r, c);
      DeliveryStep(r, q, w);
    } else if step.SenderTake? && c.queue.value[0] != Done {
      FedTake(r, c);
      DeliveryStep(r, q, w);
    } else if step.SenderSent? && c.sender.item != Close {
      FedSent(r, c);
      DeliveryStep(r, q, w);
    } else {
      var sent := if step.SenderTake? then c.sent else c.sent + [Close];
      var d := if step.SenderTake? then c.(queue := Some(c.queue.value[1..]), sender := Sending(Done))
               else if step.SenderSent? then c.(sent := sent, sender := Waiting) else c.(sent := sent);
      ClearIs(Put(r, w, d), w, c.subscribedTo, c.phase);
      ClearKeeps(r, w, sent, c.phase);
      var e := c.(subscribedTo := None, queue := None, closing := false, sender := NoTask, sent := sent);
      assert Put(Put(r, w, d), w, e).clients == Put(r, w, e).clients;
    }
  }

  // ---------------------------------------------------------------- arriving and leaving

  /** The subscription's session has the same log and is live in both. */
  lemma FedElsewhere(r: Registry, q: Registry, c: Client, d: Client)
    requires Fed(r, c) && SameFeed(c, d)
    requires c.feedOf.Some? ==> c.feedOf.value in q.logs && q.logs[c.feedOf.value] == r.logs[c.feedOf.value]
    requires c.feedOf.Some? ==> (c.feedOf.value in q.sessions <==> c.feedOf.value in r.sessions)
    ensures Fed(q, d)
  {
  }

  lemma FedInLogs(r: Registry, c: Client)
    requires Fed(r, c)
    ensures c.feedOf.Some? ==> c.feedOf.value in r.logs
    ensures c.subscribedTo.Some? ==> c.subscribedTo == c.feedOf && c.subscribedTo.value in r.logs && c.queue.Some?
  {
  }

  lemma ConnectLists(r: Registry, w: Socket)
    requires OwnersAgree(r) && SessionsAgree(r) && ListsAgree(r) && w !in r.clients
    ensures OwnersAgree(Put(r, w, NEW_CLIENT)) && SessionsAgree(Put(r, w, NEW_CLIENT)) && ListsAgree(Put(r, w, NEW_CLIENT))
  {
    var q := Put(r, w, NEW_CLIENT);
    assert forall s, x :: Listens(q, s, x) <==> Listens(r, s, x);
  }

  lemma KeepsConnect(r: Registry, w: Socket)
    requires Inv(r) && w !in r.clients
    ensures Inv(Put(r, w, NEW_CLIENT))
  {
    hide Fed, Framed, Replay, OwnersAgree, SessionsAgree, ListsAgree;
    var q := Put(r, w, NEW_CLIENT);
    ConnectLists(r, w);
    NewIsFed(q);
    forall x | x in q.clients
      ensures Fed(q, q.clients[x])
    {
      if x != w {
        FedFrame(r, q, r.clients[x], q.clients[x]);
      }
    }
  }

  lemma NewIsFed(r: Registry)
    ensures Fed(r, NEW_CLIENT)
  {
  }

  lemma PopLists(r: Registry, w: Socket)
    requires OwnersAgree(r) && SessionsAgree(r) && ListsAgree(r) && w in r.clients && Shape(r.clients[w])
    requires r.clients[w].phase == Left
    ensures var q := r.(clients := r.clients - {w}); OwnersAgree(q) && SessionsAgree(q) && ListsAgree(q)
  {
    var q := r.(clients := r.clients - {w});
    assert r.clients[w].interfaces == {} && r.clients[w].sessionId.None?;
    assert forall s, x :: Listens(q, s, x) <==> x != w && Listens(r, s, x);
    hide Shape, Listens;
  }

  lemma PopFramers(r: Registry, w: Socket)
    requires FramersAgree(r)
    ensures FramersAgree(r.(clients := r.clients - {w}))
  {
    hide Framed;
  }

  lemma KeepsPop(r: Registry, w: Socket)
    requires Inv(r) && Enabled(r, DisconnectPop(w))
    ensures Inv(Next(r, DisconnectPop(w)))
  {
    hide Inv, Core, Fed, Framed, OwnersAgree, SessionsAgree, ListsAgree, FramersAgree, Shape;
    var q := Next(r, DisconnectPop(w));
    Parts(r);
    One(r, w);
    PopLists(r, w);
    PopFramers(r, w);
    forall x | x in q.clients
      ensures Shape(q.clients[x]) && Fed(q, q.clients[x]) && (q.clients[x].sessionId.Some? ==> q.clients[x].sessionId.value in q.logs)
    {
      One(r, x);
      FedFrame(r, q, r.clients[x], q.clients[x]);
    }
    Whole(q);
  }

  lemma NoSessionNoList(r: Registry, w: Socket)
    requires ListsAgree(r) && w in r.clients && r.clients[w].sessionId.None?
    ensures r.clients[w].subscribers == {}
  {
    var listed := r.clients[w].subscribers;
    assert forall x :: x !in listed;
  }

  lemma LaunchLists(r: Registry, w: Socket, s: SessionId)
    requires SessionsAgree(r) && ListsAgree(r) && w in r.clients && s !in r.sessions
    requires r.clients[w].sessionId.None? && forall x :: x in r.clients ==> r.clients[x].subscribedTo != Some(s)
    ensures SessionsAgree(Launched(r, w, s)) && ListsAgree(Launched(r, w, s))
  {
    var q := Launched(r, w, s);
    assert forall t, x :: Listens(q, t, x) <==> Listens(r, t, x);
    NoSessionNoList(r, w);
  }

  lemma SessionsLogged(r: Registry, s: SessionId)
    requires Core(r) && s in r.sessions
    ensures s in r.logs
  {
    assert r.clients[r.sessions[s]].sessionId == Some(s);
  }

  /** Nobody is subscribed to a session before it is launched. */
  lemma LaunchFeeds(r: Registry, w: Socket, s: SessionId, x: Socket)
    requires Inv(r) && Enabled(r, Launch(w, s)) && x in r.clients
    ensures Fed(Launched(r, w, s), Launched(r, w, s).clients[x]) && r.clients[x].subscribedTo != Some(s)
  {
    hide Inv, Core, Fed, Shape;
    One(r, x);
    FedInLogs(r, r.clients[x]);
    FedElsewhere(r, Launched(r, w, s), r.clients[x], Launched(r, w, s).clients[x]);
  }

  lemma LaunchIsNew(r: Registry, w: Socket, s: SessionId)
    requires Inv(r) && Enabled(r, Launch(w, s))
    ensures s !in r.sessions && r.clients[w].framer == Framer.INITIAL && r.clients[w].sessionId.None?
  {
    hide Inv, Core, Fed;
    One(r, w);
    if s in r.sessions {
      Logged(r, s);
    }
  }

  lemma Logged(r: Registry, s: SessionId)
    requires Inv(r) && s in r.sessions
    ensures s in r.logs
  {
    hide Fed, Framed, OwnersAgree, ListsAgree, Shape;
    SessionsLogged(r, s);
  }

  lemma KeepsLaunch(r: Registry, w: Socket, s: SessionId)
    requires Inv(r) && Enabled(r, Launch(w, s))
    ensures Inv(Launched(r, w, s))
  {
    hide Inv, Core, Fed, Framed, OwnersAgree, SessionsAgree, ListsAgree, FramersAgree;
    var q := Launched(r, w, s);
    Parts(r);
    OwnersFrame(r, q);
    LaunchIsNew(r, w, s);
    forall x | x in q.clients
      ensures Shape(q.clients[x]) && Fed(q, q.clients[x]) && (q.clients[x].sessionId.Some? ==> q.clients[x].sessionId.value in q.logs)
      ensures r.clients[x].subscribedTo != Some(s)
    {
      One(r, x);
      LaunchFeeds(r, w, s, x);
    }
    LaunchLists(r, w, s);
    LaunchFramers(r, w, s);
    hide Shape;
    Whole(q);
  }

  lemma LaunchFramers(r: Registry, w: Socket, s: SessionId)
    requires Inv(r) && w in r.clients && s !in r.logs && r.clients[w].framer == Framer.INITIAL
    ensures FramersAgree(Launched(r, w, s))
  {
    hide Fed, Framed, OwnersAgree, SessionsAgree, ListsAgree;
    FreshIsFramed();
  }

  lemma FreshIsFramed()
    ensures Framed(Framer.INITIAL, [])
  {
  }

  // ---------------------------------------------------------------- the end of a session

  /** A session's end, as its clients see it. */
  ghost predicate Ends(r: Registry, q: Registry, w: Socket, phase: Phase) {
    && w in r.clients && q.clients.Keys == r.clients.Keys && q.logs == r.logs && q.owners == Release(r, w).owners
    && var c := r.clients[w];
    && q.sessions == (if c.sessionId.Some? then r.sessions - {c.sessionId.value} else r.sessions)
    && q.clients[w] == c.(interfaces := {}, sessionId := None, subscribers := {}, framer := Framer.INITIAL, stream := Off, phase := phase)
    && (forall x :: x in r.clients && x != w ==>
          q.clients[x] == if x in c.subscribers && c.sessionId.Some? && r.clients[x].queue.Some?
                          then Finish(r.clients[x], c.sessionId.value) else r.clients[x])
  }

  function AfterEnd(r: Registry, w: Socket, phase: Phase): Registry
    requires w in r.clients
  {
    SetPhase(SetStream(EndSession(Release(r, w), w), w, Off), w, phase)
  }

  lemma EndShape(r: Registry, w: Socket, phase: Phase)
    requires ListsAgree(r) && w in r.clients && r.clients[w].subscribedTo.None?
    ensures Ends(r, AfterEnd(r, w, phase), w, phase)
  {
    var c := r.clients[w];
    var q := AfterEnd(r, w, phase);
    assert forall x :: x in c.subscribers ==> c.sessionId.Some? && Listens(r, c.sessionId.value, x);
    forall x | x in r.clients && x != w
      ensures q.clients[x] == if x in c.subscribers && c.sessionId.Some? && r.clients[x].queue.Some?
                              then Finish(r.clients[x], c.sessionId.value) else r.clients[x]
    {
      hide ListsAgree, Finish;
    }
  }

  lemma TranscriptEnds(r: Registry, q: Registry, s: SessionId, joinAt: nat, hello: seq<Byte>)
    requires s in r.logs && joinAt <= |r.logs[s]| && r.logs == q.logs && s in r.sessions && s !in q.sessions
    ensures Transcript(q, s, joinAt, hello) == Transcript(r, s, joinAt, hello) + [Ended(s), Done]
  {
  }

  /** An open, listed subscription hears of the end, or is closed. */
  lemma FedFinish(r: Registry, q: Registry, c: Client, s: SessionId)
    requires Fed(r, c) && c.subscribedTo == Some(s) && !c.closing
    requires r.logs == q.logs && s in r.sessions && s !in q.sessions
    ensures Fed(q, Finish(c, s))
  {
    hide Transcript, Replay;
    TranscriptEnds(r, q, s, c.joinAt, c.hello);
    assert c.sent + InFlight(c) + c.queue.value + [Ended(s), Done] == c.sent + InFlight(c) + (c.queue.value + [Ended(s), Done]);
  }

  /** A subscription already closing, or gone, keeps its prefix. */
  lemma FedPast(r: Registry, q: Registry, c: Client, s: SessionId)
    requires Fed(r, c) && (c.subscribedTo == Some(s) ==> c.closing)
    requires r.logs == q.logs && s in r.sessions && q.sessions == r.sessions - {s}
    ensures Fed(q, c)
  {
    hide Transcript, Replay;
    if c.feedOf == Some(s) {
      TranscriptEnds(r, q, s, c.joinAt, c.hello);
    } else {
      FedElsewhere(r, q, c, c);
    }
  }

  lemma FinishShape(c: Client, s: SessionId)
    requires Shape(c) && c.queue.Some?
    ensures Shape(Finish(c, s)) && Finish(c, s).queue.Some?
    ensures Finish(c, s) == c.(queue := Finish(c, s).queue, closing := Finish(c, s).closing)
  {
  }

  lemma EndClient(r: Registry, q: Registry, w: Socket, phase: Phase, x: Socket)
    requires Inv(r) && Ends(r, q, w, phase) && x in q.clients && r.clients[w].subscribedTo.None?
    requires phase == Idle || phase == Left || (phase == r.clients[w].phase && phase != Claimed && phase != Ready)
    ensures Fed(q, q.clients[x]) && Shape(q.clients[x])
  {
    hide Fed, Framed, OwnersAgree, SessionsAgree, Replay, Release, Finish;
    var c := r.clients[w];
    assert Shape(r.clients[x]) && Shape(c);
    FedInLogs(r, r.clients[x]);
    if c.sessionId.None? {
      NoSessionNoList(r, w);
      FedFrame(r, q, r.clients[x], q.clients[x]);
    } else {
      var s := c.sessionId.value;
      assert s in r.sessions && r.sessions[s] == w by {
        OwnSession(r, w);
      }
      if x in c.subscribers {
        assert Listens(r, s, x);
        FedFinish(r, q, r.clients[x], s);
        FinishShape(r.clients[x], s);
      } else {
        assert !Listens(r, s, x);
        FedPast(r, q, r.clients[x], s);
        FedFrame(q, q, r.clients[x], q.clients[x]);
      }
    }
  }

  lemma OwnSession(r: Registry, w: Socket)
    requires SessionsAgree(r) && w in r.clients && r.clients[w].sessionId.Some?
    ensures r.clients[w].sessionId.value in r.sessions && r.sessions[r.clients[w].sessionId.value] == w
  {
  }

  /** Listening to another session than the ended one is unchanged. */
  lemma EndListens(r: Registry, q: Registry, w: Socket, phase: Phase, s: SessionId, x: Socket)
    requires Inv(r) && Ends(r, q, w, phase) && r.clients[w].subscribedTo.None? && s in q.sessions
    ensures Listens(q, s, x) <==> Listens(r, s, x)
  {
    hide Fed, Framed, OwnersAgree, Release;
    var c := r.clients[w];
    if x in r.clients {
      assert Shape(r.clients[x]);
      if r.clients[x].queue.Some? && c.sessionId.Some? {
        FinishShape(r.clients[x], c.sessionId.value);
        if x in c.subscribers {
          assert Listens(r, c.sessionId.value, x);
        }
      }
    }
  }

  lemma EndFields(r: Registry, q: Registry, w: Socket, phase: Phase)
    requires Ends(r, q, w, phase)
    ensures forall x :: x in r.clients && x != w ==>
              var c, d := r.clients[x], q.clients[x];
              d.interfaces == c.interfaces && d.sessionId == c.sessionId && d.subscribers == c.subscribers && d.framer == c.framer
  {
    hide Release;
  }

  lemma EndOwners(r: Registry, q: Registry, w: Socket, phase: Phase)
    requires OwnersAgree(r) && Ends(r, q, w, phase)
    ensures OwnersAgree(q)
  {
    ReleaseOwners(r, w);
    EndFields(r, q, w, phase);
    assert q.clients[w].interfaces == {};
    hide Ends, OwnersAgree;
    OwnersFrame(Release(r, w), q);
  }

  lemma EndSessions(r: Registry, q: Registry, w: Socket, phase: Phase)
    requires SessionsAgree(r) && Ends(r, q, w, phase)
    ensures SessionsAgree(q)
  {
    EndFields(r, q, w, phase);
    hide Finish, Release;
  }

  lemma EndLists(r: Registry, q: Registry, w: Socket, phase: Phase)
    requires Inv(r) && Ends(r, q, w, phase) && r.clients[w].subscribedTo.None? && SessionsAgree(q)
    ensures ListsAgree(q)
  {
    hide Inv, Core, Fed, Release, Finish, Listens, Shape;
    EndFields(r, q, w, phase);
    Parts(r);
    hide FramersAgree, OwnersAgree;
    forall s, x | s in q.sessions
      ensures Listens(q, s, x) <==> Listens(r, s, x)
    {
      hide SessionsAgree, ListsAgree;
      EndListens(r, q, w, phase, s, x);
    }
  }

  lemma EndFramers(r: Registry, q: Registry, w: Socket, phase: Phase)
    requires FramersAgree(r) && Ends(r, q, w, phase)
    ensures FramersAgree(q)
  {
    EndFields(r, q, w, phase);
    hide Framed, Finish, Release;
  }

  lemma KeepsEnd(r: Registry, w: Socket, phase: Phase)
    requires Inv(r) && w in r.clients && r.clients[w].subscribedTo.None?
    requires phase == Idle || phase == Left || (phase == r.clients[w].phase && phase != Claimed && phase != Ready)
    ensures Inv(AfterEnd(r, w, phase))
  {
    hide Fed, Framed, Shape, OwnersAgree, SessionsAgree, ListsAgree, Replay, AfterEnd, Release, Finish;
    var q := AfterEnd(r, w, phase);
    EndShape(r, w, phase);
    forall x | x in q.clients
      ensures Fed(q, q.clients[x]) && Shape(q.clients[x])
    {
      EndClient(r, q, w, phase, x);
    }
    EndOwners(r, q, w, phase);
    EndSessions(r, q, w, phase);
    EndLists(r, q, w, phase);
    EndFramers(r, q, w, phase);
    assert forall x :: x in q.clients && q.clients[x].sessionId.Some? ==> q.clients[x].sessionId.value in q.logs by {
      forall x | x in q.clients && q.clients[x].sessionId.Some?
        ensures q.clients[x].sessionId.value in q.logs
      {
        OwnSession(q, x);
        SessionsLogged(r, q.clients[x].sessionId.value);
      }
    }
  }

  // ---------------------------------------------------------------- a chunk of capture

  lemma DatasAppend(bs: seq<Block>, b: Block)
    ensures Datas(bs + [b]) == Datas(bs) + [Data(b)]
  {
  }

  lemma TranscriptGrows(r: Registry, q: Registry, s: SessionId, b: Block, joinAt: nat, hello: seq<Byte>)
    requires s in r.logs && joinAt <= |r.logs[s]| && s in r.sessions && s in q.sessions
    requires s in q.logs && q.logs[s] == r.logs[s] + [b]
    ensures Transcript(q, s, joinAt, hello) == Transcript(r, s, joinAt, hello) + [Data(b)]
  {
    assert q.logs[s][joinAt..] == r.logs[s][joinAt..] + [b];
    DatasAppend(r.logs[s][joinAt..], b);
    var a := [Subscribed(s)] + if hello == [] then [] else [Data(hello)];
    assert a + (Datas(r.logs[s][joinAt..]) + [Data(b)]) == a + Datas(r.logs[s][joinAt..]) + [Data(b)];
  }

  /** An open subscription is offered the block; any other keeps its prefix. */
  lemma FedOffer(r: Registry, q: Registry, c: Client, s: SessionId, b: Block)
    requires Fed(r, c) && s in r.logs && s in r.sessions && q.sessions == r.sessions
    requires q.logs == r.logs[s := r.logs[s] + [b]]
    ensures c.subscribedTo == Some(s) && !c.closing ==> c.queue.Some? && Fed(q, Offer(c, Data(b)))
    ensures c.subscribedTo != Some(s) || c.closing ==> Fed(q, c)
  {
    hide Transcript, Replay;
    if c.feedOf == Some(s) {
      TranscriptGrows(r, q, s, b, c.joinAt, c.hello);
      assert q.logs[s][..c.joinAt] == r.logs[s][..c.joinAt];
      if c.subscribedTo == Some(s) && !c.closing {
        assert c.sent + InFlight(c) + c.queue.value + [Data(b)] == c.sent + InFlight(c) + (c.queue.value + [Data(b)]);
      }
    } else {
      FedElsewhere(r, q, c, c);
    }
  }

  ghost predicate Queued(r: Registry, q: Registry, w: Socket, s: SessionId, b: Block) {
    && w in r.clients && s in r.logs && q.clients.Keys == r.clients.Keys && q.owners == r.owners && q.sessions == r.sessions
    && q.logs == r.logs[s := r.logs[s] + [b]]
    && q.clients[w] == r.clients[w].(subscribers := q.clients[w].subscribers)
    && (forall x :: x in q.clients[w].subscribers <==> x in r.clients[w].subscribers && HasRoom(r, x))
    && q.clients[w].subscribers <= r.clients[w].subscribers
    && (forall x :: x in r.clients && x != w ==>
          if x in r.clients[w].subscribers then r.clients[x].queue.Some? && q.clients[x] == Offer(r.clients[x], Data(b))
          else q.clients[x] == r.clients[x])
  }

  lemma QueueShape(r: Registry, w: Socket, s: SessionId, b: Block)
    requires ListsAgree(r) && w in r.clients && r.clients[w].sessionId == Some(s) && r.clients[w].subscribedTo.None? && s in r.logs
    ensures Queued(r, QueueBlock(r, w, s, b), w, s, b)
  {
    var q := QueueBlock(r, w, s, b);
    forall x | x in r.clients[w].subscribers
      ensures Listens(r, s, x)
    {
    }
    assert !Listens(r, s, w);
    hide ListsAgree, Offer, HasRoom;
  }

  lemma OfferShape(c: Client, x: Item)
    requires Shape(c) && c.queue.Some? && !c.closing
    ensures Shape(Offer(c, x))
    ensures var d := Offer(c, x); d == c.(queue := d.queue, closing := d.closing) && d.queue.Some?
    ensures Offer(c, x).closing <==> |c.queue.value| >= QUEUE_BLOCKS
  {
  }

  lemma QueueClients(r: Registry, q: Registry, w: Socket, s: SessionId, b: Block, x: Socket)
    requires Core(r) && Queued(r, q, w, s, b) && r.clients[w].sessionId == Some(s) && x in q.clients
    ensures Fed(q, q.clients[x]) && Shape(q.clients[x])
    ensures var c, d := r.clients[x], q.clients[x]; d == c.(subscribers := d.subscribers, queue := d.queue, closing := d.closing)
    ensures Listens(q, s, x) <==> Listens(r, s, x) && HasRoom(r, x)
    ensures forall t :: t != s ==> (Listens(q, t, x) <==> Listens(r, t, x))
  {
    hide Fed, Framed, OwnersAgree;
    var c := r.clients[x];
    assert Shape(c) && Shape(r.clients[w]);
    OwnSession(r, w);
    FedInLogs(r, c);
    FedOffer(r, q, c, s, b);
    if x == w {
      FedFrame(q, q, c, q.clients[x]);
    } else if x in r.clients[w].subscribers {
      assert Listens(r, s, x);
      OfferShape(c, Data(b));
    } else {
      assert !Listens(r, s, x);
    }
  }

  lemma QueueKeeps(r: Registry, w: Socket, s: SessionId, b: Block)
    requires Core(r) && w in r.clients && r.clients[w].sessionId == Some(s)
    ensures Core(QueueBlock(r, w, s, b)) && s in r.logs
    ensures Queued(r, QueueBlock(r, w, s, b), w, s, b)
  {
    var q := QueueBlock(r, w, s, b);
    assert Shape(r.clients[w]);
    QueueShape(r, w, s, b);
    hide Fed, Shape, Framed, OwnersAgree, SessionsAgree, QueueBlock, Queued, Listens, HasRoom;
    forall x | x in q.clients
      ensures Fed(q, q.clients[x]) && Shape(q.clients[x])
    {
      QueueClients(r, q, w, s, b, x);
    }
    QueueRegistries(r, q, w, s, b);
  }

  lemma QueueRegistries(r: Registry, q: Registry, w: Socket, s: SessionId, b: Block)
    requires Core(r) && Queued(r, q, w, s, b) && r.clients[w].sessionId == Some(s)
    ensures OwnersAgree(q) && SessionsAgree(q) && ListsAgree(q)
    ensures forall x :: x in q.clients && q.clients[x].sessionId.Some? ==> q.clients[x].sessionId.value in q.logs
  {
    hide Fed, Shape, Framed, Offer;
    forall x | x in q.clients
      ensures var c, d := r.clients[x], q.clients[x]; d == c.(subscribers := d.subscribers, queue := d.queue, closing := d.closing)
      ensures Listens(q, s, x) <==> Listens(r, s, x) && HasRoom(r, x)
      ensures forall t :: t != s ==> (Listens(q, t, x) <==> Listens(r, t, x))
    {
      QueueClients(r, q, w, s, b, x);
    }
    hide Listens, HasRoom, Queued, ListsAgree, OwnersAgree, SessionsAgree;
    QueueFrame(r, q, w, s, b);
    OwnersFrame(r, q);
    SessionsFrame(r, q);
    QueueLists(r, q, w, s, b);
  }

  lemma QueueFrame(r: Registry, q: Registry, w: Socket, s: SessionId, b: Block)
    requires Queued(r, q, w, s, b)
    ensures q.clients.Keys == r.clients.Keys && q.owners == r.owners && q.sessions == r.sessions && q.logs.Keys >= r.logs.Keys
  {
  }

  lemma QueueLists(r: Registry, q: Registry, w: Socket, s: SessionId, b: Block)
    requires SessionsAgree(r) && ListsAgree(r) && Queued(r, q, w, s, b) && r.clients[w].sessionId == Some(s)
    requires forall x :: x in q.clients ==>
      var c, d := r.clients[x], q.clients[x]; d == c.(subscribers := d.subscribers, queue := d.queue, closing := d.closing)
    requires forall x :: x in q.clients ==> (Listens(q, s, x) <==> Listens(r, s, x) && HasRoom(r, x))
    requires forall x, t :: x in q.clients && t != s ==> (Listens(q, t, x) <==> Listens(r, t, x))
    ensures ListsAgree(q)
  {
    hide HasRoom, Listens, SessionsAgree, ListsAgree;
    ListedHere(r, w, s);
    ListsShrink(r, q, w, s);
  }

  lemma ListedHere(r: Registry, w: Socket, s: SessionId)
    requires ListsAgree(r) && w in r.clients && r.clients[w].sessionId == Some(s)
    ensures forall x :: x in r.clients[w].subscribers ==> x in r.clients && Listens(r, s, x)
  {
  }

  /** The owner's list loses those that no longer listen. */
  lemma ListsShrink(r: Registry, q: Registry, w: Socket, s: SessionId)
    requires SessionsAgree(r) && ListsAgree(r) && w in r.clients && r.clients[w].sessionId == Some(s)
    requires q.clients.Keys == r.clients.Keys && q.sessions == r.sessions
    requires forall v :: v in r.clients ==> q.clients[v].sessionId == r.clients[v].sessionId
    requires forall v :: v in r.clients && v != w ==> q.clients[v].subscribers == r.clients[v].subscribers
    requires q.clients[w].subscribers <= r.clients[w].subscribers
    requires forall x :: x in r.clients[w].subscribers ==> (x in q.clients[w].subscribers <==> Listens(q, s, x))
    requires forall x, t :: x in q.clients ==> (Listens(q, t, x) ==> Listens(r, t, x)) && (t != s ==> (Listens(q, t, x) <==> Listens(r, t, x)))
    ensures ListsAgree(q)
  {
    assert r.sessions[s] == w;
    forall v | v in r.clients && v != w
      ensures r.clients[v].sessionId != Some(s)
    {
    }
    forall t, x | Listens(q, t, x)
      ensures x in q.clients
    {
    }
    Smaller(q.clients[w].subscribers, r.clients[w].subscribers);
    hide Listens;
  }

  lemma Smaller(a: set<Socket>, b: set<Socket>)
    requires a <= b
    ensures |a| <= |b|
  {
    assert b == a + (b - a);
  }

  /** Every other running capture's framer agrees with its log. */
  ghost predicate OthersFramed(r: Registry, w: Socket) {
    forall v :: v in r.clients && v != w && r.clients[v].sessionId.Some? && r.clients[v].sessionId.value in r.logs ==>
      Framed(r.clients[v].framer, r.logs[r.clients[v].sessionId.value])
  }

  lemma {:induction false} QueueAllKeeps(r: Registry, w: Socket, s: SessionId, bs: seq<Block>)
    requires Core(r) && OthersFramed(r, w) && w in r.clients && r.clients[w].sessionId == Some(s) && s in r.logs
    ensures var q := QueueBlocks(r, w, s, bs);
            && Core(q) && OthersFramed(q, w) && q.clients[w].sessionId == Some(s) && q.clients[w].framer == r.clients[w].framer
            && s in q.logs && q.logs[s] == r.logs[s] + bs
    decreases |bs|
  {
    hide Core, Framed, QueueBlock, OthersFramed, Queued;
    if bs == [] {
      assert r.logs[s] + bs == r.logs[s];
    } else {
      var q := QueueBlock(r, w, s, bs[0]);
      QueueKeeps(r, w, s, bs[0]);
      QueueOthers(r, q, w, s, bs[0]);
      QueueAllKeeps(q, w, s, bs[1..]);
      assert r.logs[s] + [bs[0]] + bs[1..] == r.logs[s] + bs;
    }
  }

  /** The other captures' framers and logs are not touched. */
  lemma QueueOthers(r: Registry, q: Registry, w: Socket, s: SessionId, b: Block)
    requires Core(r) && Queued(r, q, w, s, b) && r.clients[w].sessionId == Some(s)
    ensures w in q.clients && q.clients[w].sessionId == Some(s) && q.clients[w].framer == r.clients[w].framer
    ensures s in q.logs && q.logs[s] == r.logs[s] + [b]
    ensures OthersFramed(r, w) ==> OthersFramed(q, w)
  {
    hide Fed, Framed, OwnersAgree, ListsAgree, HasRoom;
    OwnSession(r, w);
    forall v | v in r.clients && v != w
      ensures q.clients[v].sessionId == r.clients[v].sessionId && q.clients[v].framer == r.clients[v].framer
    {
    }
    forall v | v in r.clients && v != w && r.clients[v].sessionId.Some?
      ensures r.clients[v].sessionId.value in r.logs && r.clients[v].sessionId.value != s
    {
      OwnSession(r, v);
    }
    assert q.logs == r.logs[s := r.logs[s] + [b]];
    hide Queued, SessionsAgree;
  }

  lemma KeepsChunk(r: Registry, w: Socket, bytes: seq<Byte>)
    requires Inv(r) && Enabled(r, Chunk(w, bytes))
    ensures Inv(Broadcast(r, w, bytes))
  {
    hide Fed, Framed, OwnersAgree, SessionsAgree, ListsAgree, Framer.Feed;
    var c := r.clients[w];
    assert Shape(c);
    var s := c.sessionId.value;
    var (bs, f) := Framer.Feed(c.framer, bytes);
    var q := Put(r, w, c.(framer := f));
    FeedExtendsLog(c.framer, r.logs[s], bytes);
    FramerMoves(r, q, w);
    QueueAllKeeps(q, w, s, bs);
    hide Core, Shape;
    var p := QueueBlocks(q, w, s, bs);
    assert Framed(p.clients[w].framer, p.logs[s]);
  }

  lemma FramerMoves(r: Registry, q: Registry, w: Socket)
    requires Inv(r) && w in r.clients && w in q.clients && r.clients[w].phase != Ready
    requires q == Put(r, w, r.clients[w].(framer := q.clients[w].framer))
    ensures Core(q) && OthersFramed(q, w)
  {
    hide Fed, Framed, Shape, OwnersAgree, SessionsAgree, ListsAgree;
    FramerShape(r.clients[w], q.clients[w]);
    OwnersFrame(r, q);
    ParallelSessions(r, q);
    ParallelLists(r, q);
    ParallelFed(r, q);
  }

  lemma FramerShape(c: Client, d: Client)
    requires Shape(c) && c.phase != Ready && d == c.(framer := d.framer)
    ensures Shape(d)
  {
  }

  // ---------------------------------------------------------------- joining

  lemma KeepsAttach(r: Registry, w: Socket)
    requires Inv(r) && Enabled(r, SubscribeEnd(w))
    ensures Inv(Attach(r, w))
  {
    hide Fed, Framed, OwnersAgree, SessionsAgree, ListsAgree, Replay;
    var s := r.clients[w].phase.session;
    var q := Attach(r, w);
    assert Shape(r.clients[w]);
    if s !in r.sessions || r.sessions[s] !in r.clients || |r.clients[r.sessions[s]].subscribers| >= MAX_SUBSCRIBERS {
      OwnersFrame(r, q);
      QuietStep(r, q, w);
    } else {
      AttachKeeps(r, w);
    }
  }

  lemma AttachKeeps(r: Registry, w: Socket)
    requires Inv(r) && Enabled(r, SubscribeEnd(w)) && Room(r, r.clients[w].phase.session)
    ensures Inv(Attach(r, w))
  {
    hide Fed, Framed, Shape, OwnersAgree, SessionsAgree, ListsAgree, Replay, Attach;
    var q := Attach(r, w);
    AttachShape(r, w);
    AttachFed(r, w);
    OwnersFrame(r, q);
    SessionsFrame(r, q);
    AttachLists(r, w);
  }

  predicate Room(r: Registry, s: SessionId) {
    s in r.sessions && r.sessions[s] in r.clients && |r.clients[r.sessions[s]].subscribers| < MAX_SUBSCRIBERS
  }

  lemma AttachShape(r: Registry, w: Socket)
    requires Inv(r) && Enabled(r, SubscribeEnd(w)) && Room(r, r.clients[w].phase.session)
    ensures var s := r.clients[w].phase.session;
            var o, q := r.sessions[s], Attach(r, w);
            && o != w && s in r.logs && r.clients[o].sessionId == Some(s)
            && q.clients.Keys == r.clients.Keys && q.owners == r.owners && q.sessions == r.sessions && q.logs == r.logs
            && q.clients[o] == r.clients[o].(subscribers := r.clients[o].subscribers + {w})
            && (forall x :: x in r.clients && x != o && x != w ==> q.clients[x] == r.clients[x])
            && q.clients[w] == r.clients[w].(subscribedTo := Some(s), queue := q.clients[w].queue, closing := false, sender := Waiting,
                 phase := Idle, feedOf := Some(s), joinAt := |r.logs[s]|, hello := r.clients[o].framer.header, sent := [])
            && q.clients[w].queue == Some([Subscribed(s)] + if r.clients[o].framer.header == [] then [] else [Data(r.clients[o].framer.header)])
            && Shape(q.clients[w]) && Shape(q.clients[o])
  {
    hide Inv, Core, Fed, OwnersAgree, ListsAgree;
    var s := r.clients[w].phase.session;
    Parts(r);
    One(r, w);
    One(r, r.sessions[s]);
    Logged(r, s);
  }

  lemma AttachFed(r: Registry, w: Socket)
    requires Inv(r) && Enabled(r, SubscribeEnd(w)) && Room(r, r.clients[w].phase.session)
    ensures var q := Attach(r, w); forall x :: x in q.clients ==> Fed(q, q.clients[x])
  {
    hide Fed, OwnersAgree, ListsAgree, Replay, Attach, Framed;
    AttachShape(r, w);
    var q := Attach(r, w);
    var s := r.clients[w].phase.session;
    var o := r.sessions[s];
    forall x | x in q.clients
      ensures Fed(q, q.clients[x])
    {
      if x == w {
        assert Framed(r.clients[o].framer, r.logs[s]);
        FreshFeed(q, q.clients[w], r.clients[o].framer, s);
      } else {
        FedFrame(r, q, r.clients[x], q.clients[x]);
      }
    }
  }

  lemma FreshFeed(q: Registry, c: Client, f: Framer.State, s: SessionId)
    requires s in q.logs && s in q.sessions && Framed(f, q.logs[s])
    requires c.subscribedTo == Some(s) && c.feedOf == Some(s) && !c.closing && c.sender == Waiting && c.sent == []
    requires c.joinAt == |q.logs[s]| && c.hello == f.header
    requires c.queue == Some([Subscribed(s)] + if f.header == [] then [] else [Data(f.header)])
    ensures Fed(q, c)
  {
    assert q.logs[s][..|q.logs[s]|] == q.logs[s];
    assert Datas(q.logs[s][|q.logs[s]|..]) == [];
  }

  /** One more listener, listed by its session's owner. */
  lemma ListsGrow(r: Registry, q: Registry, s: SessionId, o: Socket, w: Socket)
    requires SessionsAgree(r) && ListsAgree(r) && s in r.sessions && r.sessions[s] == o && o in r.clients && w in r.clients && o != w
    requires q.clients.Keys == r.clients.Keys && q.sessions == r.sessions && |r.clients[o].subscribers| < MAX_SUBSCRIBERS
    requires q.clients[o] == r.clients[o].(subscribers := r.clients[o].subscribers + {w})
    requires forall x :: x in r.clients && x != o ==> q.clients[x].subscribers == r.clients[x].subscribers && q.clients[x].sessionId == r.clients[x].sessionId
    requires forall t, x :: Listens(q, t, x) <==> (Listens(r, t, x) || (t == s && x == w))
    ensures ListsAgree(q)
  {
    hide Listens;
  }

  lemma AttachListens(r: Registry, w: Socket, t: SessionId, x: Socket)
    requires Inv(r) && Enabled(r, SubscribeEnd(w)) && Room(r, r.clients[w].phase.session)
    ensures Listens(Attach(r, w), t, x) <==> (Listens(r, t, x) || (t == r.clients[w].phase.session && x == w))
  {
    hide Inv, Core, Attach, Fed;
    AttachShape(r, w);
    One(r, w);
  }

  lemma AttachLists(r: Registry, w: Socket)
    requires Inv(r) && Enabled(r, SubscribeEnd(w)) && Room(r, r.clients[w].phase.session)
    ensures ListsAgree(Attach(r, w))
  {
    hide Inv, Core, Fed, Attach, SessionsAgree, ListsAgree, Listens, Shape;
    AttachShape(r, w);
    var q := Attach(r, w);
    var s := r.clients[w].phase.session;
    forall t, x
      ensures Listens(q, t, x) <==> (Listens(r, t, x) || (t == s && x == w))
    {
      AttachListens(r, w, t, x);
    }
    Parts(r);
    ListsGrow(r, q, s, r.sessions[s], w);
  }

  // ---------------------------------------------------------------- every run

  /** Every segment of every task keeps the registries and the deliveries in order. */
  lemma StepKeeps(r: Registry, step: Step)
    requires Inv(r) && Enabled(r, step)
    ensures Inv(Next(r, step))
  {
    hide Inv, Shape, EndSession, Release, SetPhase, SetStream, Clear;
    match step
    case Connect(w) => KeepsConnect(r, w);
    case StartClaim(w, wanted) => KeepsStartClaim(r, w, wanted);
    case StartReset(w) => KeepsStartReset(r, w);
    case StartFail(w) => KeepsStartFail(r, w);
    case Launch(w, s) => KeepsLaunch(r, w, s);
    case Chunk(w, bytes) => KeepsChunk(r, w, bytes);
    case StreamEnd(w) => KeepsStreamEnd(r, w);
    case StopBegin(w) => KeepsStopBegin(r, w);
    case StopEnd(w) => KeepsStopEnd(r, w);
    case SubscribeBegin(w, s) => KeepsClear(r, step);
    case SubscribeEnd(w) => KeepsAttach(r, w);
    case Unsubscribe(w) => KeepsClear(r, step);
    case SenderTake(w) => KeepsSender(r, step);
    case SenderSent(w) => KeepsSender(r, step);
    case SenderTimeout(w) => KeepsSender(r, step);
    case SenderFail(w) => KeepsClear(r, step);
    case SenderClosed(w) => KeepsSender(r, step);
    case DisconnectBegin(w) => KeepsClear(r, step);
    case DisconnectPop(w) => KeepsPop(r, w);
  }

  lemma ShapeOf(r: Registry, w: Socket)
    requires Inv(r) && w in r.clients
    ensures Shape(r.clients[w])
  {
  }

  lemma KeepsStreamEnd(r: Registry, w: Socket)
    requires Inv(r) && Enabled(r, StreamEnd(w))
    ensures Inv(Next(r, StreamEnd(w)))
  {
    hide Inv, EndSession;
    ShapeOf(r, w);
    EndSessionKeys(Release(r, w), w);
    var q := Next(r, StreamEnd(w));
    KeepsEnd(r, w, r.clients[w].phase);
    assert AfterEnd(r, w, r.clients[w].phase).clients == q.clients;
  }

  lemma EndSessionKeys(r: Registry, w: Socket)
    requires w in r.clients
    ensures w in EndSession(r, w).clients && EndSession(r, w).clients[w].phase == r.clients[w].phase
  {
  }

  lemma KeepsStopEnd(r: Registry, w: Socket)
    requires Inv(r) && Enabled(r, StopEnd(w))
    ensures Inv(Next(r, StopEnd(w)))
  {
    hide Inv, EndSession, Release, SetPhase, SetStream;
    ShapeOf(r, w);
    KeepsEnd(r, w, if r.clients[w].phase == LeavingStop then Left else Idle);
  }

  lemma {:induction false} RunKeeps(r: Registry, steps: seq<Step>)
    requires Inv(r) && Allowed(r, steps)
    ensures Inv(Run(r, steps))
    decreases |steps|
  {
    hide Inv, Next, Enabled;
    if steps != [] {
      StepKeeps(r, steps[0]);
      RunKeeps(Next(r, steps[0]), steps[1..]);
    }
  }

  /** On every run from an empty manager: ownership agrees, and no subscriber has a gap. */
  lemma EveryRun(steps: seq<Step>)
    requires Allowed(EMPTY, steps)
    ensures Inv(Run(EMPTY, steps))
  {
    RunKeeps(EMPTY, steps);
  }

  // ---------------------------------------------------------------- what a subscriber receives

  /** The capture bytes among delivered items. */
  function Payload(xs: seq<Item>): seq<seq<Byte>> {
    if xs == [] then [] else (if xs[0].Data? then [xs[0].bytes] else []) + Payload(xs[1..])
  }

  lemma {:induction false} PayloadAppend(xs: seq<Item>, ys: seq<Item>)
    ensures Payload(xs + ys) == Payload(xs) + Payload(ys)
  {
    if xs == [] {
      assert xs + ys == ys;
    } else {
      assert (xs + ys)[1..] == xs[1..] + ys;
      PayloadAppend(xs[1..], ys);
    }
  }

  lemma {:induction false} PayloadOfDatas(bs: seq<Block>)
    ensures Payload(Datas(bs)) == bs
  {
    if bs != [] {
      assert Datas(bs)[1..] == Datas(bs[1..]);
      PayloadOfDatas(bs[1..]);
    }
  }

  /** The messages of capture bytes in a lossless subscription. */
  function Messages(hello: seq<Byte>, later: seq<Block>): seq<seq<Byte>> {
    (if hello == [] then [] else [hello]) + later
  }

  lemma TranscriptPayload(r: Registry, s: SessionId, joinAt: nat, hello: seq<Byte>)
    requires s in r.logs && joinAt <= |r.logs[s]|
    ensures Payload(Transcript(r, s, joinAt, hello)) == Messages(hello, r.logs[s][joinAt..])
  {
    var head := if hello == [] then [] else [Data(hello)];
    var tail := if s in r.sessions then [] else [Ended(s), Done];
    var later := Datas(r.logs[s][joinAt..]);
    PayloadOfDatas(r.logs[s][joinAt..]);
    PayloadAppend([Subscribed(s)] + head + later, tail);
    PayloadAppend([Subscribed(s)] + head, later);
    PayloadAppend([Subscribed(s)], head);
    assert tail != [] ==> tail[1..] == [Done] && tail[1..][1..] == [];
  }

  lemma PayloadPrefix(xs: seq<Item>, ys: seq<Item>)
    requires xs <= ys
    ensures Payload(xs) <= Payload(ys)
  {
    assert ys == xs + ys[|xs|..];
    PayloadAppend(xs, ys[|xs|..]);
  }

  /** On every run: the bytes sent are whole blocks, the header at join and then every later block, cut short at most at the end. */
  lemma NoGaps(steps: seq<Step>, w: Socket)
    requires Allowed(EMPTY, steps) && w in Run(EMPTY, steps).clients && Run(EMPTY, steps).clients[w].feedOf.Some?
    ensures var r := Run(EMPTY, steps);
            var c := r.clients[w];
            var s := c.feedOf.value;
            && s in r.logs && c.joinAt <= |r.logs[s]| && Blocks(None, r.logs[s][..c.joinAt])
            && c.hello == Flat(Replay(None, NO_HEAD, r.logs[s][..c.joinAt]).kept)
            && Payload(c.sent) <= Messages(c.hello, r.logs[s][c.joinAt..])
  {
    hide Run, Allowed, Replay, Transcript;
    EveryRun(steps);
    var r := Run(EMPTY, steps);
    var c := r.clients[w];
    SentIsPrefix(r, c);
    TranscriptPayload(r, c.feedOf.value, c.joinAt, c.hello);
  }

  lemma SentIsPrefix(r: Registry, c: Client)
    requires Fed(r, c) && Shape(c) && c.feedOf.Some?
    ensures Payload(c.sent) <= Payload(Transcript(r, c.feedOf.value, c.joinAt, c.hello))
  {
    hide Transcript, Replay;
    FedIsDelivered(r, c);
    var all := Transcript(r, c.feedOf.value, c.joinAt, c.hello);
    if c.sent <= all {
      PayloadPrefix(c.sent, all);
    } else {
      var cut := c.sent[..|c.sent| - 1];
      assert c.sent == cut + [Close];
      PayloadAppend(cut, [Close]);
      assert Payload([Close]) == [];
      PayloadPrefix(cut, all);
    }
  }

  /** Once evicted, only the close is left to send; never evicted, the end event comes after every block. */
  lemma EndAfterEverything(steps: seq<Step>, w: Socket)
    requires Allowed(EMPTY, steps) && w in Run(EMPTY, steps).clients && Run(EMPTY, steps).clients[w].subscribedTo.Some?
    ensures var r := Run(EMPTY, steps);
            var c := r.clients[w];
            var s := c.subscribedTo.value;
            && c.queue.Some? && s in r.logs && c.joinAt <= |r.logs[s]|
            && (c.closing ==> c.queue.value == [Close] || (c.queue.value == [] && InFlight(c) == [Close]))
            && (!c.closing && s !in r.sessions ==>
                  c.sent + InFlight(c) + c.queue.value ==
                  [Subscribed(s)] + (if c.hello == [] then [] else [Data(c.hello)]) + Datas(r.logs[s][c.joinAt..]) + [Ended(s), Done])
  {
    hide Run, Allowed, Replay;
    EveryRun(steps);
    ShapeOf(Run(EMPTY, steps), w);
  }

  /** A transcript up to and with the end event has all the bytes. */
  lemma EndedHasAll(r: Registry, s: SessionId, joinAt: nat, hello: seq<Byte>, xs: seq<Item>)
    requires s in r.logs && joinAt <= |r.logs[s]| && xs <= Transcript(r, s, joinAt, hello) && Ended(s) in xs
    ensures s !in r.sessions && Payload(xs) == Messages(hello, r.logs[s][joinAt..])
  {
    hide Payload, Messages;
    var later := r.logs[s][joinAt..];
    var body := [Subscribed(s)] + (if hello == [] then [] else [Data(hello)]) + Datas(later);
    var all := Transcript(r, s, joinAt, hello);
    assert forall k :: 0 <= k < |body| ==> body[k] != Ended(s);
    assert all[..|body|] == body;
    var i :| 0 <= i < |xs| && xs[i] == Ended(s);
    assert all[i] == Ended(s);
    assert s !in r.sessions by {
      assert s in r.sessions ==> all == body;
    }
    assert all == body + [Ended(s), Done];
    assert i == |body|;
    assert xs == body + xs[|body|..];
    PayloadAppend(body, xs[|body|..]);
    NoBytes(xs[|body|..]);
    assert all == body + all[|body|..];
    PayloadAppend(body, all[|body|..]);
    NoBytes(all[|body|..]);
    TranscriptPayload(r, s, joinAt, hello);
  }

  lemma {:induction false} NoBytes(xs: seq<Item>)
    requires forall x :: x in xs ==> !x.Data?
    ensures Payload(xs) == []
  {
    if xs != [] {
      assert xs[0] in xs;
      NoBytes(xs[1..]);
    }
  }

  /**
   On every run, a subscriber that has been sent its session's end event has been sent all of it: the replayed
   header and every block since it joined, none missing and none twice; and the session is over.
   */
  lemma DeliveredWhole(steps: seq<Step>, w: Socket)
    requires Allowed(EMPTY, steps) && w in Run(EMPTY, steps).clients && Run(EMPTY, steps).clients[w].feedOf.Some?
    requires Ended(Run(EMPTY, steps).clients[w].feedOf.value) in Run(EMPTY, steps).clients[w].sent
    ensures var r := Run(EMPTY, steps);
            var c := r.clients[w];
            var s := c.feedOf.value;
            && s in r.logs && c.joinAt <= |r.logs[s]| && s !in r.sessions
            && Payload(c.sent) == Messages(c.hello, r.logs[s][c.joinAt..])
  {
    hide Run, Allowed, Payload, Messages, Replay;
    EveryRun(steps);
    var r := Run(EMPTY, steps);
    var c := r.clients[w];
    One(r, w);
    SentWhole(r, c);
  }

  lemma SentWhole(r: Registry, c: Client)
    requires Fed(r, c) && Shape(c) && c.feedOf.Some? && Ended(c.feedOf.value) in c.sent
    ensures var s := c.feedOf.value; s !in r.sessions && Payload(c.sent) == Messages(c.hello, r.logs[s][c.joinAt..])
  {
    hide Transcript, Replay, Messages, Payload;
    FedIsDelivered(r, c);
    var s := c.feedOf.value;
    if c.sent <= Transcript(r, s, c.joinAt, c.hello) {
      EndedHasAll(r, s, c.joinAt, c.hello, c.sent);
    } else {
      var cut := c.sent[..|c.sent| - 1];
      assert c.sent == cut + [Close];
      EndedHasAll(r, s, c.joinAt, c.hello, cut);
      PayloadAppend(cut, [Close]);
      NoBytes([Close]);
    }
  }

  /** A sender that comes to the end mark has sent everything, the end event last. */
  lemma EndMarkMeansWhole(steps: seq<Step>, w: Socket)
    requires Allowed(EMPTY, steps) && w in Run(EMPTY, steps).clients && Run(EMPTY, steps).clients[w].subscribedTo.Some?
    requires var c := Run(EMPTY, steps).clients[w]; c.sender.Waiting? && c.queue.Some? && c.queue.value != [] && c.queue.value[0] == Done
    ensures var r := Run(EMPTY, steps);
            var c := r.clients[w];
            var s := c.subscribedTo.value;
            && s in r.logs && c.joinAt <= |r.logs[s]| && c.queue.value == [Done]
            && c.sent != [] && c.sent[|c.sent| - 1] == Ended(s) && Payload(c.sent) == Messages(c.hello, r.logs[s][c.joinAt..])
  {
    hide Run, Allowed, Payload, Messages, Replay;
    EveryRun(steps);
    One(Run(EMPTY, steps), w);
    EndMarkLast(Run(EMPTY, steps), Run(EMPTY, steps).clients[w]);
    SentWhole(Run(EMPTY, steps), Run(EMPTY, steps).clients[w]);
  }

  lemma EndMarkLast(r: Registry, c: Client)
    requires Fed(r, c) && Shape(c) && c.subscribedTo.Some? && c.sender.Waiting? && c.queue.value != [] && c.queue.value[0] == Done
    ensures c.queue.value == [Done] && c.sent != [] && c.sent[|c.sent| - 1] == Ended(c.subscribedTo.value)
  {
    hide Replay;
    var s := c.subscribedTo.value;
    var body := [Subscribed(s)] + (if c.hello == [] then [] else [Data(c.hello)]) + Datas(r.logs[s][c.joinAt..]);
    var all := Transcript(r, s, c.joinAt, c.hello);
    assert forall k :: 0 <= k < |body| ==> body[k] != Done;
    assert c.sent + c.queue.value == all;
    assert all[|c.sent|] == Done;
    assert all[..|body|] == body;
    assert s !in r.sessions by {
      assert s in r.sessions ==> all == body;
    }
    assert all == body + [Ended(s), Done];
    assert |c.sent| == |body| + 1;
    assert c.sent[|body|] == all[|body|];
  }

  // ---------------------------------------------------------------- down to the packets

  /** Every session's log is whole sections. */
  ghost predicate LogsAgree(r: Registry) { forall s :: s in r.logs ==> Blocks(None, r.logs[s]) }

  lemma {:induction false} QueueLogs(r: Registry, w: Socket, s: SessionId, bs: seq<Block>)
    requires w in r.clients && s in r.logs
    ensures QueueBlocks(r, w, s, bs).logs == r.logs[s := r.logs[s] + bs]
    decreases |bs|
  {
    hide QueueBlock;
    if bs == [] {
      assert r.logs[s] + bs == r.logs[s];
    } else {
      QueueBlockLogs(r, w, s, bs[0]);
      QueueLogs(QueueBlock(r, w, s, bs[0]), w, s, bs[1..]);
      assert r.logs[s] + [bs[0]] + bs[1..] == r.logs[s] + bs;
    }
  }

  lemma QueueBlockLogs(r: Registry, w: Socket, s: SessionId, b: Block)
    requires w in r.clients && s in r.logs
    ensures w in QueueBlock(r, w, s, b).clients && QueueBlock(r, w, s, b).logs == r.logs[s := r.logs[s] + [b]]
  {
    hide Listens, HasRoom, Offer;
  }

  lemma LogsSame(r: Registry, step: Step)
    requires Enabled(r, step) && !step.Chunk? && !step.Launch?
    ensures Next(r, step).logs == r.logs
  {
    hide Clear, EndSession, Release, Attach, Claim;
    PartsLogs(r, step.w, None);
    if step.SenderTake? {
      TakeLogs(r, step.w);
    }
    if step.SenderSent? {
      SentLogs(r, step.w);
    }
    hide Taken, Sent;
    if step.w in r.clients {
      PartsLogs(r, step.w, r.clients[step.w].subscribedTo);
      PartsLogs(Release(r, step.w), step.w, None);
      PartsLogs(Put(r, step.w, r.clients[step.w].(sent := r.clients[step.w].sent + [Close])), step.w, r.clients[step.w].subscribedTo);
    }
    if step.SubscribeEnd? {
      AttachLogs(r, step.w);
    }
    if step.StartClaim? {
      ClaimLogs(r, step.w, step.wanted);
    }
  }

  lemma PartsLogs(r: Registry, w: Socket, expected: Option<SessionId>)
    ensures Clear(r, w, expected).logs == r.logs && Release(r, w).logs == r.logs && Release(r, w).clients.Keys == r.clients.Keys
    ensures w in r.clients ==> EndSession(r, w).logs == r.logs
  {
    hide Finish;
  }

  lemma TakeLogs(r: Registry, w: Socket)
    requires w in r.clients && r.clients[w].queue.Some? && r.clients[w].queue.value != []
    ensures Taken(r, w).logs == r.logs
  {
  }

  lemma SentLogs(r: Registry, w: Socket)
    requires w in r.clients && r.clients[w].sender.Sending?
    ensures Sent(r, w).logs == r.logs
  {
  }

  lemma AttachLogs(r: Registry, w: Socket)
    requires w in r.clients && r.clients[w].phase.Subscribing?
    ensures Attach(r, w).logs == r.logs
  {
  }

  lemma ClaimLogs(r: Registry, w: Socket, wanted: set<Iface>)
    requires w in r.clients
    ensures Claim(r, w, wanted).logs == r.logs
  {
  }

  lemma LogsKeep(r: Registry, step: Step)
    requires Inv(r) && LogsAgree(r) && Enabled(r, step)
    ensures LogsAgree(Next(r, step))
  {
    hide Fed, Framed, Shape, OwnersAgree, SessionsAgree, ListsAgree, QueueBlocks, Framer.Feed;
    if step.Chunk? {
      var w := step.w;
      var c := r.clients[w];
      ShapeOf(r, w);
      ChunkHasSession(c);
      var s := c.sessionId.value;
      var (bs, f) := Framer.Feed(c.framer, step.bytes);
      FeedExtendsLog(c.framer, r.logs[s], step.bytes);
      FramedIsBlocks(f, r.logs[s] + bs);
      QueueLogs(Put(r, w, c.(framer := f)), w, s, bs);
    } else if !step.Launch? {
      hide Next, Enabled;
      LogsSame(r, step);
    }
  }

  lemma EmptyIsFine()
    ensures Inv(EMPTY) && LogsAgree(EMPTY)
  {
  }

  lemma ChunkHasSession(c: Client)
    requires Shape(c) && c.stream == Running
    ensures c.sessionId.Some?
  {
  }

  lemma FramedIsBlocks(f: Framer.State, log: seq<Block>)
    requires Framed(f, log)
    ensures Blocks(None, log)
  {
  }

  lemma {:induction false} RunKeepsLogs(r: Registry, steps: seq<Step>)
    requires Inv(r) && LogsAgree(r) && Allowed(r, steps)
    ensures LogsAgree(Run(r, steps))
    decreases |steps|
  {
    hide Inv, LogsAgree, Next, Enabled;
    if steps != [] {
      StepKeeps(r, steps[0]);
      LogsKeep(r, steps[0]);
      RunKeepsLogs(Next(r, steps[0]), steps[1..]);
    }
  }

  /** What a subscriber's reader decodes is what a reader of the whole capture decodes from the join on, up to where delivery stopped. */
  lemma SubscriberDecodes(steps: seq<Step>, w: Socket) returns (n: nat)
    requires Allowed(EMPTY, steps) && w in Run(EMPTY, steps).clients && Run(EMPTY, steps).clients[w].feedOf.Some?
    requires var r := Run(EMPTY, steps);
             var c := r.clients[w];
             var s := c.feedOf.value;
             s in r.logs && c.joinAt <= |r.logs[s]| && Blocks(None, r.logs[s][..c.joinAt]) ==>
               ReaderLaws.Missed(None, NO_HEAD, 0, r.logs[s][..c.joinAt]) == 0
    ensures var r := Run(EMPTY, steps);
            var c := r.clients[w];
            var s := c.feedOf.value;
            && s in r.logs && c.joinAt + n <= |r.logs[s]| && Blocks(None, r.logs[s][..c.joinAt])
            && Reader.FeedAll(Reader.INITIAL, Payload(c.sent)).0 ==
               ReaderLaws.FullView(r.logs[s][..c.joinAt], r.logs[s][c.joinAt..c.joinAt + n])
  {
    hide Run, Allowed, Inv, Replay, Blocks, Payload, Messages, LogsAgree, Reader.FeedAll, ReaderLaws.FullView, ReaderLaws.Missed;
    EveryRun(steps);
    EmptyIsFine();
    RunKeepsLogs(EMPTY, steps);
    NoGaps(steps, w);
    n := ClientDecodes(Run(EMPTY, steps), w);
  }

  /** The same for one client of one state, from what holds in it. */
  lemma ClientDecodes(r: Registry, w: Socket) returns (n: nat)
    requires LogsAgree(r) && w in r.clients && r.clients[w].feedOf.Some? && r.clients[w].feedOf.value in r.logs
    requires var c := r.clients[w]; var log := r.logs[c.feedOf.value];
             && c.joinAt <= |log| && Blocks(None, log[..c.joinAt]) && ReaderLaws.Missed(None, NO_HEAD, 0, log[..c.joinAt]) == 0
             && c.hello == Flat(Replay(None, NO_HEAD, log[..c.joinAt]).kept) && Payload(c.sent) <= Messages(c.hello, log[c.joinAt..])
    ensures var c := r.clients[w]; var log := r.logs[c.feedOf.value];
            && c.joinAt + n <= |log|
            && Reader.FeedAll(Reader.INITIAL, Payload(c.sent)).0 == ReaderLaws.FullView(log[..c.joinAt], log[c.joinAt..c.joinAt + n])
  {
    hide Replay, Blocks, Payload, Messages, LogsAgree, Reader.FeedAll, ReaderLaws.FullView, ReaderLaws.Missed;
    var c := r.clients[w];
    LogIsWhole(r, c.feedOf.value);
    n := Decoded(r.logs[c.feedOf.value], c.joinAt, c.hello, Payload(c.sent));
  }

  lemma LogIsWhole(r: Registry, s: SessionId)
    requires LogsAgree(r) && s in r.logs
    ensures Blocks(None, r.logs[s])
  {
  }

  lemma LaterBlocks(log: seq<Block>, k: nat, n: nat)
    requires k + n <= |log| && Blocks(None, log) && Blocks(None, log[..k])
    ensures Blocks(LastOrder(None, log[..k]), log[k..k + n])
  {
    hide Blocks, LastOrder;
    assert log == log[..k] + log[k..];
    BlocksAppend(None, log[..k], log[k..]);
    assert log[k..] == log[k..k + n] + log[k + n..];
    ReaderLaws.BlocksPrefix(LastOrder(None, log[..k]), log[k..k + n], log[k + n..]);
  }

  lemma GotIs(hello: seq<Byte>, later: seq<Block>, got: seq<seq<Byte>>)
    requires got <= Messages(hello, later) && (hello == [] || got != [])
    ensures var n := if hello == [] then |got| else |got| - 1;
            n <= |later| && got == Messages(hello, later[..n])
  {
  }

  lemma Decoded(log: seq<Block>, k: nat, hello: seq<Byte>, got: seq<seq<Byte>>) returns (n: nat)
    requires k <= |log| && Blocks(None, log) && Blocks(None, log[..k])
    requires hello == ReaderLaws.Header(log[..k]) && ReaderLaws.Missed(None, NO_HEAD, 0, log[..k]) == 0
    requires got <= Messages(hello, log[k..])
    ensures k + n <= |log|
    ensures Reader.FeedAll(Reader.INITIAL, got).0 == ReaderLaws.FullView(log[..k], log[k..k + n])
  {
    hide Reader.FeedAll, ReaderLaws.FullView, ReaderLaws.LateView, ReaderLaws.Missed, ReaderLaws.Header, Blocks, Replay, Messages;
    if hello != [] && got == [] {
      n := 0;
      ReaderLaws.NothingFed(log[..k]);
      assert log[k..k + n] == [] && got == [];
    } else {
      n := if hello == [] then |got| else |got| - 1;
      GotIs(hello, log[k..], got);
      var later := log[k..k + n];
      assert log[k..][..n] == later;
      LaterBlocks(log, k, n);
      ReaderLaws.LateJoin(log[..k], later);
      ViewIs(log[..k], later, hello, got);
    }
  }

  /** The messages sent are the late view's. */
  lemma ViewIs(pre: seq<Block>, later: seq<Block>, hello: seq<Byte>, got: seq<seq<Byte>>)
    requires Blocks(None, pre) && hello == ReaderLaws.Header(pre) && got == Messages(hello, later)
    ensures Reader.FeedAll(Reader.INITIAL, got).0 == ReaderLaws.LateView(pre, later)
  {
    hide Reader.FeedAll, ReaderLaws.Header, Blocks;
    if hello == [] {
      ReaderLaws.EmptyFirst(later);
      assert got == later;
    }
  }
}
