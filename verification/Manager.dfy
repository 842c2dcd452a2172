/**
 The connection manager itself: its three dictionaries, updated in place by the
 code between suspension points, each segment equal to its step in Sessions.
 */
module Manager {
  import opened Bytes
  import opened Pcapng
  import opened Sessions
  import opened SessionLaws
  import opened FramerLaws
  import Framer
  import SessionEffects

  function Elements(xs: seq<Iface>): set<Iface> { set x | x in xs }

  /** `done` of `w`'s listed subscribers have been offered `x`; a full one is unlisted. */
  ghost predicate Served(r: Registry, q: Registry, w: Socket, done: set<Socket>, x: Item) {
    && w in r.clients && q.clients.Keys == r.clients.Keys && q.owners == r.owners && q.sessions == r.sessions && q.logs == r.logs
    && q.clients[w] == r.clients[w].(subscribers := q.clients[w].subscribers)
    && (forall v :: v in q.clients[w].subscribers <==> v in r.clients[w].subscribers && (v in done ==> HasRoom(r, v)))
    && (forall v :: v in r.clients && v != w ==>
          if v in done then r.clients[v].queue.Some? && q.clients[v] == Offer(r.clients[v], x) else q.clients[v] == r.clients[v])
  }

  lemma ListedListen(r: Registry, w: Socket)
    requires Core(r) && w in r.clients && r.clients[w].sessionId.Some?
    ensures forall v :: v in r.clients[w].subscribers ==> v != w && Listens(r, r.clients[w].sessionId.value, v)
  {
    hide Fed, OwnersAgree, SessionsAgree;
    assert Shape(r.clients[w]);
  }

  lemma ServedNone(r: Registry, w: Socket, x: Item)
    requires w in r.clients
    ensures Served(r, r, w, {}, x)
  {
  }

  lemma ServedKeeps(r: Registry, q: Registry, w: Socket, done: set<Socket>, x: Item)
    requires Served(r, q, w, done, x)
    ensures w in q.clients && q.logs == r.logs
  {
  }

  lemma ServedClients(r: Registry, q: Registry, w: Socket, s: SessionId, b: Block)
    requires w in r.clients && r.clients[w].sessionId == Some(s)
    requires forall v :: v in r.clients[w].subscribers ==> v != w && Listens(r, s, v)
    requires Served(r, q, w, r.clients[w].subscribers, Data(b))
    ensures q.clients == QueueBlock(r, w, s, b).clients
  {
    hide HasRoom, Offer;
    var p := QueueBlock(r, w, s, b);
    assert q.clients[w].subscribers == p.clients[w].subscribers;
    forall v | v in r.clients && v != w
      ensures q.clients[v] == p.clients[v]
    {
    }
  }

  lemma ServedAll(r: Registry, q: Registry, w: Socket, s: SessionId, b: Block)
    requires Core(r) && w in r.clients && r.clients[w].sessionId == Some(s) && s in r.logs
    requires Served(r, q, w, r.clients[w].subscribers, Data(b))
    ensures q.(logs := r.logs[s := r.logs[s] + [b]]) == QueueBlock(r, w, s, b)
  {
    hide Core, Listens, HasRoom, Offer;
    ListedListen(r, w);
    ServedClients(r, q, w, s, b);
  }

  /** `w`'s session `s` is unregistered and `done` of its subscribers have been told. */
  ghost predicate Told(r: Registry, q: Registry, w: Socket, s: SessionId, done: set<Socket>) {
    && w in r.clients && q.clients.Keys == r.clients.Keys && q.owners == r.owners && q.sessions == r.sessions - {s} && q.logs == r.logs
    && q.clients[w] == r.clients[w].(sessionId := None, framer := Framer.INITIAL, subscribers := r.clients[w].subscribers - done)
    && (forall v :: v in r.clients && v != w ==>
          if v in done then r.clients[v].queue.Some? && q.clients[v] == Finish(r.clients[v], s) else q.clients[v] == r.clients[v])
  }

  lemma ToldNone(r: Registry, q: Registry, w: Socket, s: SessionId)
    requires w in r.clients && q == Put(r, w, r.clients[w].(sessionId := None, framer := Framer.INITIAL)).(sessions := r.sessions - {s})
    ensures Told(r, q, w, s, {})
  {
    assert r.clients[w].subscribers - {} == r.clients[w].subscribers;
  }

  lemma ToldAll(r: Registry, q: Registry, w: Socket, s: SessionId)
    requires Core(r) && w in r.clients && r.clients[w].sessionId == Some(s) && Told(r, q, w, s, r.clients[w].subscribers)
    ensures q == EndSession(r, w)
  {
    ListedListen(r, w);
    var listed, p := r.clients[w].subscribers, EndSession(r, w);
    assert listed - listed == {};
    hide Core, Finish, Listens;
    forall v | v in r.clients
      ensures q.clients[v] == p.clients[v]
    {
      ToldOne(r, w, s, v);
    }
    hide Told;
    assert p.clients.Keys == r.clients.Keys by { ToldOne(r, w, s, w); }
    ToldRest(r, q, w, s);
  }

  lemma ToldOne(r: Registry, w: Socket, s: SessionId, v: Socket)
    requires w in r.clients && v in r.clients && r.clients[w].sessionId == Some(s)
    requires forall x :: x in r.clients[w].subscribers ==> x != w && Listens(r, s, x)
    ensures EndSession(r, w).clients.Keys == r.clients.Keys
    ensures EndSession(r, w).clients[v] ==
            if v == w then r.clients[w].(sessionId := None, framer := Framer.INITIAL, subscribers := {})
            else if v in r.clients[w].subscribers && r.clients[v].queue.Some? then Finish(r.clients[v], s) else r.clients[v]
  {
    hide Finish;
  }

  lemma ToldRest(r: Registry, q: Registry, w: Socket, s: SessionId)
    requires w in r.clients && Told(r, q, w, s, r.clients[w].subscribers) && r.clients[w].sessionId == Some(s)
    requires EndSession(r, w).clients.Keys == r.clients.Keys
    requires forall v :: v in r.clients ==> q.clients[v] == EndSession(r, w).clients[v]
    ensures q == EndSession(r, w)
  {
    assert q.clients == EndSession(r, w).clients;
    hide Finish;
  }

  lemma ToldNobody(r: Registry, q: Registry, w: Socket)
    requires Core(r) && w in r.clients && r.clients[w].sessionId == None
    requires q == Put(r, w, r.clients[w].(sessionId := None, framer := Framer.INITIAL))
    ensures r.clients[w].subscribers == {} && q == EndSession(r, w)
  {
    NoSessionNoList(r, w);
    hide Core;
    assert q.clients == EndSession(r, w).clients;
  }

  /** A capture's framer state moved on; its session and lists are as they were. */
  lemma ChunkStart(r: Registry, q: Registry, w: Socket)
    requires Inv(r) && w in r.clients && r.clients[w].stream == Running && w in q.clients
    requires q == Put(r, w, r.clients[w].(framer := q.clients[w].framer))
    ensures Core(q)
  {
    hide Fed, Framed, OwnersAgree, SessionsAgree, ListsAgree;
    assert Shape(r.clients[w]);
    FramerMoves(r, q, w);
  }

  lemma QueueBlockKeys(r: Registry, w: Socket, s: SessionId, b: Block)
    requires w in r.clients
    ensures w in QueueBlock(r, w, s, b).clients && QueueBlock(r, w, s, b).clients[w].sessionId == r.clients[w].sessionId
  {
    hide Listens, HasRoom;
  }

  lemma ReleaseKeeps(r: Registry, w: Socket)
    requires Inv(r) && w in r.clients && (r.clients[w].stream != Off || r.clients[w].phase == Stopping || r.clients[w].phase == LeavingStop)
    ensures Core(Release(r, w)) && w in Release(r, w).clients && Release(r, w).clients[w].phase == r.clients[w].phase
  {
    hide Fed, Framed, OwnersAgree, SessionsAgree, ListsAgree;
    ReleaseOwners(r, w);
    assert Shape(r.clients[w]);
    QuietStep(r, Release(r, w), w);
  }

  class ConnectionManager {
    var clients: map<Socket, Client>
    var interfaceOwners: map<Iface, Socket>
    var sessions: map<SessionId, Socket>
    // History: every block framed in each session.
    var logs: map<SessionId, seq<Block>>

    constructor ()
      ensures Now() == EMPTY
    {
      clients, interfaceOwners, sessions, logs := map[], map[], map[], map[];
    }

    ghost function Now(): Registry
      reads this
    {
      Registry(clients, interfaceOwners, sessions, logs)
    }

    method Connect(w: Socket)
      requires Enabled(Now(), Step.Connect(w))
      modifies this
      ensures Now() == Next(old(Now()), Step.Connect(w))
    {
      clients := clients[w := NEW_CLIENT];
    }

    // -------------------------------------------------------------- interfaces

    /** Claim all of `interfaces` for one client, or none and report who is in the way. */
    method ClaimInterfaces(w: Socket, interfaces: seq<Iface>) returns (conflicts: seq<Iface>)
      requires w in clients
      modifies this
      ensures Elements(conflicts) == Conflicts(old(Now()), w, Elements(interfaces))
      ensures Now() == Claim(old(Now()), w, Elements(interfaces))
    {
      conflicts := [];
      for k := 0 to |interfaces|
        invariant forall i :: i in conflicts <==> i in interfaces[..k] && i in interfaceOwners && interfaceOwners[i] != w
      {
        var iface := interfaces[k];
        if iface in interfaceOwners && interfaceOwners[iface] != w {
          conflicts := conflicts + [iface];
        }
      }
      assert forall i :: i in Elements(conflicts) <==> i in Conflicts(Now(), w, Elements(interfaces));
      if conflicts != [] {
        assert conflicts[0] in Conflicts(Now(), w, Elements(interfaces));
        return;
      }
      var claimed := Elements(interfaces);
      var todo := claimed;
      while todo != {}
        invariant todo <= claimed
        invariant interfaceOwners == old(interfaceOwners) + map i | i in claimed - todo :: w
        invariant clients == old(clients) && sessions == old(sessions) && logs == old(logs)
      {
        var iface :| iface in todo;
        interfaceOwners := interfaceOwners[iface := w];
        todo := todo - {iface};
      }
      assert claimed - todo == claimed;
      clients := clients[w := clients[w].(interfaces := claimed)];
    }

    method ReleaseInterfaces(w: Socket)
      modifies this
      ensures Now() == Release(old(Now()), w)
    {
      if w !in clients {
        return;
      }
      var mine := clients[w].interfaces;
      var todo := mine;
      while todo != {}
        invariant todo <= mine
        invariant interfaceOwners == old(interfaceOwners) - set i | i in mine - todo && i in old(interfaceOwners) && old(interfaceOwners)[i] == w
        invariant clients == old(clients) && sessions == old(sessions) && logs == old(logs)
      {
        var iface :| iface in todo;
        if iface in interfaceOwners && interfaceOwners[iface] == w {
          interfaceOwners := interfaceOwners - {iface};
        }
        todo := todo - {iface};
      }
      assert mine - todo == mine;
      clients := clients[w := clients[w].(interfaces := {})];
    }

    // -------------------------------------------------------------- subscriptions

    method ClearSubscription(w: Socket, expected: Option<SessionId>)
      modifies this
      ensures Now() == Clear(old(Now()), w, expected)
      ensures Inv(old(Now())) && w in old(clients) ==>
                if expected in {None, old(clients)[w].subscribedTo} then SessionEffects.Detached(old(Now()), Now(), w) else Now() == old(Now())
    {
      if Inv(Now()) && w in clients {
        SessionEffects.ClearsExpected(Now(), w, expected);
      }
      hide Inv, SessionEffects.Detached;
      if w !in clients {
        return;
      }
      var session := clients[w].subscribedTo;
      if expected.Some? && session != expected {
        return;
      }
      clients := clients[w := clients[w].(subscribedTo := None, queue := None, closing := false, sender := NoTask)];
      if session.Some? && session.value in sessions {
        var owner := sessions[session.value];
        if owner in clients {
          clients := clients[owner := clients[owner].(subscribers := clients[owner].subscribers - {w})];
        }
      }
    }

    method CloseSubscriptionQueue(w: Socket)
      requires w in clients
      modifies this
      ensures Now() == Put(old(Now()), w, Evict(old(clients)[w]))
    {
      if clients[w].queue.None? || clients[w].closing {
        clients := clients[w := clients[w]];
        return;
      }
      clients := clients[w := clients[w].(closing := true, queue := Some([Close]))];
    }

    /** Queue one block for every listed subscriber of `w`'s capture. */
    method QueueSubscriberBlock(w: Socket, block: Block)
      requires Core(Now()) && w in clients && clients[w].sessionId.Some?
      modifies this
      ensures Now() == QueueBlock(old(Now()), w, old(clients)[w].sessionId.value, block)
    {
      hide Core, Listens, Served, QueueBlock, Queued;
      var session := clients[w].sessionId.value;
      ghost var before := Now();
      QueueKeeps(before, w, session, block);
      ListedListen(before, w);
      ServedNone(before, w, Data(block));
      var listed := clients[w].subscribers;
      var todo := listed;
      assert listed - todo == {};
      while todo != {}
        invariant todo <= listed
        invariant Served(before, Now(), w, listed - todo, Data(block))
      {
        var s :| s in todo;
        Offered(w, session, s, block, before, listed - todo);
        assert listed - todo + {s} == listed - (todo - {s});
        todo := todo - {s};
      }
      assert listed - todo == listed;
      ServedAll(before, Now(), w, session, block);
      ServedKeeps(before, Now(), w, listed, Data(block));
      logs := logs[session := logs[session] + [block]];
    }

    /** The loop's body for one listed subscriber. */
    method Offered(w: Socket, session: SessionId, s: Socket, block: Block, ghost before: Registry, ghost done: set<Socket>)
      requires s != w && Listens(before, session, s)
      requires s !in done && Served(before, Now(), w, done, Data(block)) && s in before.clients[w].subscribers
      modifies this
      ensures Served(before, Now(), w, done + {s}, Data(block))
    {
      // A listed socket that is gone, elsewhere, closing or without a queue would be unlisted here; there is none.
      if s !in clients || clients[s].subscribedTo != Some(session) || clients[s].closing || clients[s].queue.None? {
        assert false;
      } else if |clients[s].queue.value| < QUEUE_BLOCKS {
        clients := clients[s := clients[s].(queue := Some(clients[s].queue.value + [Data(block)]))];
      } else {
        clients := clients[w := clients[w].(subscribers := clients[w].subscribers - {s})];
        CloseSubscriptionQueue(s);
      }
    }

    /** Unregister a finished capture, then notify and unlist its subscribers. Harmless when there is none. */
    method FinishSession(w: Socket)
      requires Core(Now()) && w in clients
      modifies this
      ensures Now() == EndSession(old(Now()), w) && AllTold(old(Now()), Now(), w)
    {
      hide Core, Listens, Told, EndSession, AllTold;
      ghost var before := Now();
      FinishLaw(before, w);
      var session := clients[w].sessionId;
      var listed := clients[w].subscribers;
      clients := clients[w := clients[w].(sessionId := None, framer := Framer.INITIAL)];
      if session.None? {
        ToldNobody(before, Now(), w);
      } else {
        sessions := sessions - {session.value};
        ListedListen(before, w);
        assert Told(before, Now(), w, session.value, {}) by { ToldNone(before, Now(), w, session.value); }
        var todo := listed;
        assert listed - todo == {};
        while todo != {}
          invariant todo <= listed
          invariant Told(before, Now(), w, session.value, listed - todo)
        {
          var s :| s in todo;
          Tell(w, session.value, s, before, listed - todo);
          assert listed - todo + {s} == listed - (todo - {s});
          todo := todo - {s};
        }
        assert listed - todo == listed;
        ToldAll(before, Now(), w, session.value);
      }
    }

    /** The loop's body for one subscriber of the ended session. */
    method Tell(w: Socket, session: SessionId, s: Socket, ghost before: Registry, ghost done: set<Socket>)
      requires s != w && Listens(before, session, s)
      requires s !in done && Told(before, Now(), w, session, done)
      modifies this
      ensures Told(before, Now(), w, session, done + {s})
    {
      if s in clients && clients[s].subscribedTo == Some(session) {
        var queue := clients[s].queue.value;
        assert queue + [Ended(session)] + [Done] == queue + [Ended(session), Done];
        if |queue| < QUEUE_BLOCKS && |queue + [Ended(session)]| < QUEUE_BLOCKS {
          clients := clients[s := clients[s].(queue := Some(queue + [Ended(session)] + [Done]))];
        } else {
          CloseSubscriptionQueue(s);
        }
      }
      clients := clients[w := clients[w].(subscribers := clients[w].subscribers - {s})];
    }

    // -------------------------------------------------------------- capture

    /** Frame one chunk of dumpcap's output and queue its blocks. */
    method BroadcastChunk(w: Socket, chunk: seq<Byte>)
      requires Inv(Now()) && Enabled(Now(), Chunk(w, chunk))
      modifies this
      ensures Now() == Broadcast(old(Now()), w, chunk) && Inv(Now())
    {
      hide Inv, Core, Shape, QueueBlock;
      ghost var before := Now();
      ShapeOf(before, w);
      ChunkHasSession(clients[w]);
      KeepsChunk(before, w, chunk);
      var session := clients[w].sessionId.value;
      var framer := new Framer.Client.From(clients[w].framer);
      var blocks := framer.Blocks(chunk);
      clients := clients[w := clients[w].(framer := framer.Now())];
      ChunkStart(before, Now(), w);
      ghost var goal := QueueBlocks(Now(), w, session, blocks);
      for k := 0 to |blocks|
        invariant w in clients && clients[w].sessionId == Some(session) && Core(Now())
        invariant goal == QueueBlocks(Now(), w, session, blocks[k..])
      {
        assert blocks[k..][1..] == blocks[k + 1..];
        QueueKeeps(Now(), w, session, blocks[k]);
        QueueBlockKeys(Now(), w, session, blocks[k]);
        QueueSubscriberBlock(w, blocks[k]);
      }
    }

    /** Register the capture process, its stream task and its session. */
    method LaunchCapture(w: Socket, session: SessionId)
      requires Enabled(Now(), Launch(w, session))
      modifies this
      ensures Now() == Launched(old(Now()), w, session) && (Inv(old(Now())) ==> Inv(Now()))
    {
      StepLaw(Now(), Launch(w, session));
      hide Inv;
      clients := clients[w := clients[w].(stream := Running)];
      clients := clients[w := clients[w].(sessionId := Some(session), phase := Idle)];
      sessions := sessions[session := w];
      logs := logs[session := []];
    }

    /** The second half of subscribe, after the previous subscription's sender is gone. */
    method SubscribeAttach(w: Socket)
      requires Enabled(Now(), SubscribeEnd(w))
      modifies this
      ensures Now() == Attach(old(Now()), w) && (Inv(old(Now())) ==> Inv(Now()))
    {
      StepLaw(Now(), SubscribeEnd(w));
      hide Inv;
      ghost var was := Now();
      var session := clients[w].phase.session;
      clients := clients[w := clients[w].(phase := Idle)];
      if session !in sessions {
        return;
      }
      var owner := sessions[session];
      if owner !in clients || |clients[owner].subscribers| >= MAX_SUBSCRIBERS {
        SameLists(was, w, owner);
        return;
      }
      SameLists(was, w, owner);
      var queue := [Subscribed(session)];
      var header := clients[owner].framer.header;
      if header != [] {
        queue := queue + [Data(header)];
      }
      assert queue == [Subscribed(session)] + if header == [] then [] else [Data(header)];
      clients := clients[w := clients[w].(
        subscribedTo := Some(session), queue := Some(queue), closing := false, sender := Waiting,
        feedOf := Some(session), joinAt := if session in logs then |logs[session]| else 0, hello := header, sent := [])];
      clients := clients[owner := clients[owner].(subscribers := clients[owner].subscribers + {w})];
    }

    // -------------------------------------------------------------- ends

    /** Last segment of a capture's stream task. */
    method StreamEnds(w: Socket)
      requires Inv(Now()) && Enabled(Now(), StreamEnd(w))
      modifies this
      ensures Now() == Next(old(Now()), StreamEnd(w)) && Inv(Now())
      ensures AllTold(old(Now()), Now(), w)
    {
      EndLaw(Now(), StreamEnd(w));
      hide AllTold;
      hide Inv, Core, EndSession, Release;
      ghost var before := Now();
      KeepsStreamEnd(before, w);
      ReleaseKeeps(before, w);
      ReleaseInterfaces(w);
      EndSessionKeys(Now(), w);
      FinishSession(w);
      clients := clients[w := clients[w].(stream := Off)];
    }

    /** Last segment of a stop, on its own or on the way out of a disconnect. */
    method StopEnds(w: Socket)
      requires Inv(Now()) && Enabled(Now(), StopEnd(w))
      modifies this
      ensures Now() == Next(old(Now()), StopEnd(w)) && Inv(Now())
      ensures AllTold(old(Now()), Now(), w)
    {
      EndLaw(Now(), StopEnd(w));
      hide AllTold;
      hide Inv, Core, EndSession, Release;
      ghost var before := Now();
      KeepsStopEnd(before, w);
      ReleaseKeeps(before, w);
      ReleaseInterfaces(w);
      EndSessionKeys(Now(), w);
      FinishSession(w);
      clients := clients[w := clients[w].(stream := Off)];
      clients := clients[w := clients[w].(phase := if clients[w].phase == LeavingStop then Left else Idle)];
    }

    // -------------------------------------------------------------- the sender task

    /** Take the next queued item; the end mark ends the sender. */
    method TakeItem(w: Socket)
      requires Enabled(Now(), SenderTake(w))
      modifies this
      ensures Now() == Next(old(Now()), SenderTake(w)) && (Inv(old(Now())) ==> Inv(Now()))
    {
      StepLaw(Now(), SenderTake(w));
      hide Inv;
      var item := clients[w].queue.value[0];
      var session := clients[w].subscribedTo;
      clients := clients[w := clients[w].(queue := Some(clients[w].queue.value[1..]), sender := Sending(item))];
      if item == Done {
        ClearSubscription(w, session);
      }
    }

    /** The item in flight was delivered; a close ends the sender. */
    method ItemSent(w: Socket)
      requires Enabled(Now(), SenderSent(w))
      modifies this
      ensures Now() == Next(old(Now()), SenderSent(w)) && (Inv(old(Now())) ==> Inv(Now()))
    {
      StepLaw(Now(), SenderSent(w));
      hide Inv;
      var item := clients[w].sender.item;
      var session := clients[w].subscribedTo;
      clients := clients[w := clients[w].(sent := clients[w].sent + [item], sender := Waiting)];
      if item == Close {
        ClearSubscription(w, session);
      }
    }
  }

  /** Every subscriber of `w`'s capture is told of its end behind what it has queued, or closed if there is no room. */
  ghost predicate AllTold(r: Registry, q: Registry, w: Socket) {
    w in r.clients && forall x :: x in r.clients[w].subscribers ==>
      && x in r.clients && x in q.clients && r.clients[w].sessionId.Some?
      && SessionEffects.Told(r.clients[x], q.clients[x], r.clients[w].sessionId.value)
  }

  lemma EndLaw(r: Registry, step: Step)
    requires Inv(r) && Enabled(r, step) && (step.StreamEnd? || step.StopEnd?)
    ensures AllTold(r, Next(r, step), step.w)
  {
    SessionEffects.EndTells(r, step);
    hide Inv, Next, Enabled, SessionEffects.Told, SessionEffects.Freed;
  }

  lemma FinishLaw(r: Registry, w: Socket)
    requires Core(r) && w in r.clients
    ensures AllTold(r, EndSession(r, w), w)
  {
    forall x | x in r.clients[w].subscribers
      ensures SessionEffects.Hears(r, w, x)
    {
      CoreHears(r, w, x);
    }
    SessionEffects.EndSessionTells(r, w);
    hide Core, EndSession, SessionEffects.Told;
  }

  lemma CoreHears(r: Registry, w: Socket, x: Socket)
    requires Core(r) && w in r.clients && x in r.clients[w].subscribers
    ensures SessionEffects.Hears(r, w, x)
  {
    hide OwnersAgree, SessionsAgree, Fed;
  }

  lemma StepLaw(r: Registry, step: Step)
    requires Enabled(r, step)
    ensures Inv(r) ==> Inv(Next(r, step))
  {
    hide Inv, Next, Enabled;
    if Inv(r) {
      StepKeeps(r, step);
    }
  }

  lemma SameLists(r: Registry, w: Socket, o: Socket)
    requires w in r.clients
    ensures o in SetPhase(r, w, Idle).clients <==> o in r.clients
    ensures o in r.clients ==>
              SetPhase(r, w, Idle).clients[o].subscribers == r.clients[o].subscribers && SetPhase(r, w, Idle).clients[o].framer == r.clients[o].framer
  {
  }
}
