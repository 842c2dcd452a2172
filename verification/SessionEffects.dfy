/** What each segment does to the sockets concerned, in terms of the queues and registries alone. */
module SessionEffects {
  import opened Bytes
  import opened Pcapng
  import opened FramerLaws
  import Framer
  import opened Sessions
  import opened SessionLaws

  // ---------------------------------------------------------------- who is listed

  /** A listed subscriber listens: it is open, it has a queue, and it is not the owner. */
  lemma ListedListens(r: Registry, w: Socket, x: Socket)
    requires Inv(r) && w in r.clients && x in r.clients[w].subscribers
    ensures x in r.clients && x != w && r.clients[w].sessionId.Some? && r.clients[x].subscribedTo == r.clients[w].sessionId
    ensures r.clients[x].queue.Some? && !r.clients[x].closing
  {
    Parts(r);
    One(r, w);
    hide Inv, OwnersAgree, SessionsAgree, FramersAgree, Fed;
  }

  lemma SessionHasLog(r: Registry, w: Socket)
    requires Inv(r) && w in r.clients && r.clients[w].sessionId.Some?
    ensures r.clients[w].sessionId.value in r.logs
  {
    One(r, w);
    hide Inv;
  }

  // ---------------------------------------------------------------- the end of a session

  /** A subscriber with room for both is told of the end and then ended; one without is closed as too slow. */
  predicate Told(c: Client, d: Client, s: SessionId) {
    c.queue.Some? &&
    d == if |c.queue.value| + 2 <= 1024 then c.(queue := Some(c.queue.value + [Ended(s), Done]))
         else c.(closing := true, queue := Some([Close]))
  }

  /** The interfaces of `w`, and only those, are free again. */
  ghost predicate Freed(r: Registry, q: Registry, w: Socket) {
    forall i :: (i in q.owners <==> i in r.owners && r.owners[i] != w) && (i in q.owners ==> q.owners[i] == r.owners[i])
  }

  /**
   When a capture ends, by itself or by a stop, every subscriber keeps what it has queued and is told behind it, if
   there is room for both items; the session, its list and its owner's claims are gone, and nobody else notices.
   */
  lemma EndTells(r: Registry, step: Step)
    requires Inv(r) && Enabled(r, step) && (step.StreamEnd? || step.StopEnd?)
    ensures var w := step.w; var q := Next(r, step); var c := r.clients[w];
            && (forall x :: x in c.subscribers ==> x in r.clients && x in q.clients && c.sessionId.Some? && Told(r.clients[x], q.clients[x], c.sessionId.value))
            && (forall x :: x in r.clients && x != w && x !in c.subscribers ==> x in q.clients && q.clients[x] == r.clients[x])
            && w in q.clients && q.clients[w].sessionId == None && q.clients[w].subscribers == {} && q.clients[w].interfaces == {}
            && q.clients[w].stream == Off
            && q.sessions == (if c.sessionId.Some? then r.sessions - {c.sessionId.value} else r.sessions) && q.logs == r.logs
            && Freed(r, q, w)
  {
    hide Inv, Release, EndSession, Freed, Told, Next, Enabled;
    EndIs(r, step);
    var w := step.w;
    forall x | x in r.clients[w].subscribers
      ensures Hears(r, w, x)
    {
      ListedListens(r, w, x);
    }
    Parts(r);
    ReleaseFrees(r, w);
    var m := Release(r, w);
    assert forall x :: x in m.clients[w].subscribers ==> Hears(m, w, x);
    EndSessionTells(m, w);
    FreedSame(r, m, Next(r, step), w);
    hide OwnersAgree, SessionsAgree, ListsAgree, FramersAgree;
  }

  lemma EndIs(r: Registry, step: Step)
    requires Enabled(r, step) && (step.StreamEnd? || step.StopEnd?)
    ensures step.w in r.clients
    ensures var m := EndSession(Release(r, step.w), step.w); var q := Next(r, step);
            && q == m.(clients := q.clients)
            && (step.w in m.clients ==>
                  && step.w in q.clients && q.clients == m.clients[step.w := q.clients[step.w]]
                  && q.clients[step.w] == m.clients[step.w].(stream := Off, phase := q.clients[step.w].phase))
  {
    hide Release, EndSession;
  }

  /** `x` is subscribed to what `w` captures. */
  predicate Hears(r: Registry, w: Socket, x: Socket) {
    && x in r.clients && w in r.clients && x != w && r.clients[w].sessionId.Some? && r.clients[x].subscribedTo == r.clients[w].sessionId
    && r.clients[x].queue.Some? && !r.clients[x].closing
  }

  lemma ReleaseFrees(r: Registry, w: Socket)
    requires w in r.clients && OwnersAgree(r)
    ensures var q := Release(r, w);
            && q.clients == r.clients[w := r.clients[w].(interfaces := {})] && q.sessions == r.sessions && q.logs == r.logs && Freed(r, q, w)
  {
  }

  lemma FreedSame(r: Registry, m: Registry, q: Registry, w: Socket)
    requires Freed(r, m, w) && q.owners == m.owners
    ensures Freed(r, q, w)
  {
  }

  lemma EndSessionTells(r: Registry, w: Socket)
    requires w in r.clients && forall x :: x in r.clients[w].subscribers ==> Hears(r, w, x)
    ensures var q := EndSession(r, w); var c := r.clients[w];
            && q.clients.Keys == r.clients.Keys
            && (forall x :: x in c.subscribers ==> x in q.clients && c.sessionId.Some? && Told(r.clients[x], q.clients[x], c.sessionId.value))
            && (forall x :: x in r.clients && x != w && x !in c.subscribers ==> q.clients[x] == r.clients[x])
            && q.clients[w] == c.(sessionId := None, subscribers := {}, framer := Framer.INITIAL)
            && q.sessions == (if c.sessionId.Some? then r.sessions - {c.sessionId.value} else r.sessions)
            && q.logs == r.logs && q.owners == r.owners
  {
  }

  // ---------------------------------------------------------------- a chunk

  /** A subscriber with room for all of the blocks has them behind the others; one without is closed as too slow. */
  predicate Served(c: Client, d: Client, bs: seq<Block>) {
    c.queue.Some? &&
    d == if bs == [] || |c.queue.value| + |bs| <= 1024 then c.(queue := Some(c.queue.value + Datas(bs)))
         else c.(closing := true, queue := Some([Close]))
  }

  /** What queueing blocks for session `s` does to all sockets. */
  ghost predicate Queued(r: Registry, q: Registry, w: Socket, s: SessionId, bs: seq<Block>)
    requires w in r.clients && s in r.logs
  {
    && q.clients.Keys == r.clients.Keys && q.sessions == r.sessions && q.owners == r.owners && q.logs == r.logs[s := r.logs[s] + bs]
    && (forall x :: x in r.clients && x != w ==>
          if x in r.clients[w].subscribers then Served(r.clients[x], q.clients[x], bs) else q.clients[x] == r.clients[x])
    && q.clients[w] == r.clients[w].(subscribers := q.clients[w].subscribers)
    && (forall x :: x in q.clients[w].subscribers <==>
          x in r.clients[w].subscribers && x in r.clients && r.clients[x].queue.Some? && (bs == [] || |r.clients[x].queue.value| + |bs| <= 1024))
  }

  /** Everybody listed listens. */
  predicate AllListen(r: Registry, w: Socket, s: SessionId) {
    w in r.clients && forall x :: x in r.clients[w].subscribers ==>
      x in r.clients && x != w && r.clients[x].subscribedTo == Some(s) && r.clients[x].queue.Some? && !r.clients[x].closing
  }

  lemma QueuedOne(r: Registry, w: Socket, s: SessionId, b: Block)
    requires AllListen(r, w, s) && s in r.logs
    ensures Queued(r, QueueBlock(r, w, s, b), w, s, [b]) && AllListen(QueueBlock(r, w, s, b), w, s)
  {
    assert Datas([b]) == [Data(b)];
  }

  lemma QueuedMore(r: Registry, m: Registry, q: Registry, w: Socket, s: SessionId, b: Block, rest: seq<Block>)
    requires w in r.clients && s in r.logs && Queued(r, m, w, s, [b]) && Queued(m, q, w, s, rest) && AllListen(r, w, s)
    ensures Queued(r, q, w, s, [b] + rest)
  {
    assert r.logs[s] + [b] + rest == r.logs[s] + ([b] + rest);
    forall x | x in r.clients && x != w && x in r.clients[w].subscribers
      ensures Served(r.clients[x], q.clients[x], [b] + rest)
    {
      assert Datas([b]) + Datas(rest) == Datas([b] + rest);
      if |r.clients[x].queue.value| + 1 <= 1024 {
        assert x in m.clients[w].subscribers;
        assert r.clients[x].queue.value + Datas([b]) + Datas(rest) == r.clients[x].queue.value + Datas([b] + rest);
      } else {
        assert x !in m.clients[w].subscribers;
      }
    }
  }

  lemma {:induction false} QueuesAll(r: Registry, w: Socket, s: SessionId, bs: seq<Block>)
    requires AllListen(r, w, s) && s in r.logs
    ensures Queued(r, QueueBlocks(r, w, s, bs), w, s, bs)
    decreases |bs|
  {
    hide Queued, AllListen, QueueBlock;
    if bs == [] {
      QueuedNone(r, w, s);
    } else {
      ListenKeys(r, w, s);
      QueuedOne(r, w, s, bs[0]);
      QueuedKeys(r, QueueBlock(r, w, s, bs[0]), w, s, [bs[0]]);
      QueuesAll(QueueBlock(r, w, s, bs[0]), w, s, bs[1..]);
      QueuedMore(r, QueueBlock(r, w, s, bs[0]), QueueBlocks(r, w, s, bs), w, s, bs[0], bs[1..]);
      assert [bs[0]] + bs[1..] == bs;
    }
  }

  lemma ListenKeys(r: Registry, w: Socket, s: SessionId)
    requires AllListen(r, w, s)
    ensures w in r.clients
  {
  }

  lemma QueuedKeys(r: Registry, q: Registry, w: Socket, s: SessionId, bs: seq<Block>)
    requires w in r.clients && s in r.logs && Queued(r, q, w, s, bs)
    ensures w in q.clients && s in q.logs
  {
  }

  lemma QueuedNone(r: Registry, w: Socket, s: SessionId)
    requires AllListen(r, w, s) && s in r.logs
    ensures Queued(r, r, w, s, [])
  {
    assert Datas([]) == [];
    assert r.logs[s] + [] == r.logs[s];
    forall x | x in r.clients[w].subscribers
      ensures Served(r.clients[x], r.clients[x], [])
    {
      assert r.clients[x].queue.value + Datas([]) == r.clients[x].queue.value;
    }
    assert r.logs[s := r.logs[s]] == r.logs;
  }

  /** Framing a chunk queues its blocks, each to everybody who has room, and logs them. */
  lemma ChunkServes(r: Registry, w: Socket, bytes: seq<Byte>)
    requires Inv(r) && Enabled(r, Chunk(w, bytes)) && r.clients[w].sessionId.Some?
    ensures var s := r.clients[w].sessionId.value; var bs := Framer.Feed(r.clients[w].framer, bytes).0;
            s in r.logs && Queued(Put(r, w, r.clients[w].(framer := Framer.Feed(r.clients[w].framer, bytes).1)), Next(r, Chunk(w, bytes)), w, s, bs)
  {
    hide Inv, Framer.Feed, Queued, QueueBlocks;
    SessionHasLog(r, w);
    var s := r.clients[w].sessionId.value;
    var m := Put(r, w, r.clients[w].(framer := Framer.Feed(r.clients[w].framer, bytes).1));
    forall x | x in r.clients[w].subscribers
      ensures Hears(r, w, x)
    {
      ListedListens(r, w, x);
    }
    QueuesAll(m, w, s, Framer.Feed(r.clients[w].framer, bytes).0);
  }

  // ---------------------------------------------------------------- subscribing

  /**
   A subscription attaches exactly if its session still runs and has fewer than four subscribers: then the socket is
   listed, and what it will be sent starts with the announcement and the section's header so far.
   */
  lemma AttachesExactly(r: Registry, w: Socket)
    requires Inv(r) && Enabled(r, SubscribeEnd(w))
    ensures var q := Next(r, SubscribeEnd(w)); var s := r.clients[w].phase.session;
            && (s in r.sessions ==> r.sessions[s] in r.clients && r.sessions[s] != w && s in r.logs && Blocks(None, r.logs[s]))
            && (if s in r.sessions && |r.clients[r.sessions[s]].subscribers| < 4 then
                  var hello := Flat(Replay(None, NO_HEAD, r.logs[s]).kept);
                  && q.clients.Keys == r.clients.Keys
                  && q.clients[w] == r.clients[w].(phase := Idle, subscribedTo := Some(s), closing := false, sender := Waiting,
                                                   queue := Some([Subscribed(s)] + if hello == [] then [] else [Data(hello)]),
                                                   feedOf := Some(s), joinAt := |r.logs[s]|, hello := hello, sent := [])
                  && q.clients[r.sessions[s]] ==
                     r.clients[r.sessions[s]].(subscribers := r.clients[r.sessions[s]].subscribers + {w})
                  && (forall x :: x in r.clients && x != w && x != r.sessions[s] ==> q.clients[x] == r.clients[x])
                else q.clients == r.clients[w := r.clients[w].(phase := Idle)])
            && q.sessions == r.sessions && q.owners == r.owners && q.logs == r.logs
  {
    hide Inv, Replay, Blocks, Next, Enabled;
    SubscribingIs(r, w);
    var s := r.clients[w].phase.session;
    if s in r.sessions {
      TargetIs(r, w, s);
    }
    AttachIs(r, w);
  }

  lemma SubscribingIs(r: Registry, w: Socket)
    requires Enabled(r, SubscribeEnd(w))
    ensures w in r.clients && r.clients[w].phase.Subscribing? && Next(r, SubscribeEnd(w)) == Attach(r, w)
  {
    hide Attach;
  }

  /** A socket that is about to subscribe owns nothing; the session's owner has its header. */
  lemma TargetIs(r: Registry, w: Socket, s: SessionId)
    requires Inv(r) && w in r.clients && r.clients[w].phase.Subscribing? && s in r.sessions
    ensures r.sessions[s] in r.clients && r.sessions[s] != w && s in r.logs && Blocks(None, r.logs[s])
    ensures r.clients[r.sessions[s]].framer.header == Flat(Replay(None, NO_HEAD, r.logs[s]).kept)
  {
    Parts(r);
    One(r, w);
    var o := r.sessions[s];
    One(r, o);
    hide Inv, OwnersAgree, ListsAgree, FramersAgree, Fed, Replay, Blocks;
    FramedHeader(r, o, s);
  }

  lemma AttachIs(r: Registry, w: Socket)
    requires w in r.clients && r.clients[w].phase.Subscribing?
    requires var s := r.clients[w].phase.session; s in r.sessions ==> r.sessions[s] in r.clients && r.sessions[s] != w && s in r.logs
    ensures var q := Attach(r, w); var s := r.clients[w].phase.session;
            && (if s in r.sessions && |r.clients[r.sessions[s]].subscribers| < 4 then
                  var o := r.sessions[s]; var hello := r.clients[o].framer.header;
                  && q.clients.Keys == r.clients.Keys
                  && q.clients[w] == r.clients[w].(phase := Idle, subscribedTo := Some(s), closing := false, sender := Waiting,
                                                   queue := Some([Subscribed(s)] + if hello == [] then [] else [Data(hello)]),
                                                   feedOf := Some(s), joinAt := |r.logs[s]|, hello := hello, sent := [])
                  && q.clients[o] == r.clients[o].(subscribers := r.clients[o].subscribers + {w})
                  && (forall x :: x in r.clients && x != w && x != o ==> q.clients[x] == r.clients[x])
                else q.clients == r.clients[w := r.clients[w].(phase := Idle)])
            && q.sessions == r.sessions && q.owners == r.owners && q.logs == r.logs
  {
  }

  lemma FramedHeader(r: Registry, o: Socket, s: SessionId)
    requires FramersAgree(r) && o in r.clients && r.clients[o].sessionId == Some(s) && s in r.logs
    ensures Blocks(None, r.logs[s]) && r.clients[o].framer.header == Flat(Replay(None, NO_HEAD, r.logs[s]).kept)
  {
    hide Replay, Blocks;
  }

  // ---------------------------------------------------------------- unsubscribing

  /** `w` no longer subscribes and nobody lists it; otherwise everybody is as before. */
  ghost predicate Detached(r: Registry, q: Registry, w: Socket) {
    && w in r.clients && q.clients.Keys == r.clients.Keys && q.sessions == r.sessions && q.owners == r.owners && q.logs == r.logs
    && q.clients[w].subscribedTo == None && q.clients[w].queue == None && !q.clients[w].closing && q.clients[w].sender == NoTask
    && q.clients[w].interfaces == r.clients[w].interfaces && q.clients[w].sessionId == r.clients[w].sessionId
    && q.clients[w].stream == r.clients[w].stream && q.clients[w].framer == r.clients[w].framer
    && (forall x :: x in r.clients ==> q.clients[x].subscribers == r.clients[x].subscribers - {w})
    && (forall x :: x in r.clients && x != w ==> q.clients[x] == r.clients[x].(subscribers := q.clients[x].subscribers))
  }

  /** Forgetting a subscription detaches the socket, unless the one expected is no longer the current one: then nothing changes. */
  lemma ClearsExpected(r: Registry, w: Socket, expected: Option<SessionId>)
    requires Inv(r) && w in r.clients
    ensures if expected in {None, r.clients[w].subscribedTo} then Detached(r, Clear(r, w, expected), w) else Clear(r, w, expected) == r
  {
    ListedOnlyThere(r, w);
    hide Inv, Detached, Unlisted;
    if expected in {None, r.clients[w].subscribedTo} {
      ClearDetaches(r, w, expected);
    }
  }

  /** The steps that end a subscription: asked for, or because its sender came to an end. */
  predicate EndsSubscription(r: Registry, step: Step)
    requires Enabled(r, step)
  {
    || step.Unsubscribe? || step.SubscribeBegin? || step.DisconnectBegin? || step.SenderFail? || step.SenderClosed?
    || (step.SenderTake? && r.clients[step.w].queue.value[0] == Done)
    || (step.SenderSent? && r.clients[step.w].sender.item == Close)
  }

  lemma ListedOnlyThere(r: Registry, w: Socket)
    requires Inv(r) && w in r.clients
    ensures forall x :: x in r.clients && w in r.clients[x].subscribers ==>
              r.clients[w].subscribedTo.Some? && r.clients[w].subscribedTo.value in r.sessions && r.sessions[r.clients[w].subscribedTo.value] == x
    ensures w !in r.clients[w].subscribers
  {
    forall x | x in r.clients && w in r.clients[x].subscribers
      ensures x != w && r.clients[w].subscribedTo.Some? && r.clients[w].subscribedTo.value in r.sessions && r.sessions[r.clients[w].subscribedTo.value] == x
    {
      ListedListens(r, x, w);
      Parts(r);
      hide Inv, OwnersAgree, ListsAgree, FramersAgree;
    }
  }

  lemma ClearDetaches(r: Registry, w: Socket, expected: Option<SessionId>)
    requires w in r.clients && (expected.Some? ==> r.clients[w].subscribedTo == expected)
    requires forall x :: x in r.clients && w in r.clients[x].subscribers ==>
               r.clients[w].subscribedTo.Some? && r.clients[w].subscribedTo.value in r.sessions && r.sessions[r.clients[w].subscribedTo.value] == x
    ensures Detached(r, Clear(r, w, expected), w)
  {
    var q := Clear(r, w, expected);
    forall x | x in r.clients
      ensures q.clients[x].subscribers == r.clients[x].subscribers - {w}
    {
      if w !in r.clients[x].subscribers {
        assert r.clients[x].subscribers - {w} == r.clients[x].subscribers;
      }
    }
  }

  /** Each of them detaches the socket and leaves everybody else alone. */
  lemma EndsDetach(r: Registry, step: Step)
    requires Inv(r) && Enabled(r, step) && EndsSubscription(r, step)
    ensures Detached(r, Next(r, step), step.w)
  {
    hide Inv, Clear, Detached, SetPhase, Taken, Sent;
    ListedOnlyThere(r, step.w);
    if step.SenderTake? || step.SenderSent? || step.SenderClosed? {
      SenderEnds(r, step);
    } else {
      ClearDetaches(r, step.w, None);
      ClearDetaches(r, step.w, r.clients[step.w].subscribedTo);
      var q := Clear(r, step.w, None);
      if step.SubscribeBegin? {
        DetachedThen(r, q, step.w, Subscribing(step.session));
      } else if step.DisconnectBegin? {
        DetachedThen(r, q, step.w, Leaving);
      }
    }
  }

  lemma DetachedThen(r: Registry, q: Registry, w: Socket, phase: Phase)
    requires Detached(r, q, w)
    ensures Detached(r, SetPhase(q, w, phase), w)
  {
  }

  lemma SenderEnds(r: Registry, step: Step)
    requires Enabled(r, step) && EndsSubscription(r, step) && (step.SenderTake? || step.SenderSent? || step.SenderClosed?)
    requires forall x :: x in r.clients && step.w in r.clients[x].subscribers ==>
               r.clients[step.w].subscribedTo.Some? && r.clients[step.w].subscribedTo.value in r.sessions
               && r.sessions[r.clients[step.w].subscribedTo.value] == x
    ensures Detached(r, Next(r, step), step.w)
  {
    hide Clear, Detached;
    var w := step.w;
    var c := r.clients[w];
    var d := if step.SenderTake? then c.(queue := Some(c.queue.value[1..]), sender := Sending(c.queue.value[0]))
             else if step.SenderSent? then c.(sent := c.sent + [c.sender.item], sender := Waiting)
             else c.(sent := c.sent + [Close]);
    ClearDetaches(Put(r, w, d), w, c.subscribedTo);
    DetachedFrom(r, Put(r, w, d), Next(r, step), w);
  }

  lemma DetachedFrom(r: Registry, m: Registry, q: Registry, w: Socket)
    requires w in r.clients && m == r.(clients := m.clients) && m.clients.Keys == r.clients.Keys && Detached(m, q, w)
    requires (forall x :: x in r.clients && x != w ==> m.clients[x] == r.clients[x])
    requires m.clients[w] == r.clients[w].(queue := m.clients[w].queue, sender := m.clients[w].sender, sent := m.clients[w].sent)
    ensures Detached(r, q, w)
  {
  }

  /** Otherwise the sender takes items in order, one at a time, and counts what was delivered. */
  lemma SenderDelivers(r: Registry, step: Step)
    requires Inv(r) && Enabled(r, step) && (step.SenderTake? || step.SenderSent?) && !EndsSubscription(r, step)
    ensures var c := r.clients[step.w];
            Next(r, step) == r.(clients := r.clients[step.w :=
              if step.SenderTake? then c.(queue := Some(c.queue.value[1..]), sender := Sending(c.queue.value[0]))
              else c.(sender := Waiting, sent := c.sent + [c.sender.item])])
  {
    hide Inv, Clear;
  }

  // ---------------------------------------------------------------- claiming

  /** A start claims all of its interfaces, or none if another socket has one. */
  lemma ClaimsAllOrNone(r: Registry, w: Socket, wanted: set<Iface>)
    requires Inv(r) && Enabled(r, StartClaim(w, wanted))
    ensures var q := Next(r, StartClaim(w, wanted));
            if exists i :: i in wanted && i in r.owners && r.owners[i] != w then q == r
            else
              && q.clients == r.clients[w := r.clients[w].(interfaces := wanted, phase := Claimed)] && q.sessions == r.sessions && q.logs == r.logs
              && (forall i :: i in wanted ==> i in q.owners && q.owners[i] == w)
              && (forall i :: i !in wanted ==> (i in q.owners <==> i in r.owners) && (i in r.owners ==> q.owners[i] == r.owners[i]))
  {
    hide Inv;
    ClaimIs(r, w, wanted);
  }

  lemma ClaimIs(r: Registry, w: Socket, wanted: set<Iface>)
    requires w in r.clients
    ensures var q := StartClaimed(r, w, wanted);
            if exists i :: i in wanted && i in r.owners && r.owners[i] != w then q == r
            else
              && q.clients == r.clients[w := r.clients[w].(interfaces := wanted, phase := Claimed)] && q.sessions == r.sessions && q.logs == r.logs
              && (forall i :: i in wanted ==> i in q.owners && q.owners[i] == w)
              && (forall i :: i !in wanted ==> (i in q.owners <==> i in r.owners) && (i in r.owners ==> q.owners[i] == r.owners[i]))
  {
    var conflicts := Conflicts(r, w, wanted);
    assert conflicts != {} <==> exists i :: i in wanted && i in r.owners && r.owners[i] != w by {
      if i :| i in wanted && i in r.owners && r.owners[i] != w {
        assert i in conflicts;
      }
    }
    hide Conflicts;
  }

  /** A start that fails after its claim frees what it claimed. */
  lemma FailedStartFrees(r: Registry, w: Socket)
    requires Inv(r) && Enabled(r, StartFail(w))
    ensures var q := Next(r, StartFail(w));
            && q.clients == r.clients[w := r.clients[w].(interfaces := {}, phase := Idle)] && q.sessions == r.sessions && q.logs == r.logs
            && Freed(r, q, w)
  {
    Parts(r);
    ReleaseFrees(r, w);
    FreedSame(r, Release(r, w), Next(r, StartFail(w)), w);
    hide Inv, Release, Freed, OwnersAgree, SessionsAgree, ListsAgree, FramersAgree;
  }

  // ---------------------------------------------------------------- who is closed as too slow

  /** What this step has for `x` does not fit into its queue. */
  predicate Crowded(r: Registry, step: Step, x: Socket)
    requires Enabled(r, step)
  {
    && step.w in r.clients && x in r.clients[step.w].subscribers && x in r.clients && r.clients[x].queue.Some?
    && (if step.Chunk? then
          var s := r.clients[step.w].sessionId;
          s.Some? && s.value in r.logs && s.value in Next(r, step).logs
          && |Next(r, step).logs[s.value]| > |r.logs[s.value]|
          && |r.clients[x].queue.value| + |Next(r, step).logs[s.value]| - |r.logs[s.value]| > 1024
        else (step.StreamEnd? || step.StopEnd?) && |r.clients[x].queue.value| + 2 > 1024)
  }

  /** A client's subscription after a step that was not `x`'s own, or was. */
  predicate Steadily(c: Client, d: Client) {
    (d.closing ==> c.closing && d.subscribedTo == c.subscribedTo)
    && (d.queue.Some? ==> |d.queue.value| <= 2 || (c.queue.Some? && |d.queue.value| <= |c.queue.value|))
  }

  lemma OthersSteady(r: Registry, step: Step, x: Socket)
    requires Inv(r) && Enabled(r, step) && !step.Chunk? && !step.StreamEnd? && !step.StopEnd?
    requires x in r.clients && x in Next(r, step).clients
    ensures Steadily(r.clients[x], Next(r, step).clients[x])
  {
    hide Inv, Clear, Attach, Release, Claim, Conflicts, Detached;
    if EndsSubscription(r, step) {
      EndsDetach(r, step);
      DetachedSteady(r, Next(r, step), step.w, x);
    } else if step.SenderTake? || step.SenderSent? {
      SenderDelivers(r, step);
    } else if step.SubscribeEnd? {
      AttachesSteady(r, step.w, x);
    } else if step.StartClaim? {
      ClaimsAllOrNone(r, step.w, step.wanted);
    } else if step.StartFail? {
      FailedStartFrees(r, step.w);
    }
  }

  lemma DetachedSteady(r: Registry, q: Registry, w: Socket, x: Socket)
    requires Detached(r, q, w) && x in r.clients
    ensures x in q.clients && Steadily(r.clients[x], q.clients[x])
  {
  }

  lemma AttachesSteady(r: Registry, w: Socket, x: Socket)
    requires Inv(r) && Enabled(r, SubscribeEnd(w)) && x in r.clients
    ensures x in Next(r, SubscribeEnd(w)).clients && Steadily(r.clients[x], Next(r, SubscribeEnd(w)).clients[x])
  {
    AttachesExactly(r, w);
    hide Inv, Next, Enabled, Replay, Blocks;
  }

  /** One step closes a listening subscriber exactly if what it has for it does not fit. */
  lemma ClosesExactly(r: Registry, step: Step, x: Socket)
    requires Inv(r) && Enabled(r, step) && x in r.clients && x in Next(r, step).clients
    ensures !r.clients[x].closing ==> (Next(r, step).clients[x].closing <==> Crowded(r, step, x))
    ensures Next(r, step).clients[x].closing ==> r.clients[x].subscribedTo == Next(r, step).clients[x].subscribedTo
    ensures Next(r, step).clients[x].queue.Some? ==>
              |Next(r, step).clients[x].queue.value| <= 1024 || (r.clients[x].queue.Some? && |Next(r, step).clients[x].queue.value| <= |r.clients[x].queue.value|)
  {
    hide Inv, Enabled, Next, Queued, Told, Freed;
    if step.Chunk? {
      ChunkCloses(r, step.w, step.bytes, x);
    } else if step.StreamEnd? || step.StopEnd? {
      EndCloses(r, step, x);
    } else {
      OthersSteady(r, step, x);
    }
  }

  lemma EndCloses(r: Registry, step: Step, x: Socket)
    requires Inv(r) && Enabled(r, step) && (step.StreamEnd? || step.StopEnd?) && x in r.clients && x in Next(r, step).clients
    ensures var c, d := r.clients[x], Next(r, step).clients[x];
            && (!c.closing ==> (d.closing <==> Crowded(r, step, x))) && (d.closing ==> c.subscribedTo == d.subscribedTo)
            && (d.queue.Some? ==> |d.queue.value| <= 1024 || (c.queue.Some? && |d.queue.value| <= |c.queue.value|))
  {
    EndTells(r, step);
    var w := step.w;
    assert w in r.clients;
    if x == w {
      EndOwner(r, step);
    }
    if x in r.clients[w].subscribers {
      ListedListens(r, w, x);
    }
    hide Inv, Next, Enabled, Freed;
  }

  /** The owner's own subscription is none, and stays so. */
  lemma EndOwner(r: Registry, step: Step)
    requires Inv(r) && Enabled(r, step) && (step.StreamEnd? || step.StopEnd?) && step.w in Next(r, step).clients
    ensures var c, d := r.clients[step.w], Next(r, step).clients[step.w];
            c.closing == d.closing && c.subscribedTo == d.subscribedTo && c.queue == d.queue && step.w !in r.clients[step.w].subscribers
  {
    ListedOnlyThere(r, step.w);
    hide Inv;
  }

  lemma ChunkCloses(r: Registry, w: Socket, bytes: seq<Byte>, x: Socket)
    requires Inv(r) && Enabled(r, Chunk(w, bytes)) && x in r.clients && x in Next(r, Chunk(w, bytes)).clients
    ensures var step := Chunk(w, bytes); var c, d := r.clients[x], Next(r, step).clients[x];
            && (!c.closing ==> (d.closing <==> Crowded(r, step, x))) && (d.closing ==> c.subscribedTo == d.subscribedTo)
            && (d.queue.Some? ==> |d.queue.value| <= 1024 || (c.queue.Some? && |d.queue.value| <= |c.queue.value|))
  {
    hide Inv, Next, Enabled, Framer.Feed, Queued;
    RunningHasSession(r, w, bytes);
    ChunkServes(r, w, bytes);
    ListedOnlyThere(r, w);
    if x in r.clients[w].subscribers {
      ListedListens(r, w, x);
    }
    var (bs, f) := Framer.Feed(r.clients[w].framer, bytes);
    QueuedCloses(r, Put(r, w, r.clients[w].(framer := f)), Next(r, Chunk(w, bytes)), w, r.clients[w].sessionId.value, bs, x);
  }

  lemma QueuedCloses(r: Registry, m: Registry, q: Registry, w: Socket, s: SessionId, bs: seq<Block>, x: Socket)
    requires w in r.clients && w in m.clients && x in r.clients && s in r.logs && m == Put(r, w, r.clients[w].(framer := m.clients[w].framer)) && Queued(m, q, w, s, bs)
    requires x in r.clients[w].subscribers ==> x != w && r.clients[x].queue.Some? && !r.clients[x].closing
    ensures x in q.clients && s in q.logs && |q.logs[s]| == |r.logs[s]| + |bs|
    ensures var c, d := r.clients[x], q.clients[x];
            && (if x in r.clients[w].subscribers then d.closing <==> bs != [] && |c.queue.value| + |bs| > 1024 else d.closing == c.closing)
            && c.subscribedTo == d.subscribedTo
            && (d.queue.Some? ==> |d.queue.value| <= 1024 || (c.queue.Some? && |d.queue.value| <= |c.queue.value|))
  {
  }

  lemma RunningHasSession(r: Registry, w: Socket, bytes: seq<Byte>)
    requires Inv(r) && Enabled(r, Chunk(w, bytes))
    ensures w in r.clients && r.clients[w].sessionId.Some?
  {
    One(r, w);
    hide Inv, Fed;
  }

  // ---------------------------------------------------------------- over runs

  /** The state before step `k`. */
  function StateAt(r: Registry, steps: seq<Step>, k: nat): Registry
    requires Allowed(r, steps) && k <= |steps|
    decreases k
  {
    if k == 0 then r else StateAt(Next(r, steps[0]), steps[1..], k - 1)
  }

  lemma {:induction false} StateEnabled(r: Registry, steps: seq<Step>, k: nat)
    requires Allowed(r, steps) && k < |steps|
    ensures Enabled(StateAt(r, steps, k), steps[k])
    decreases k
  {
    hide Next, Enabled;
    if k > 0 {
      StateEnabled(Next(r, steps[0]), steps[1..], k - 1);
    }
  }

  /** At step `k`, in this same subscription, something for `x` did not fit. */
  ghost predicate CrowdedAt(r: Registry, steps: seq<Step>, k: nat, x: Socket, s: Option<SessionId>)
    requires Allowed(r, steps)
  {
    && k < |steps| && x in StateAt(r, steps, k).clients && StateAt(r, steps, k).clients[x].subscribedTo == s
    && Enabled(StateAt(r, steps, k), steps[k]) && Crowded(StateAt(r, steps, k), steps[k], x)
  }

  lemma CrowdedLater(r: Registry, steps: seq<Step>, k: nat, x: Socket, s: Option<SessionId>)
    requires Allowed(r, steps) && steps != [] && CrowdedAt(Next(r, steps[0]), steps[1..], k, x, s)
    ensures CrowdedAt(r, steps, k + 1, x, s)
  {
    hide Crowded, Next, Enabled;
  }

  /** A closing subscription was closing at the start of the run, or did not keep up with some step of it. */
  lemma {:induction false} ClosingFrom(r: Registry, steps: seq<Step>, x: Socket)
    requires Inv(r) && Allowed(r, steps) && x in Run(r, steps).clients && Run(r, steps).clients[x].closing
    ensures var s := Run(r, steps).clients[x].subscribedTo;
            || (x in r.clients && r.clients[x].closing && r.clients[x].subscribedTo == s)
            || exists k :: CrowdedAt(r, steps, k, x, s)
    decreases |steps|
  {
    hide Inv, Next, Enabled, CrowdedAt;
    if steps != [] {
      var s := Run(r, steps).clients[x].subscribedTo;
      var q := Next(r, steps[0]);
      StepKeeps(r, steps[0]);
      ClosingFrom(q, steps[1..], x);
      if k :| CrowdedAt(q, steps[1..], k, x, s) {
        CrowdedLater(r, steps, k, x, s);
      } else if x in r.clients {
        ClosesExactly(r, steps[0], x);
        if !r.clients[x].closing {
          CrowdedFirst(r, steps, x, s);
        }
      } else {
        NewcomerOpen(r, steps[0], x);
      }
    }
  }

  lemma CrowdedFirst(r: Registry, steps: seq<Step>, x: Socket, s: Option<SessionId>)
    requires Allowed(r, steps) && steps != [] && x in r.clients && r.clients[x].subscribedTo == s && Enabled(r, steps[0]) && Crowded(r, steps[0], x)
    ensures CrowdedAt(r, steps, 0, x, s)
  {
    hide Crowded, Next, Enabled;
  }

  lemma NewcomerOpen(r: Registry, step: Step, x: Socket)
    requires Inv(r) && Enabled(r, step) && x !in r.clients && x in Next(r, step).clients
    ensures !Next(r, step).clients[x].closing && Next(r, step).clients[x].queue.None?
  {
    hide Inv, Queued, Told, Freed, Detached, EndsSubscription;
    if step.Chunk? {
      RunningHasSession(r, step.w, step.bytes);
      ChunkServes(r, step.w, step.bytes);
      QueuedIn(r, step.w, step.bytes);
      assert false;
    } else if !step.Connect? {
      NobodyNew(r, step);
      assert false;
    }
  }

  lemma QueuedIn(r: Registry, w: Socket, bytes: seq<Byte>)
    requires Enabled(r, Chunk(w, bytes))
    ensures Next(r, Chunk(w, bytes)).clients.Keys == r.clients.Keys
  {
  }

  lemma NobodyNew(r: Registry, step: Step)
    requires Enabled(r, step) && !step.Chunk? && !step.Connect?
    ensures Next(r, step).clients.Keys <= r.clients.Keys
  {
    var w := step.w;
    SameKeys(r, w);
    if w in r.clients {
      SameKeys(Release(r, w), w);
      SameKeys(Put(r, w, r.clients[w].(sent := r.clients[w].sent + [Close])), w);
      if step.StartClaim? {
        ClaimKeys(r, w, step.wanted);
      }
      if step.SubscribeEnd? {
        AttachKeys(r, w);
      }
      if step.SenderTake? {
        TakenKeys(r, w);
      }
      if step.SenderSent? {
        SentKeys(r, w);
      }
    }
    hide Clear, Release, EndSession, Attach, Conflicts, Claim, Taken, Sent;
  }

  lemma SameKeys(r: Registry, w: Socket)
    requires w in r.clients
    ensures forall e :: Clear(r, w, e).clients.Keys == r.clients.Keys
    ensures Release(r, w).clients.Keys == r.clients.Keys && EndSession(r, w).clients.Keys == r.clients.Keys
  {
  }

  lemma ClaimKeys(r: Registry, w: Socket, wanted: set<Iface>)
    requires w in r.clients
    ensures Claim(r, w, wanted).clients.Keys == r.clients.Keys
  {
  }

  lemma AttachKeys(r: Registry, w: Socket)
    requires w in r.clients && r.clients[w].phase.Subscribing?
    ensures Attach(r, w).clients.Keys == r.clients.Keys
  {
  }

  lemma TakenKeys(r: Registry, w: Socket)
    requires w in r.clients && r.clients[w].queue.Some? && r.clients[w].queue.value != []
    ensures Taken(r, w).clients.Keys == r.clients.Keys
  {
  }

  lemma SentKeys(r: Registry, w: Socket)
    requires w in r.clients && r.clients[w].sender.Sending?
    ensures Sent(r, w).clients.Keys == r.clients.Keys
  {
  }

  /** On every run, whoever is being closed as too slow once had no room for what its session had for it. */
  lemma ClosedForLackOfRoom(steps: seq<Step>, x: Socket)
    requires Allowed(EMPTY, steps) && x in Run(EMPTY, steps).clients && Run(EMPTY, steps).clients[x].closing
    ensures exists k :: CrowdedAt(EMPTY, steps, k, x, Run(EMPTY, steps).clients[x].subscribedTo)
  {
    EmptyIsFine();
    ClosingFrom(EMPTY, steps, x);
  }

  /** And no queue ever holds more than 1024 items. */
  lemma {:induction false} QueuesBounded(r: Registry, steps: seq<Step>, x: Socket)
    requires Inv(r) && Allowed(r, steps) && x in Run(r, steps).clients && Run(r, steps).clients[x].queue.Some?
    requires forall y :: y in r.clients && r.clients[y].queue.Some? ==> |r.clients[y].queue.value| <= 1024
    ensures |Run(r, steps).clients[x].queue.value| <= 1024
    decreases |steps|
  {
    hide Inv, Next, Enabled;
    if steps != [] {
      var q := Next(r, steps[0]);
      StepKeeps(r, steps[0]);
      forall y | y in q.clients && q.clients[y].queue.Some?
        ensures |q.clients[y].queue.value| <= 1024
      {
        if y in r.clients {
          ClosesExactly(r, steps[0], y);
        } else {
          NewcomerOpen(r, steps[0], y);
        }
      }
      QueuesBounded(q, steps[1..], x);
    }
  }
}
