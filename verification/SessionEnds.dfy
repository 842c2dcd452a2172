/** How captures, deliveries and sockets come to their end. */
module SessionEnds {
  import opened Bytes
  import opened Pcapng
  import opened FramerLaws
  import Framer
  import opened Sessions
  import opened SessionLaws
  import opened SessionEffects

  // ---------------------------------------------------------------- a session that is over is heard to the end

  /** A subscriber of `s` whose end mark is still queued, and whose sender is not stuck. */
  predicate Hearing(c: Client, s: SessionId) {
    c.subscribedTo == Some(s) && c.queue.Some? && c.queue.value != [] && !c.closing && (c.sender.Waiting? || c.sender.Sending?)
  }

  /** All that a subscription to a session that is over has to deliver. */
  function Everything(r: Registry, c: Client, s: SessionId): seq<Item>
    requires s in r.logs && c.joinAt <= |r.logs[s]|
  {
    [Subscribed(s)] + (if c.hello == [] then [] else [Data(c.hello)]) + Datas(r.logs[s][c.joinAt..]) + [Ended(s)]
  }

  /** The end mark is the last of the queue, and nothing ahead of it ends the subscription. */
  lemma MarkedAtTheEnd(r: Registry, c: Client, s: SessionId)
    requires Fed(r, c) && Hearing(c, s) && s !in r.sessions
    ensures s in r.logs && c.joinAt <= |r.logs[s]|
    ensures c.sent + InFlight(c) + c.queue.value == Everything(r, c, s) + [Done]
    ensures c.queue.value[|c.queue.value| - 1] == Done
    ensures forall k :: 0 <= k < |c.queue.value| - 1 ==> c.queue.value[k] != Done && c.queue.value[k] != Close
    ensures c.sender.Sending? ==> c.sender.item != Done && c.sender.item != Close
  {
    hide Replay;
    var all := Everything(r, c, s) + [Done];
    assert all == Transcript(r, s, c.joinAt, c.hello);
    var n := |c.sent + InFlight(c)|;
    assert forall k :: 0 <= k < |all| - 1 ==> all[k] != Done && all[k] != Close;
    assert forall k :: 0 <= k < |c.queue.value| ==> c.queue.value[k] == all[n + k];
    assert c.sender.Sending? ==> all[|c.sent|] == c.sender.item;
  }

  /** The steps of one sender that takes and delivers `n` items, the last of them the end mark. */
  function Rounds(x: Socket, n: nat): (steps: seq<Step>)
    requires n > 0
    ensures steps != [] && forall t :: t in steps ==> t.w == x && (t.SenderTake? || t.SenderSent?)
  {
    if n == 1 then [SenderTake(x)] else [SenderTake(x), SenderSent(x)] + Rounds(x, n - 1)
  }

  function ToTheEnd(c: Client, x: Socket): (steps: seq<Step>)
    requires c.queue.Some? && c.queue.value != []
    ensures forall t :: t in steps ==> t.w == x && (t.SenderTake? || t.SenderSent?)
  {
    (if c.sender.Sending? then [SenderSent(x)] else []) + Rounds(x, |c.queue.value|)
  }

  /** Of `all`, everything but the end mark that is its last item has been sent, and `x` no longer subscribes; nobody else noticed. */
  ghost predicate Finished(r: Registry, q: Registry, x: Socket, all: seq<Item>) {
    && q.clients.Keys == r.clients.Keys && x in r.clients && q.clients[x].sent + [Done] == all && q.clients[x].subscribedTo == None
    && (forall y :: y in r.clients && y != x ==> q.clients[y] == r.clients[y])
    && q.sessions == r.sessions && q.owners == r.owners && q.logs == r.logs
  }

  lemma ClearKeepsSent(r: Registry, w: Socket, expected: Option<SessionId>)
    requires w in r.clients && forall x :: x in r.clients ==> w !in r.clients[x].subscribers
    ensures w in Clear(r, w, expected).clients && Clear(r, w, expected).clients[w].sent == r.clients[w].sent
  {
  }

  /** The end mark ends it. */
  lemma LastTaken(r: Registry, x: Socket, s: SessionId)
    requires Inv(r) && x in r.clients && Hearing(r.clients[x], s) && r.clients[x].sender.Waiting? && s !in r.sessions
    requires r.clients[x].queue.value == [Done]
    ensures Enabled(r, SenderTake(x)) && Finished(r, Next(r, SenderTake(x)), x, r.clients[x].sent + r.clients[x].queue.value)
  {
    hide Inv, Clear;
    var step := SenderTake(x);
    EndsDetach(r, step);
    ListedOnlyThere(r, x);
    var c := r.clients[x];
    ClearKeepsSent(Put(r, x, c.(queue := Some(c.queue.value[1..]), sender := Sending(Done))), x, c.subscribedTo);
    forall y | y in r.clients && y != x
      ensures Next(r, step).clients[y] == r.clients[y]
    {
      assert r.clients[y].subscribers - {x} == r.clients[y].subscribers;
    }
  }

  lemma RunTwo(r: Registry, a: Step, b: Step, rest: seq<Step>)
    requires Enabled(r, a) && Enabled(Next(r, a), b) && Allowed(Next(Next(r, a), b), rest)
    ensures Allowed(r, [a, b] + rest) && Run(r, [a, b] + rest) == Run(Next(Next(r, a), b), rest)
  {
    hide Enabled, Next;
    var steps := [a, b] + rest;
    assert steps[1..] == [b] + rest && ([b] + rest)[1..] == rest;
    assert Allowed(Next(r, a), [b] + rest) && Run(Next(r, a), [b] + rest) == Run(Next(Next(r, a), b), rest);
  }

  lemma RunOne(r: Registry, a: Step, rest: seq<Step>)
    requires Enabled(r, a) && Allowed(Next(r, a), rest)
    ensures Allowed(r, [a] + rest) && Run(r, [a] + rest) == Run(Next(r, a), rest)
  {
    hide Enabled, Next;
    assert ([a] + rest)[1..] == rest;
  }

  lemma FinishedFrom(r: Registry, m: Registry, q: Registry, x: Socket, sent: seq<Item>)
    requires Finished(m, q, x, sent) && m == r.(clients := m.clients) && m.clients.Keys == r.clients.Keys
    requires forall y :: y in r.clients && y != x ==> m.clients[y] == r.clients[y]
    ensures Finished(r, q, x, sent)
  {
  }

  /** A sender delivers the item in its hands, and takes the next one. */
  lemma SendsFirst(r: Registry, x: Socket, s: SessionId)
    requires Inv(r) && x in r.clients && Hearing(r.clients[x], s) && r.clients[x].sender.Sending? && s !in r.sessions
    ensures var step := SenderSent(x); var c := r.clients[x];
            && Enabled(r, step) && Inv(Next(r, step))
            && Next(r, step) == r.(clients := r.clients[x := c.(sender := Waiting, sent := c.sent + [c.sender.item])])
  {
    One(r, x);
    hide Inv, Fed, Shape, Sent;
    MarkedAtTheEnd(r, r.clients[x], s);
    SenderDelivers(r, SenderSent(x));
    StepKeeps(r, SenderSent(x));
  }

  lemma TakesFirst(r: Registry, x: Socket, s: SessionId)
    requires Inv(r) && x in r.clients && Hearing(r.clients[x], s) && r.clients[x].sender.Waiting? && s !in r.sessions
    requires |r.clients[x].queue.value| > 1
    ensures var step := SenderTake(x); var c := r.clients[x];
            && Enabled(r, step) && Inv(Next(r, step))
            && Next(r, step) == r.(clients := r.clients[x := c.(queue := Some(c.queue.value[1..]), sender := Sending(c.queue.value[0]))])
  {
    One(r, x);
    hide Inv, Fed, Shape, Taken;
    MarkedAtTheEnd(r, r.clients[x], s);
    SenderDelivers(r, SenderTake(x));
    StepKeeps(r, SenderTake(x));
  }

  /** One item taken and delivered. */
  lemma OneRound(r: Registry, x: Socket, s: SessionId)
    requires Inv(r) && x in r.clients && Hearing(r.clients[x], s) && r.clients[x].sender.Waiting? && s !in r.sessions
    requires |r.clients[x].queue.value| > 1
    ensures var c := r.clients[x];
            && Enabled(r, SenderTake(x)) && Enabled(Next(r, SenderTake(x)), SenderSent(x))
            && Next(Next(r, SenderTake(x)), SenderSent(x)) ==
               r.(clients := r.clients[x := c.(queue := Some(c.queue.value[1..]), sent := c.sent + [c.queue.value[0]])])
            && Inv(Next(Next(r, SenderTake(x)), SenderSent(x)))
  {
    hide Inv, Next, Enabled;
    TakesFirst(r, x, s);
    SendsFirst(Next(r, SenderTake(x)), x, s);
  }

  lemma {:induction false} HeardWaiting(r: Registry, x: Socket, s: SessionId)
    requires Inv(r) && x in r.clients && Hearing(r.clients[x], s) && r.clients[x].sender.Waiting? && s !in r.sessions
    ensures var c := r.clients[x]; var steps := Rounds(x, |c.queue.value|);
            Allowed(r, steps) && Finished(r, Run(r, steps), x, c.sent + c.queue.value)
    decreases |r.clients[x].queue.value|
  {
    hide Inv, Enabled, Next, Finished, Allowed, Run;
    var c := r.clients[x];
    if |c.queue.value| == 1 {
      OnlyMark(r, x, s);
      LastTaken(r, x, s);
      RunNone(Next(r, SenderTake(x)));
      assert [SenderTake(x)] + [] == [SenderTake(x)];
      RunOne(r, SenderTake(x), []);
    } else {
      OneRound(r, x, s);
      var m := Next(Next(r, SenderTake(x)), SenderSent(x));
      HeardWaiting(m, x, s);
      RunTwo(r, SenderTake(x), SenderSent(x), Rounds(x, |c.queue.value| - 1));
      assert m.clients[x].sent + m.clients[x].queue.value == c.sent + c.queue.value;
      FinishedFrom(r, m, Run(m, Rounds(x, |c.queue.value| - 1)), x, c.sent + c.queue.value);
    }
  }

  lemma RunNone(r: Registry)
    ensures Allowed(r, []) && Run(r, []) == r
  {
  }

  lemma OnlyMark(r: Registry, x: Socket, s: SessionId)
    requires Inv(r) && x in r.clients && Hearing(r.clients[x], s) && s !in r.sessions && |r.clients[x].queue.value| == 1
    ensures r.clients[x].queue.value == [Done]
  {
    One(r, x);
    hide Inv, Fed, Shape;
    MarkedAtTheEnd(r, r.clients[x], s);
  }

  lemma WhatIsLeft(r: Registry, x: Socket, s: SessionId)
    requires Inv(r) && x in r.clients && Hearing(r.clients[x], s) && s !in r.sessions
    ensures var c := r.clients[x];
            && s in r.logs && c.joinAt <= |r.logs[s]| && c.sent + InFlight(c) + c.queue.value == Everything(r, c, s) + [Done]
  {
    One(r, x);
    hide Inv, Fed, Shape;
    MarkedAtTheEnd(r, r.clients[x], s);
  }

  /**
   Once a session is over, the sender of a subscriber that has its end mark queued needs nobody else: if its
   deliveries succeed, it delivers everything that is left, up to the end event, and the subscription is over.
   */
  lemma HeardToTheEnd(r: Registry, x: Socket, s: SessionId)
    requires Inv(r) && x in r.clients && Hearing(r.clients[x], s) && s !in r.sessions
    ensures var steps := ToTheEnd(r.clients[x], x);
            && s in r.logs && r.clients[x].joinAt <= |r.logs[s]| && Allowed(r, steps)
            && Finished(r, Run(r, steps), x, Everything(r, r.clients[x], s) + [Done])
  {
    hide Inv, Next, Enabled, Finished, Allowed, Run, Everything;
    var c := r.clients[x];
    WhatIsLeft(r, x, s);
    var all := Everything(r, c, s) + [Done];
    if c.sender.Sending? {
      SendsFirst(r, x, s);
      var m := Next(r, SenderSent(x));
      HeardWaiting(m, x, s);
      RunOne(r, SenderSent(x), Rounds(x, |c.queue.value|));
      FinishedFrom(r, m, Run(m, Rounds(x, |c.queue.value|)), x, all);
    } else {
      HeardWaiting(r, x, s);
      assert [] + Rounds(x, |c.queue.value|) == Rounds(x, |c.queue.value|);
      assert c.sent + [] == c.sent;
    }
  }

  lemma OwnerThere(r: Registry, step: Step)
    requires Enabled(r, step) && (step.StreamEnd? || step.StopEnd?)
    ensures step.w in r.clients
  {
  }

  lemma SenderThere(r: Registry, x: Socket)
    requires Inv(r) && x in r.clients && r.clients[x].subscribedTo.Some?
    ensures r.clients[x].sender != NoTask
  {
    One(r, x);
    hide Inv, Fed;
  }

  lemma HearingNow(c: Client, d: Client, s: SessionId)
    requires Told(c, d, s) && |c.queue.value| + 2 <= 1024 && c.subscribedTo == Some(s) && !c.closing
    requires c.sender != NoTask && !c.sender.TimedOut?
    ensures Hearing(d, s)
  {
  }

  lemma SessionOver(r: Registry, step: Step)
    requires Inv(r) && Enabled(r, step) && (step.StreamEnd? || step.StopEnd?)
    ensures step.w in r.clients && (r.clients[step.w].sessionId.Some? ==> r.clients[step.w].sessionId.value !in Next(r, step).sessions)
  {
    hide Inv, Next, Freed, Told;
    EndTells(r, step);
  }

  /** So every listed subscriber with room, whose delivery has not timed out, can be told to the end as soon as its session ends. */
  lemma EndIsHeard(r: Registry, step: Step, x: Socket)
    requires Inv(r) && Enabled(r, step) && (step.StreamEnd? || step.StopEnd?)
    requires x in r.clients[step.w].subscribers && x in r.clients && r.clients[x].queue.Some?
    requires |r.clients[x].queue.value| + 2 <= 1024 && !r.clients[x].sender.TimedOut?
    ensures var q := Next(r, step);
            && x in q.clients && q.clients[x].queue.Some? && q.clients[x].queue.value != [] && r.clients[step.w].sessionId.Some?
            && var s, steps := r.clients[step.w].sessionId.value, ToTheEnd(q.clients[x], x);
            && s in q.logs && q.clients[x].joinAt <= |q.logs[s]| && Allowed(q, steps)
            && Finished(q, Run(q, steps), x, Everything(q, q.clients[x], s) + [Done])
  {
    hide Inv, Next, Enabled, Finished, Freed, Allowed, Run, Everything, Told, Hearing, ToTheEnd;
    OwnerThere(r, step);
    ListedListens(r, step.w, x);
    EndTells(r, step);
    StepKeeps(r, step);
    SenderThere(r, x);
    HearingNow(r.clients[x], Next(r, step).clients[x], r.clients[step.w].sessionId.value);
    SessionOver(r, step);
    HeardToTheEnd(Next(r, step), x, r.clients[step.w].sessionId.value);
  }

  // ---------------------------------------------------------------- nothing after a stop

  /** Nobody's stream can frame any more of session `s`. */
  ghost predicate Halted(r: Registry, s: SessionId) {
    s in r.logs && forall x :: x in r.clients && r.clients[x].sessionId == Some(s) ==> r.clients[x].stream != Running
  }

  /** `x` did not become the owner of session `s`, nor did its stream come back on. */
  predicate NoRevival(r: Registry, q: Registry, x: Socket, s: SessionId) {
    x in q.clients && q.clients[x].sessionId == Some(s) ==>
      x in r.clients && r.clients[x].sessionId == Some(s) && (q.clients[x].stream == Running ==> r.clients[x].stream == Running)
  }

  lemma ClaimRevives(r: Registry, w: Socket, wanted: set<Iface>, x: Socket, s: SessionId)
    requires w in r.clients
    ensures NoRevival(r, Claim(r, w, wanted), x, s) && NoRevival(r, Release(r, w), x, s)
  {
  }

  lemma EndRevives(r: Registry, w: Socket, x: Socket, s: SessionId)
    requires w in r.clients
    ensures w in Release(r, w).clients && NoRevival(r, EndSession(Release(r, w), w), x, s)
  {
  }

  lemma ClearRevives(r: Registry, w: Socket, expected: Option<SessionId>, x: Socket, s: SessionId)
    requires w in r.clients
    ensures NoRevival(r, Clear(r, w, expected), x, s)
  {
  }

  lemma AttachRevives(r: Registry, w: Socket, x: Socket, s: SessionId)
    requires w in r.clients && r.clients[w].phase.Subscribing?
    ensures NoRevival(r, Attach(r, w), x, s)
  {
  }

  lemma {:induction false} QueueRevives(r: Registry, w: Socket, t: SessionId, bs: seq<Block>, x: Socket, s: SessionId)
    requires w in r.clients
    ensures NoRevival(r, QueueBlocks(r, w, t, bs), x, s)
    decreases |bs|
  {
    if bs == [] {
    } else {
      QueueOnceRevives(r, w, t, bs[0], x, s);
      hide QueueBlock;
      QueueRevives(QueueBlock(r, w, t, bs[0]), w, t, bs[1..], x, s);
    }
  }

  lemma QueueOnceRevives(r: Registry, w: Socket, t: SessionId, b: Block, x: Socket, s: SessionId)
    requires w in r.clients
    ensures w in QueueBlock(r, w, t, b).clients && NoRevival(r, QueueBlock(r, w, t, b), x, s)
  {
  }

  lemma ChunkRevives(r: Registry, w: Socket, bytes: seq<Byte>, x: Socket, s: SessionId)
    requires w in r.clients
    ensures NoRevival(r, Broadcast(r, w, bytes), x, s)
  {
    hide QueueBlocks, Framer.Feed;
    var c := r.clients[w];
    var (bs, f) := Framer.Feed(c.framer, bytes);
    if c.sessionId.Some? {
      QueueRevives(Put(r, w, c.(framer := f)), w, c.sessionId.value, bs, x, s);
    }
  }

  lemma SenderRevives(r: Registry, step: Step, x: Socket, s: SessionId)
    requires Enabled(r, step) && (step.SenderTake? || step.SenderSent? || step.SenderClosed? || step.SenderFail?)
    ensures NoRevival(r, Next(r, step), x, s)
  {
    hide Clear;
    var w := step.w;
    var c := r.clients[w];
    ClearRevives(r, w, c.subscribedTo, x, s);
    if step.SenderTake? {
      ClearRevives(Put(r, w, c.(queue := Some(c.queue.value[1..]), sender := Sending(c.queue.value[0]))), w, c.subscribedTo, x, s);
    } else if step.SenderSent? {
      ClearRevives(Put(r, w, c.(sent := c.sent + [c.sender.item], sender := Waiting)), w, c.subscribedTo, x, s);
    } else if step.SenderClosed? {
      ClearRevives(Put(r, w, c.(sent := c.sent + [Close])), w, c.subscribedTo, x, s);
    }
  }

  lemma StepRevives(r: Registry, step: Step, x: Socket, s: SessionId)
    requires Enabled(r, step) && s in r.logs
    ensures NoRevival(r, Next(r, step), x, s)
  {
    hide Claim, Release, Clear, EndSession, Attach, Broadcast, Taken, Sent, Conflicts;
    var w := step.w;
    if step.SenderTake? || step.SenderSent? || step.SenderClosed? || step.SenderFail? {
      SenderRevives(r, step, x, s);
    } else if step.Chunk? {
      ChunkRevives(r, w, step.bytes, x, s);
    } else if step.SubscribeEnd? {
      AttachRevives(r, w, x, s);
    } else if step.StreamEnd? || step.StopEnd? {
      EndRevives(r, w, x, s);
    } else if !step.Connect? {
      ClaimRevives(r, w, if step.StartClaim? then step.wanted else {}, x, s);
      ClearRevives(r, w, None, x, s);
    }
  }

  /** A stop cancels the stream at once. */
  lemma StopHalts(r: Registry, w: Socket, s: SessionId)
    requires Inv(r) && Enabled(r, StopBegin(w)) && r.clients[w].sessionId == Some(s)
    ensures var q := Next(r, StopBegin(w));
            Halted(q, s) && q.logs == r.logs && forall bytes :: !Enabled(q, Chunk(w, bytes))
  {
    hide Inv, Next, Enabled;
    StopBegunIs(r, w);
    SessionHasLog(r, w);
    OneOwner(r, w, s);
  }

  lemma StopBegunIs(r: Registry, w: Socket)
    requires Enabled(r, StopBegin(w))
    ensures var q := Next(r, StopBegin(w));
            && w in r.clients && q == r.(clients := r.clients[w := q.clients[w]]) && q.clients[w].sessionId == r.clients[w].sessionId
            && q.clients[w].stream != Running && forall bytes :: !Enabled(q, Chunk(w, bytes))
  {
  }

  lemma OneOwner(r: Registry, w: Socket, s: SessionId)
    requires Inv(r) && w in r.clients && r.clients[w].sessionId == Some(s)
    ensures forall x :: x in r.clients && r.clients[x].sessionId == Some(s) ==> x == w
  {
    Parts(r);
    hide Inv, OwnersAgree, ListsAgree, FramersAgree;
  }

  lemma HaltedStep(r: Registry, step: Step, s: SessionId)
    requires Inv(r) && Halted(r, s) && Enabled(r, step)
    ensures Halted(Next(r, step), s) && Next(r, step).logs[s] == r.logs[s]
  {
    hide Inv, Next, Enabled;
    if step.Chunk? {
      ChunkElsewhere(r, step.w, step.bytes, s);
    } else if step.Launch? {
      LaunchElsewhere(r, step.w, step.session, s);
    } else {
      LogsSame(r, step);
    }
    forall x | x in Next(r, step).clients && Next(r, step).clients[x].sessionId == Some(s)
      ensures Next(r, step).clients[x].stream != Running
    {
      StepRevives(r, step, x, s);
    }
  }

  lemma LaunchElsewhere(r: Registry, w: Socket, t: SessionId, s: SessionId)
    requires Enabled(r, Launch(w, t)) && s in r.logs
    ensures var q := Next(r, Launch(w, t)); s in q.logs && q.logs[s] == r.logs[s]
  {
  }

  lemma ChunkElsewhere(r: Registry, w: Socket, bytes: seq<Byte>, s: SessionId)
    requires Inv(r) && Halted(r, s) && Enabled(r, Chunk(w, bytes))
    ensures var q := Next(r, Chunk(w, bytes)); s in q.logs && q.logs[s] == r.logs[s]
  {
    RunningHasSession(r, w, bytes);
    SessionHasLog(r, w);
    hide Inv, QueueBlocks, Framer.Feed;
    var c := r.clients[w];
    var (bs, f) := Framer.Feed(c.framer, bytes);
    QueueLogs(Put(r, w, c.(framer := f)), w, c.sessionId.value, bs);
  }

  lemma {:induction false} HaltedRun(r: Registry, steps: seq<Step>, s: SessionId)
    requires Inv(r) && Halted(r, s) && Allowed(r, steps)
    ensures s in Run(r, steps).logs && Run(r, steps).logs[s] == r.logs[s]
    decreases |steps|
  {
    hide Inv, Enabled, Next;
    if steps == [] {
    } else {
      StepKeeps(r, steps[0]);
      HaltedStep(r, steps[0], s);
      HaltedRun(Next(r, steps[0]), steps[1..], s);
    }
  }

  /** From the moment a stop begins, whatever runs next, no block is added to the session it stops. */
  lemma NothingAfterStop(r: Registry, w: Socket, s: SessionId, steps: seq<Step>)
    requires Inv(r) && Enabled(r, StopBegin(w)) && r.clients[w].sessionId == Some(s) && Allowed(Next(r, StopBegin(w)), steps)
    ensures s in r.logs && s in Run(Next(r, StopBegin(w)), steps).logs && Run(Next(r, StopBegin(w)), steps).logs[s] == r.logs[s]
  {
    SessionHasLog(r, w);
    StopHalts(r, w, s);
    hide Inv, Enabled, Next;
    StepKeeps(r, StopBegin(w));
    HaltedRun(Next(r, StopBegin(w)), steps, s);
  }

  // ---------------------------------------------------------------- sockets

  /** A delivery that times out ends the subscription: all its sender can do is close, or fail; nothing more is delivered. */
  lemma TimeoutEnds(r: Registry, w: Socket)
    requires Inv(r) && Enabled(r, SenderTimeout(w))
    ensures var q := Next(r, SenderTimeout(w));
            && w in q.clients && q.clients[w].sent == r.clients[w].sent
            && !Enabled(q, SenderTake(w)) && !Enabled(q, SenderSent(w)) && !Enabled(q, SenderTimeout(w))
            && Enabled(q, SenderFail(w)) && Detached(q, Next(q, SenderFail(w)), w)
            && Enabled(q, SenderClosed(w)) && Detached(q, Next(q, SenderClosed(w)), w)
            && (forall x :: x in r.clients && x != w ==> x in q.clients && q.clients[x] == r.clients[x])
  {
    hide Inv, Detached, Next, Enabled;
    StepKeeps(r, SenderTimeout(w));
    TimedOutIs(r, w);
    var q := Next(r, SenderTimeout(w));
    GivesUp(q, SenderFail(w));
    GivesUp(q, SenderClosed(w));
  }

  lemma TimedOutIs(r: Registry, w: Socket)
    requires Enabled(r, SenderTimeout(w))
    ensures var q := Next(r, SenderTimeout(w));
            && w in r.clients && w in q.clients && q.clients[w].sent == r.clients[w].sent
            && (forall x :: x in r.clients && x != w ==> x in q.clients && q.clients[x] == r.clients[x])
            && !Enabled(q, SenderTake(w)) && !Enabled(q, SenderSent(w)) && !Enabled(q, SenderTimeout(w))
            && Enabled(q, SenderFail(w)) && Enabled(q, SenderClosed(w))
  {
    StuckAfter(Next(r, SenderTimeout(w)), w);
    hide Enabled;
  }

  lemma StuckAfter(q: Registry, w: Socket)
    ensures w in q.clients && q.clients[w].sender.TimedOut? ==>
              && !Enabled(q, SenderTake(w)) && !Enabled(q, SenderSent(w)) && !Enabled(q, SenderTimeout(w))
              && Enabled(q, SenderFail(w)) && Enabled(q, SenderClosed(w))
  {
  }

  lemma GivesUp(q: Registry, step: Step)
    requires Inv(q) && Enabled(q, step) && (step.SenderFail? || step.SenderClosed?)
    ensures Detached(q, Next(q, step), step.w)
  {
    hide Inv, Detached, Next, Enabled;
    EndsDetach(q, step);
  }

  /** A socket that connects has nothing and may start or subscribe at once. */
  lemma ConnectsWithNothing(r: Registry, w: Socket)
    requires Inv(r) && Enabled(r, Connect(w))
    ensures var q := Next(r, Connect(w));
            && q.clients.Keys == r.clients.Keys + {w} && (forall x :: x in r.clients ==> q.clients[x] == r.clients[x])
            && q.owners == r.owners && q.sessions == r.sessions && q.logs == r.logs
            && (forall i :: i in q.owners ==> q.owners[i] != w) && (forall s :: s in q.sessions ==> q.sessions[s] != w)
            && (forall x :: x in q.clients ==> w !in q.clients[x].subscribers)
            && (forall wanted :: Enabled(q, StartClaim(w, wanted))) && (forall s :: s in q.sessions ==> Enabled(q, SubscribeBegin(w, s)))
  {
    ListedByNobody(r, w);
    Parts(r);
    ConnectIs(r, w);
    hide Inv, ListsAgree, FramersAgree, Next, Enabled;
  }

  lemma ConnectIs(r: Registry, w: Socket)
    requires Enabled(r, Connect(w))
    ensures var q := Next(r, Connect(w));
            && w !in r.clients && w in q.clients && q == r.(clients := r.clients[w := q.clients[w]]) && q.clients[w].subscribers == {}
            && (forall wanted :: Enabled(q, StartClaim(w, wanted))) && (forall s :: s in q.sessions ==> Enabled(q, SubscribeBegin(w, s)))
  {
  }

  lemma ListedByNobody(r: Registry, w: Socket)
    requires Inv(r) && (w in r.clients ==> r.clients[w].subscribedTo.None?)
    ensures forall x :: x in r.clients ==> w !in r.clients[x].subscribers
  {
    forall x | x in r.clients && w in r.clients[x].subscribers
      ensures false
    {
      ListedListens(r, x, w);
    }
  }

  /** A socket that is gone owns no interface and no session, and nobody lists it; nobody else notices. */
  lemma LeavesNothing(r: Registry, w: Socket)
    requires Inv(r) && Enabled(r, DisconnectPop(w))
    ensures var q := Next(r, DisconnectPop(w));
            && q.clients == r.clients - {w} && q.owners == r.owners && q.sessions == r.sessions && q.logs == r.logs
            && (forall i :: i in q.owners ==> q.owners[i] != w) && (forall s :: s in q.sessions ==> q.sessions[s] != w)
            && (forall x :: x in q.clients ==> w !in q.clients[x].subscribers)
  {
    One(r, w);
    ListedByNobody(r, w);
    Parts(r);
    hide Inv, Fed, ListsAgree, FramersAgree;
  }

  /** A subscriber may leave at any moment, and a delivery under way may fail or time out; either way the subscription is over. */
  lemma MayAlwaysUnsubscribe(r: Registry, w: Socket)
    requires Inv(r) && w in r.clients && r.clients[w].subscribedTo.Some?
    ensures Enabled(r, Unsubscribe(w)) && Detached(r, Next(r, Unsubscribe(w)), w)
    ensures r.clients[w].sender.Sending? ==>
              && Enabled(r, SenderTimeout(w)) && Enabled(r, SenderSent(w))
              && Enabled(r, SenderFail(w)) && Detached(r, Next(r, SenderFail(w)), w)
  {
    One(r, w);
    MayUnsubscribe(r, w);
    hide Inv, Detached, Next, Enabled, Fed;
    EndsDetach(r, Unsubscribe(w));
    if r.clients[w].sender.Sending? {
      GivesUp(r, SenderFail(w));
    }
  }

  lemma MayUnsubscribe(r: Registry, w: Socket)
    requires w in r.clients
    ensures r.clients[w].phase == Idle ==> Enabled(r, Unsubscribe(w)) && EndsSubscription(r, Unsubscribe(w))
    ensures r.clients[w].sender.Sending? ==> Enabled(r, SenderTimeout(w)) && Enabled(r, SenderSent(w)) && Enabled(r, SenderFail(w))
  {
  }

  /** A start may fail at any point before its launch, and a socket that is not in the middle of a command may go. */
  lemma MayAlwaysGo(r: Registry, w: Socket)
    requires Inv(r) && w in r.clients && r.clients[w].phase in {Idle, Claimed, Ready}
    ensures r.clients[w].phase != Idle ==> Enabled(r, StartFail(w))
    ensures Allowed(r, [DisconnectBegin(w), StopBegin(w), StopEnd(w), DisconnectPop(w)])
    ensures var q := Run(r, [DisconnectBegin(w), StopBegin(w), StopEnd(w), DisconnectPop(w)]);
            && w !in q.clients && (forall i :: i in q.owners ==> q.owners[i] != w) && (forall s :: s in q.sessions ==> q.sessions[s] != w)
            && (forall x :: x in q.clients ==> w !in q.clients[x].subscribers)
  {
    hide Inv, Next, Enabled, Allowed, Run;
    var q1 := Goes(r, w);
    StepKeeps(r, DisconnectBegin(w));
    StepKeeps(q1, StopBegin(w));
    var q2 := Next(q1, StopBegin(w));
    var q3 := Stops(q2, w);
    StepKeeps(q2, StopEnd(w));
    LeavesNothing(q3, w);
    var q4 := Next(q3, DisconnectPop(w));
    RunNone(q4);
    assert [DisconnectPop(w)] + [] == [DisconnectPop(w)];
    assert [StopEnd(w)] + [DisconnectPop(w)] == [StopEnd(w), DisconnectPop(w)];
    assert [StopBegin(w)] + [StopEnd(w), DisconnectPop(w)] == [StopBegin(w), StopEnd(w), DisconnectPop(w)];
    assert [DisconnectBegin(w)] + [StopBegin(w), StopEnd(w), DisconnectPop(w)] == [DisconnectBegin(w), StopBegin(w), StopEnd(w), DisconnectPop(w)];
    RunOne(q3, DisconnectPop(w), []);
    RunOne(q2, StopEnd(w), [DisconnectPop(w)]);
    RunOne(q1, StopBegin(w), [StopEnd(w), DisconnectPop(w)]);
    RunOne(r, DisconnectBegin(w), [StopBegin(w), StopEnd(w), DisconnectPop(w)]);
    PoppedIs(q3, w);
  }

  lemma Goes(r: Registry, w: Socket) returns (q: Registry)
    requires Inv(r) && w in r.clients && r.clients[w].phase in {Idle, Claimed, Ready}
    ensures r.clients[w].phase != Idle ==> Enabled(r, StartFail(w))
    ensures Enabled(r, DisconnectBegin(w)) && q == Next(r, DisconnectBegin(w)) && Enabled(q, StopBegin(w))
    ensures var p := Next(q, StopBegin(w)); w in p.clients && p.clients[w].phase == LeavingStop && Enabled(p, StopEnd(w))
  {
    MayGo(r, w);
    q := Next(r, DisconnectBegin(w));
    hide Inv, Enabled, EndsSubscription;
    EndsDetach(r, DisconnectBegin(w));
    GoneIs(r, w);
    hide Next;
    StopBegins(q, w);
  }

  lemma MayGo(r: Registry, w: Socket)
    requires w in r.clients && r.clients[w].phase in {Idle, Claimed, Ready}
    ensures r.clients[w].phase != Idle ==> Enabled(r, StartFail(w))
    ensures Enabled(r, DisconnectBegin(w)) && EndsSubscription(r, DisconnectBegin(w))
  {
  }

  lemma GoneIs(r: Registry, w: Socket)
    requires Enabled(r, DisconnectBegin(w))
    ensures w in Next(r, DisconnectBegin(w)).clients && Next(r, DisconnectBegin(w)).clients[w].phase == Leaving
  {
    SameKeys(r, w);
    PhaseSet(Clear(r, w, None), w);
    hide Clear, SetPhase;
  }

  lemma PhaseSet(r: Registry, w: Socket)
    ensures w in r.clients ==> w in SetPhase(r, w, Leaving).clients && SetPhase(r, w, Leaving).clients[w].phase == Leaving
    ensures w !in r.clients ==> w !in SetPhase(r, w, Leaving).clients
  {
  }

  lemma StopBegins(q: Registry, w: Socket)
    requires w in q.clients && q.clients[w].phase == Leaving && q.clients[w].subscribedTo.None?
    ensures Enabled(q, StopBegin(w))
    ensures var p := Next(q, StopBegin(w)); w in p.clients && p.clients[w].phase == LeavingStop && Enabled(p, StopEnd(w))
  {
  }

  lemma Stops(r: Registry, w: Socket) returns (q: Registry)
    requires Enabled(r, StopEnd(w)) && w in r.clients && r.clients[w].phase == LeavingStop
    ensures q == Next(r, StopEnd(w)) && Enabled(q, DisconnectPop(w))
  {
    hide Release, EndSession;
    q := Next(r, StopEnd(w));
    SameKeys(r, w);
    SameKeys(Release(r, w), w);
  }

  lemma PoppedIs(q: Registry, w: Socket)
    requires Enabled(q, DisconnectPop(w))
    ensures w !in Next(q, DisconnectPop(w)).clients
  {
  }

  // ---------------------------------------------------------------- from the first step to the last

  const WLAN: Iface := "wlan0"

  /** One socket starts a capture, another one subscribes to it. */
  function Opening(w: Socket, s: SessionId): seq<Step> {
    [Connect(w), StartClaim(w, {WLAN}), StartReset(w), Launch(w, s)]
  }

  function Joining(x: Socket, s: SessionId): seq<Step> { [Connect(x), SubscribeBegin(x, s), SubscribeEnd(x)] }

  function Capturing(w: Socket, s: SessionId): Registry {
    Registry(map[w := NEW_CLIENT.(interfaces := {WLAN}, sessionId := Some(s), stream := Running)],
             map[WLAN := w], map[s := w], map[s := []])
  }

  lemma Opens(w: Socket, s: SessionId)
    ensures Allowed(EMPTY, Opening(w, s)) && Run(EMPTY, Opening(w, s)) == Capturing(w, s)
  {
    var steps := Opening(w, s);
    var r1 := Next(EMPTY, steps[0]);
    assert r1.clients == map[w := NEW_CLIENT];
    assert Conflicts(r1, w, {WLAN}) == {};
    var r2 := Next(r1, steps[1]);
    var r3 := Next(r2, steps[2]);
    var r4 := Next(r3, steps[3]);
    assert r2.owners == map[WLAN := w];
    assert r4.clients == Capturing(w, s).clients;
    assert r4 == Capturing(w, s);
    RunNone(r4);
    hide Next, Enabled, Allowed, Run;
    RunOne(r3, steps[3], []);
    RunOne(r2, steps[2], [steps[3]]);
    RunOne(r1, steps[1], [steps[2], steps[3]]);
    RunOne(EMPTY, steps[0], [steps[1], steps[2], steps[3]]);
  }

  /** `x` has subscribed, and `bs` have been framed since and are all still queued for it. */
  function Streaming(w: Socket, x: Socket, s: SessionId, f: Framer.State, bs: seq<Block>): Registry {
    Registry(map[w := NEW_CLIENT.(interfaces := {WLAN}, sessionId := Some(s), stream := Running, subscribers := {x}, framer := f),
                 x := NEW_CLIENT.(subscribedTo := Some(s), queue := Some([Subscribed(s)] + Datas(bs)), sender := Waiting, feedOf := Some(s))],
             map[WLAN := w], map[s := w], map[s := bs])
  }

  /** Between the two segments of subscribing. */
  function Entering(w: Socket, x: Socket, s: SessionId, phase: Phase): Registry {
    Capturing(w, s).(clients := Capturing(w, s).clients[x := NEW_CLIENT.(phase := phase)])
  }

  lemma Joins(w: Socket, x: Socket, s: SessionId)
    requires x != w
    ensures Allowed(Capturing(w, s), Joining(x, s)) && Run(Capturing(w, s), Joining(x, s)) == Streaming(w, x, s, Framer.INITIAL, [])
  {
    Enters(w, x, s);
    Entered(w, x, s);
    hide Next, Enabled, Allowed, Run, Streaming, Capturing, Entering;
    RunNone(Streaming(w, x, s, Framer.INITIAL, []));
    RunOne(Entering(w, x, s, Subscribing(s)), SubscribeEnd(x), []);
    RunOne(Entering(w, x, s, Idle), SubscribeBegin(x, s), [SubscribeEnd(x)]);
    RunOne(Capturing(w, s), Connect(x), [SubscribeBegin(x, s), SubscribeEnd(x)]);
  }

  lemma Enters(w: Socket, x: Socket, s: SessionId)
    requires x != w
    ensures Enabled(Capturing(w, s), Connect(x)) && Next(Capturing(w, s), Connect(x)) == Entering(w, x, s, Idle)
    ensures var r := Entering(w, x, s, Idle);
            Enabled(r, SubscribeBegin(x, s)) && Next(r, SubscribeBegin(x, s)) == Entering(w, x, s, Subscribing(s))
  {
    var r := Entering(w, x, s, Idle);
    assert Next(Capturing(w, s), Connect(x)).clients == r.clients;
    assert Clear(r, x, None).clients == r.clients;
  }

  lemma Entered(w: Socket, x: Socket, s: SessionId)
    requires x != w
    ensures var r := Entering(w, x, s, Subscribing(s));
            Enabled(r, SubscribeEnd(x)) && Next(r, SubscribeEnd(x)) == Streaming(w, x, s, Framer.INITIAL, [])
  {
    var r, q := Entering(w, x, s, Subscribing(s)), Streaming(w, x, s, Framer.INITIAL, []);
    SubscribingIs(r, x);
    assert Datas([]) == [] && [Subscribed(s)] + [] == [Subscribed(s)];
    assert {} + {x} == {x};
    hide Next, Enabled;
    assert Attach(r, x).clients[x] == q.clients[x];
    assert Attach(r, x).clients[w] == q.clients[w];
    assert Attach(r, x).clients == q.clients;
  }

  lemma ChunkStreams(w: Socket, x: Socket, s: SessionId, f: Framer.State, bs: seq<Block>, bytes: seq<Byte>)
    requires x != w && |bs + Framer.Feed(f, bytes).0| < 1024
    ensures var r := Streaming(w, x, s, f, bs); var (cs, g) := Framer.Feed(f, bytes);
            Enabled(r, Chunk(w, bytes)) && Next(r, Chunk(w, bytes)) == Streaming(w, x, s, g, bs + cs)
  {
    hide Framer.Feed, QueueBlocks, SessionEffects.Queued;
    var r := Streaming(w, x, s, f, bs);
    var (cs, g) := Framer.Feed(f, bytes);
    var m := Streaming(w, x, s, g, bs);
    assert Put(r, w, r.clients[w].(framer := g)) == m by {
      assert Put(r, w, r.clients[w].(framer := g)).clients == m.clients;
    }
    assert AllListen(m, w, s);
    QueuesAll(m, w, s, cs);
    StreamsOn(w, x, s, g, bs, cs, QueueBlocks(m, w, s, cs));
  }

  lemma StreamsOn(w: Socket, x: Socket, s: SessionId, g: Framer.State, bs: seq<Block>, cs: seq<Block>, q: Registry)
    requires x != w && |bs + cs| < 1024 && SessionEffects.Queued(Streaming(w, x, s, g, bs), q, w, s, cs)
    ensures q == Streaming(w, x, s, g, bs + cs)
  {
    assert [Subscribed(s)] + Datas(bs) + Datas(cs) == [Subscribed(s)] + Datas(bs + cs);
    assert q.clients[w].subscribers == {x};
    assert q.clients == Streaming(w, x, s, g, bs + cs).clients;
    assert q.logs == map[s := bs + cs];
  }

  function Chunks(w: Socket, chunks: seq<seq<Byte>>): seq<Step> {
    if chunks == [] then [] else [Chunk(w, chunks[0])] + Chunks(w, chunks[1..])
  }

  lemma {:induction false} ChunksStream(w: Socket, x: Socket, s: SessionId, f: Framer.State, bs: seq<Block>, chunks: seq<seq<Byte>>)
    requires x != w && |bs + Framer.FeedAll(f, chunks).0| < 1024
    ensures var r := Streaming(w, x, s, f, bs); var (cs, g) := Framer.FeedAll(f, chunks);
            Allowed(r, Chunks(w, chunks)) && Run(r, Chunks(w, chunks)) == Streaming(w, x, s, g, bs + cs)
    decreases |chunks|
  {
    hide Framer.Feed, Next, Enabled, Streaming, Allowed, Run;
    if chunks == [] {
      assert bs + [] == bs;
      RunNone(Streaming(w, x, s, f, bs));
    } else {
      var (cs, g) := Framer.Feed(f, chunks[0]);
      var (ds, h) := Framer.FeedAll(g, chunks[1..]);
      assert bs + cs + ds == bs + (cs + ds);
      ChunkStreams(w, x, s, f, bs, chunks[0]);
      ChunksStream(w, x, s, g, bs + cs, chunks[1..]);
      RunOne(Streaming(w, x, s, f, bs), Chunk(w, chunks[0]), Chunks(w, chunks[1..]));
    }
  }

  lemma {:induction false} RunAppend(r: Registry, a: seq<Step>, b: seq<Step>)
    requires Allowed(r, a) && Allowed(Run(r, a), b)
    ensures Allowed(r, a + b) && Run(r, a + b) == Run(Run(r, a), b)
    decreases |a|
  {
    hide Enabled, Next;
    if a == [] {
      assert a + b == b;
    } else {
      assert (a + b)[1..] == a[1..] + b;
      RunAppend(Next(r, a[0]), a[1..], b);
    }
  }

  /** A capture with one subscriber from the first connection to the end of the capture's process. */
  function Capture(w: Socket, x: Socket, s: SessionId, chunks: seq<seq<Byte>>): seq<Step> {
    Opening(w, s) + Joining(x, s) + Chunks(w, chunks) + [StreamEnd(w)]
  }

  lemma Captures(w: Socket, x: Socket, s: SessionId, chunks: seq<seq<Byte>>)
    requires x != w && |Framer.FeedAll(Framer.INITIAL, chunks).0| < 1024
    ensures var (bs, f) := Framer.FeedAll(Framer.INITIAL, chunks); var steps := Opening(w, s) + Joining(x, s) + Chunks(w, chunks);
            Allowed(EMPTY, steps) && Run(EMPTY, steps) == Streaming(w, x, s, f, bs)
  {
    hide Framer.FeedAll, Streaming, Capturing, Opening, Joining, Chunks, Allowed, Run;
    var bs := Framer.FeedAll(Framer.INITIAL, chunks).0;
    assert [] + bs == bs;
    Opens(w, s);
    Joins(w, x, s);
    RunAppend(EMPTY, Opening(w, s), Joining(x, s));
    ChunksStream(w, x, s, Framer.INITIAL, [], chunks);
    RunAppend(EMPTY, Opening(w, s) + Joining(x, s), Chunks(w, chunks));
  }

  lemma StreamingEnds(w: Socket, x: Socket, s: SessionId, f: Framer.State, bs: seq<Block>)
    requires x != w
    ensures var r := Streaming(w, x, s, f, bs); var c := r.clients[x];
            && Enabled(r, StreamEnd(w)) && x in r.clients[w].subscribers && r.clients[w].sessionId == Some(s)
            && c.queue.Some? && |c.queue.value| == |bs| + 1 && c.sender == Waiting && c.hello == [] && c.joinAt == 0 && r.logs == map[s := bs]
  {
  }

  /**
   Any capture of up to 1021 blocks can be watched from its first byte to its last: its steps are all possible one after
   the other, and then those of the subscriber's sender, which delivers the announcement, each block, and the end event.
   */
  lemma WatchedToTheEnd(w: Socket, x: Socket, s: SessionId, chunks: seq<seq<Byte>>)
    requires x != w && |Framer.FeedAll(Framer.INITIAL, chunks).0| <= 1021
    ensures var bs := Framer.FeedAll(Framer.INITIAL, chunks).0; var steps := Capture(w, x, s, chunks);
            && Allowed(EMPTY, steps) && x in Run(EMPTY, steps).clients
            && Run(EMPTY, steps).clients[x].queue.Some? && Run(EMPTY, steps).clients[x].queue.value != []
            && var all := steps + ToTheEnd(Run(EMPTY, steps).clients[x], x);
            && Allowed(EMPTY, all) && x in Run(EMPTY, all).clients
            && Run(EMPTY, all).clients[x].sent == [Subscribed(s)] + Datas(bs) + [Ended(s)]
            && Run(EMPTY, all).clients[x].subscribedTo == None && s !in Run(EMPTY, all).sessions
  {
    hide Framer.FeedAll, Streaming, Opening, Joining, Chunks, Allowed, Run, Next, Enabled, Inv, Told, Freed;
    var (bs, f) := Framer.FeedAll(Framer.INITIAL, chunks);
    var before := Opening(w, s) + Joining(x, s) + Chunks(w, chunks);
    Captures(w, x, s, chunks);
    var r := Run(EMPTY, before);
    StreamingEnds(w, x, s, f, bs);
    EveryRun(before);
    var q := Next(r, StreamEnd(w));
    RunNone(q);
    assert [StreamEnd(w)] + [] == [StreamEnd(w)];
    RunOne(r, StreamEnd(w), []);
    RunAppend(EMPTY, before, [StreamEnd(w)]);
    EndTells(r, StreamEnd(w));
    EndIsHeard(r, StreamEnd(w), x);
    RunAppend(EMPTY, Capture(w, x, s, chunks), ToTheEnd(q.clients[x], x));
    HeardThat(r, q, x, s, w, bs);
    FinishedIs(q, Run(q, ToTheEnd(q.clients[x], x)), x, [Subscribed(s)] + Datas(bs) + [Ended(s)]);
  }

  lemma HeardThat(r: Registry, q: Registry, x: Socket, s: SessionId, w: Socket, bs: seq<Block>)
    requires x in r.clients && x in q.clients && Told(r.clients[x], q.clients[x], s) && q.logs == map[s := bs]
    requires r.clients[x].hello == [] && r.clients[x].joinAt == 0
    ensures q.clients[x].joinAt == 0 && Everything(q, q.clients[x], s) == [Subscribed(s)] + Datas(bs) + [Ended(s)]
  {
    assert bs[0..] == bs;
  }

  lemma FinishedIs(r: Registry, q: Registry, x: Socket, sent: seq<Item>)
    requires Finished(r, q, x, sent + [Done])
    ensures x in q.clients && q.clients[x].sent == sent && q.clients[x].subscribedTo == None && q.sessions == r.sessions
  {
    var got := q.clients[x].sent;
    assert (got + [Done])[..|got|] == got && (sent + [Done])[..|sent|] == sent;
  }
}
