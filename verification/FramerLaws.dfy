/**
 What the framer promises: how dumpcap's output is split into chunks does not
 matter, undamaged streams come back exactly, and damaged ones yield only whole
 blocks, in order, starting again at a section header.
 */
module FramerLaws {
  import opened Bytes
  import opened Pcapng
  import opened Framer

  // ---------------------------------------------------------------- search

  lemma FindIs(s: seq<Byte>, i: nat)
    requires MagicAt(s, i)
    requires forall j: nat :: MagicAt(s, j) ==> i <= j
    ensures Find(s) == i
  {
  }

  lemma NoMagicBefore(s: seq<Byte>, j: nat)
    requires j < |s| - |Trim(s)|
    ensures j + 4 <= |s| && !MagicAt(s, j)
  {
  }

  /** The magic cannot start before a trimmed buffer's first kept byte, whatever follows. */
  lemma MagicShifts(s: seq<Byte>, more: seq<Byte>, j: nat)
    ensures var d := |s| - |Trim(s)|;
            d >= 0 && (MagicAt(s + more, j) <==> j >= d && MagicAt(Trim(s) + more, j - d))
  {
    var d := |s| - |Trim(s)|;
    if j < d {
      NoMagicBefore(s, j);
      assert (s + more)[j..][..4] == s[j..][..4];
    } else if j + 4 <= |s + more| {
      assert (Trim(s) + more)[j - d..] == (s + more)[j..];
    }
  }

  lemma {:induction false} TrimAppend(s: seq<Byte>, more: seq<Byte>)
    ensures Trim(s + more) == Trim(Trim(s) + more)
  {
    hide MagicAt;
    var d := |s| - |Trim(s)|;
    var whole, kept := s + more, Trim(s) + more;
    assert kept == whole[d..];
    forall j: nat {
      MagicShifts(s, more, j);
    }
    var k := Find(kept);
    if k >= 0 {
      MagicShifts(s, more, d + k);
      FindIs(whole, d + k);
      assert whole[d + k..] == kept[k..];
    } else {
      TrimNone(s, more);
    }
  }

  /** Without a magic in what was kept, there is none at all. */
  lemma TrimNone(s: seq<Byte>, more: seq<Byte>)
    requires Find(Trim(s) + more) < 0
    ensures Trim(s + more) == Trim(Trim(s) + more)
  {
    hide MagicAt;
    var whole, kept := s + more, Trim(s) + more;
    if Find(whole) >= 0 {
      MagicShifts(s, more, Find(whole));
      assert false;
    }
    if Find(s) >= 0 {
      MagicStays(s, more, Find(s));
      assert false;
    }
    assert Trim(kept) == Trim(whole);
  }

  lemma MagicStays(s: seq<Byte>, more: seq<Byte>, j: nat)
    requires MagicAt(s, j)
    ensures MagicAt(s + more, j)
  {
    assert (s + more)[j..][..4] == s[j..][..4];
  }

  lemma TrimTwice(s: seq<Byte>)
    ensures Trim(Trim(s)) == Trim(s)
  {
    TrimAppend(s, []);
    assert s + [] == s && Trim(s) + [] == Trim(s);
  }

  lemma TrimShape(s: seq<Byte>)
    ensures |Trim(s)| <= |s|
    ensures |Trim(s)| > 3 ==> IsSection(Trim(s))
    ensures IsSection(s) ==> Trim(s) == s
  {
    if IsSection(s) {
      assert s[0..] == s;
      FindIs(s, 0);
    }
  }

  lemma SameStep(s: State, t: State)
    requires Step(s) == Step(t)
    ensures Run(s) == Run(t)
  {
  }

  // ---------------------------------------------------------------- chunk invariance

  /** Equal but for junk in front of an unsynchronised buffer. */
  predicate Alike(s: State, t: State) {
    && s.order == t.order && s.header == t.header && s.complete == t.complete
    && (if s.order.None? then Trim(s.buf) == Trim(t.buf) else s.buf == t.buf)
  }

  predicate AlikeRuns(x: (seq<Block>, State), y: (seq<Block>, State)) {
    x.0 == y.0 && Alike(x.1, y.1)
  }

  function Plus(s: State, more: seq<Byte>): State { s.(buf := s.buf + more) }

  lemma JunkIsInert(s: State)
    requires s.order.None?
    ensures AlikeRuns(Run(s), Run(s.(buf := Trim(s.buf))))
  {
    hide Cut, Trim;
    TrimTwice(s.buf);
    TrimShape(s.buf);
    var t := s.(buf := Trim(s.buf));
    if |s.buf| >= 12 && |t.buf| >= 12 {
      assert Step(s) == Step(t);
    }
  }

  lemma AlikeFeeds(s: State, t: State, more: seq<Byte>)
    requires Alike(s, t)
    ensures AlikeRuns(Feed(s, more), Feed(t, more))
  {
    if s.order.None? {
      TrimAppend(s.buf, more);
      TrimAppend(t.buf, more);
      JunkIsInert(Plus(s, more));
      JunkIsInert(Plus(t, more));
    }
  }

  /** Later bytes do not change a decision already taken. */
  lemma {:induction false} StepPlus(s: State, more: seq<Byte>)
    ensures match Step(s)
            case Wait(t) => AlikeRuns(Run(Plus(s, more)), Run(Plus(t, more)))
            case Skip(t) => Step(Plus(s, more)) == Skip(Plus(t, more))
            case Emit(b, t) => Step(Plus(s, more)) == Emit(b, Plus(t, more))
  {
    hide Cut, Trim, Run, Find;
    if |s.buf| >= 12 {
      var t := if s.order.None? then s.(buf := Trim(s.buf)) else s;
      TrimShape(s.buf);
      TrimShape(t.buf + more);
      TrimAppend(s.buf, more);
      if |t.buf| >= 12 {
        assert (t.buf + more)[..4] == t.buf[..4];
        assert Step(s) == Cut(t) && Step(Plus(s, more)) == Cut(Plus(t, more));
        CutPlus(t, more);
        if Cut(t).Wait? {
          SameStep(Plus(s, more), Plus(Cut(t).next, more));
        }
      } else {
        JunkIsInert(Plus(s, more));
        JunkIsInert(Plus(t, more));
      }
    }
  }

  lemma CutPlus(s: State, more: seq<Byte>)
    requires |s.buf| >= 12
    ensures match Cut(s)
            case Wait(t) => Cut(Plus(s, more)) == Cut(Plus(t, more)) && t.buf == s.buf && t.order.Some?
            case Skip(t) => Cut(Plus(s, more)) == Skip(Plus(t, more))
            case Emit(b, t) => Cut(Plus(s, more)) == Emit(b, Plus(t, more))
  {
    hide U32, Absorb;
    var x := s.buf + more;
    assert x[..4] == s.buf[..4] && x[8..12] == s.buf[8..12] && x[4..8] == s.buf[4..8] && x[1..] == s.buf[1..] + more;
    var order := OrderAt(s.order, s.buf);
    assert OrderAt(s.order, x) == order;
    if order.Some? {
      var total := U32(order.value, s.buf[4..8]);
      if 12 <= total <= |s.buf| {
        assert x[total - 4..total] == s.buf[total - 4..total];
        assert x[..total] == s.buf[..total] && x[total..] == s.buf[total..] + more;
        AbsorbPlus(s.(order := order, buf := s.buf[total..]), order.value, s.buf[..total], more);
      }
    }
  }

  lemma AbsorbPlus(s: State, order: Order, block: Block, more: seq<Byte>)
    requires |block| >= 12
    ensures Absorb(Plus(s, more), order, block) == Plus(Absorb(s, order, block), more)
  {
  }

  lemma StepShrinks(s: State)
    ensures !Step(s).Wait? ==> |Step(s).next.buf| < |s.buf|
  {
  }

  /** Running on a buffer, then appending, is running on the longer buffer. */
  lemma {:induction false} RunPlus(s: State, more: seq<Byte>)
    ensures AlikeRuns(Run(Plus(s, more)), (Run(s).0 + Feed(Run(s).1, more).0, Feed(Run(s).1, more).1))
    decreases |s.buf|
  {
    hide Step;
    StepShrinks(s);
    StepPlus(s, more);
    match Step(s)
    case Wait(t) => assert [] + Feed(t, more).0 == Feed(t, more).0;
    case Skip(t) => RunPlus(t, more);
    case Emit(b, t) =>
      RunPlus(t, more);
      assert [b] + (Run(t).0 + Feed(Run(t).1, more).0) == [b] + Run(t).0 + Feed(Run(t).1, more).0;
  }

  /** Any split of a stream into chunks frames the same blocks, header and flag as the whole stream. */
  lemma {:induction false} ChunkInvariance(s: State, chunks: seq<seq<Byte>>)
    ensures FeedAll(s, chunks).0 == if chunks == [] then [] else Feed(s, Flat(chunks)).0
    ensures chunks != [] ==> Alike(FeedAll(s, chunks).1, Feed(s, Flat(chunks)).1)
    decreases |chunks|
  {
    if chunks == [] {
    } else {
      var head, rest := chunks[0], chunks[1..];
      var (bs, t) := Feed(s, head);
      RunPlus(Plus(s, head), Flat(rest));
      assert s.buf + head + Flat(rest) == s.buf + Flat(chunks);
      ChunkInvariance(t, rest);
      if rest == [] {
        assert Flat(rest) == [];
        assert s.buf + Flat(chunks) == s.buf + head;
        assert bs + [] == bs;
      }
    }
  }

  // ---------------------------------------------------------------- what the blocks are

  /** `data` is the blocks in order, apart from `gaps` before them and `tail`; after a gap comes a section header. */
  predicate Explains(order: Option<Order>, data: seq<Byte>, gaps: seq<seq<Byte>>, bs: seq<Block>, tail: seq<Byte>)
    decreases |bs|
  {
    && |gaps| == |bs| + 1
    && gaps[0] <= data
    && var rest := data[|gaps[0]|..];
    if bs == [] then rest == tail
    else
      var before := if gaps[0] == [] then order else None;
      && bs[0] <= rest
      && |bs[0]| >= 12 && OrderAt(before, bs[0]).Some? && WellFormed(OrderAt(before, bs[0]).value, bs[0])
      && Explains(OrderAt(before, bs[0]), rest[|bs[0]|..], gaps[1..], bs[1..], tail)
  }

  /** Whatever the input, the blocks are disjoint in-order pieces of it, and framing restarts at a section header. */
  lemma {:induction false} BlocksAreCutFromInput(s: State) returns (gaps: seq<seq<Byte>>)
    ensures Explains(s.order, s.buf, gaps, Run(s).0, Run(s).1.buf)
    decreases |s.buf|
  {
    hide Cut, Trim, Absorb, U32, Explains, Step;
    StepShape(s);
    TrimIsSuffix(s.buf);
    var t := if |s.buf| >= 12 && s.order.None? then s.(buf := Trim(s.buf)) else s;
    var lost := s.buf[..|s.buf| - |t.buf|];
    assert s.buf[|lost|..] == t.buf;
    match Step(s)
    case Wait(u) =>
      gaps := [lost];
      NothingCut(s.order, s.buf, lost);
    case Skip(u) =>
      var later := BlocksAreCutFromInput(u);
      lost := lost + [t.buf[0]];
      assert s.buf[|lost|..] == u.buf;
      GapGrows(s.order, s.buf, lost, later, Run(u).0, Run(u).1.buf);
      gaps := [lost + later[0]] + later[1..];
    case Emit(b, u) =>
      var later := BlocksAreCutFromInput(u);
      BlockCut(s.order, s.buf, lost, b, later, Run(u).0, Run(u).1.buf);
      gaps := [lost] + later;
  }

  lemma NothingCut(order: Option<Order>, data: seq<Byte>, lost: seq<Byte>)
    requires lost <= data
    ensures Explains(order, data, [lost], [], data[|lost|..])
  {
  }

  lemma BlockCut(order: Option<Order>, data: seq<Byte>, lost: seq<Byte>, b: Block, gaps: seq<seq<Byte>>, bs: seq<Block>, tail: seq<Byte>)
    requires lost <= data && b <= data[|lost|..]
    requires var before := if lost == [] then order else None;
             && |b| >= 12 && OrderAt(before, b).Some? && WellFormed(OrderAt(before, b).value, b)
             && Explains(OrderAt(before, b), data[|lost|..][|b|..], gaps, bs, tail)
    ensures Explains(order, data, [lost] + gaps, [b] + bs, tail)
  {
    assert ([lost] + gaps)[1..] == gaps && ([b] + bs)[1..] == bs;
  }

  lemma TrimIsSuffix(s: seq<Byte>)
    ensures |Trim(s)| <= |s| && s[|s| - |Trim(s)|..] == Trim(s)
  {
  }

  /** How one iteration relates to the (trimmed) buffer. */
  lemma StepShape(s: State)
    ensures var t := if |s.buf| >= 12 && s.order.None? then s.(buf := Trim(s.buf)) else s;
            match Step(s)
            case Wait(u) => u.buf == t.buf
            case Skip(u) => t.buf != [] && u.buf == t.buf[1..] && u.order.None? && u.header == s.header && u.complete == s.complete
            case Emit(b, u) =>
              && 12 <= |b| && b <= t.buf && u.buf == t.buf[|b|..]
              && u.order == OrderAt(s.order, b) && u.order.Some? && WellFormed(u.order.value, b)
              && (s.order.None? ==> IsSection(b))
              && u == Absorb(s.(buf := u.buf, order := u.order), u.order.value, b)
  {
    TrimShape(s.buf);
    var t := if |s.buf| >= 12 && s.order.None? then s.(buf := Trim(s.buf)) else s;
    if Step(s).Emit? {
      CutShape(t);
    }
  }

  lemma CutShape(t: State)
    requires |t.buf| >= 12 && Cut(t).Emit?
    ensures var b, u := Cut(t).block, Cut(t).next;
            && 12 <= |b| && b <= t.buf && u.buf == t.buf[|b|..]
            && u.order == OrderAt(t.order, b) && u.order.Some? && WellFormed(u.order.value, b)
            && (IsSection(t.buf) <==> IsSection(b))
            && u == Absorb(t.(buf := u.buf, order := u.order), u.order.value, b)
  {
    hide U32;
    var b := Cut(t).block;
    assert b[..4] == t.buf[..4] && b[8..12] == t.buf[8..12] && b[4..8] == t.buf[4..8];
    assert b[|b| - 4..] == t.buf[|b| - 4..|b|];
  }

  /** Bytes dropped in front only lengthen the first gap. */
  lemma GapGrows(order: Option<Order>, data: seq<Byte>, lost: seq<Byte>, gaps: seq<seq<Byte>>, bs: seq<Block>, tail: seq<Byte>)
    requires lost != [] && lost <= data
    requires Explains(None, data[|lost|..], gaps, bs, tail)
    ensures gaps != []
    ensures Explains(order, data, [lost + gaps[0]] + gaps[1..], bs, tail)
  {
    var more := [lost + gaps[0]] + gaps[1..];
    assert more[1..] == gaps[1..];
    assert data[|more[0]|..] == data[|lost|..][|gaps[0]|..];
    assert more[0] <= data;
  }

  // ---------------------------------------------------------------- the replayed header

  /** The blocks a late subscriber is sent first, and whether a packet has closed the list. */
  datatype Head = Head(kept: seq<Block>, complete: bool)

  const NO_HEAD := Head([], false)

  function Keep(h: Head, order: Order, b: Block): Head
    requires |b| >= 12
  {
    var g := if IsSection(b) then NO_HEAD else h;
    if g.complete then g
    else if IsPacketType(U32(order, b[..4])) then g.(complete := true)
    else g.(kept := g.kept + [b])
  }

  /** The head after `bs`: the latest section's blocks before its first packet. */
  function Replay(order: Option<Order>, h: Head, bs: seq<Block>): Head
    requires Blocks(order, bs)
    decreases |bs|
  {
    if bs == [] then h
    else
      var o := OrderAt(order, bs[0]);
      Replay(o, Keep(h, o.value, bs[0]), bs[1..])
  }

  lemma {:induction false} BlocksAppend(order: Option<Order>, a: seq<Block>, b: seq<Block>)
    requires Blocks(order, a)
    ensures Blocks(order, a + b) <==> Blocks(LastOrder(order, a), b)
    ensures Blocks(order, a + b) ==> LastOrder(order, a + b) == LastOrder(LastOrder(order, a), b)
    ensures Blocks(order, a + b) ==> forall h :: Replay(order, h, a + b) == Replay(LastOrder(order, a), Replay(order, h, a), b)
    decreases |a|
  {
    if a == [] {
      assert a + b == b;
    } else {
      assert (a + b)[0] == a[0] && (a + b)[1..] == a[1..] + b;
      BlocksAppend(OrderAt(order, a[0]), a[1..], b);
    }
  }

  /** The framer's order is the section's unless it is lost, or a new section header is at the front. */
  predicate InSection(s: State, order: Option<Order>) {
    s.order.None? || s.order == order || (|s.buf| >= 12 && IsSection(s.buf))
  }

  predicate Holds(s: State, h: Head) { s.header == Flat(h.kept) && s.complete == h.complete }

  /** On any input, the emitted blocks form sections and the stored header is exactly what Replay says of them. */
  lemma {:induction false} HeaderIsReplay(s: State, order: Option<Order>, h: Head)
    requires InSection(s, order) && Holds(s, h)
    ensures Blocks(order, Run(s).0)
    ensures InSection(Run(s).1, LastOrder(order, Run(s).0))
    ensures Holds(Run(s).1, Replay(order, h, Run(s).0))
    decreases |s.buf|
  {
    hide Cut, U32, Find, Step;
    StepShape(s);
    StepOrder(s);
    match Step(s)
    case Wait(u) =>
    case Skip(u) => HeaderIsReplay(u, order, h);
    case Emit(b, u) =>
      assert OrderAt(s.order, b) == OrderAt(order, b);
      KeepHolds(s.(buf := u.buf, order := u.order), h, u.order.value, b);
      HeaderIsReplay(u, u.order, Keep(h, u.order.value, b));
      assert Run(s).0[1..] == Run(u).0;
  }

  /** What a waiting framer may have done to its order. */
  lemma StepOrder(s: State)
    ensures match Step(s)
            case Wait(u) => u.header == s.header && u.complete == s.complete && (u.order == s.order || (|u.buf| >= 12 && IsSection(u.buf)))
            case Skip(u) => true
            case Emit(b, u) => s.order.Some? && IsSection(s.buf) ==> IsSection(b)
  {
    if Step(s).Emit? {
      StepShape(s);
      assert s.order.Some? ==> Step(s).block[..4] == s.buf[..4];
    }
  }

  lemma KeepHolds(s: State, h: Head, order: Order, b: Block)
    requires Holds(s, h) && |b| >= 12
    ensures Holds(Absorb(s, order, b), Keep(h, order, b))
  {
    hide U32;
    var g := if IsSection(b) then NO_HEAD else h;
    FlatAppend(g.kept, [b]);
    assert Flat([b]) == b + Flat([]) == b;
  }

  /** Undamaged sections, after any junk without an earlier section magic, come back block for block. */
  lemma {:induction false} Lossless(junk: seq<Byte>, bs: seq<Block>)
    requires Blocks(None, bs) && bs != []
    requires Find(junk + Flat(bs)) == |junk|
    ensures Feed(INITIAL, junk + Flat(bs)) == (bs, State([], LastOrder(None, bs), Flat(Replay(None, NO_HEAD, bs).kept), Replay(None, NO_HEAD, bs).complete))
  {
    var s := INITIAL.(buf := junk + Flat(bs));
    assert INITIAL.buf + (junk + Flat(bs)) == s.buf;
    assert Trim(s.buf) == Flat(bs);
    JunkIsInert(s);
    LosslessFrom(INITIAL, NO_HEAD, bs);
  }

  lemma {:induction false} LosslessFrom(s: State, h: Head, bs: seq<Block>)
    requires s.buf == [] && Blocks(s.order, bs) && Holds(s, h)
    ensures Run(s.(buf := Flat(bs))) == (bs, State([], LastOrder(s.order, bs), Flat(Replay(s.order, h, bs).kept), Replay(s.order, h, bs).complete))
    decreases |bs|
  {
    hide Step, Keep, U32, Bom;
    if bs == [] {
      NothingToCut(s);
    } else {
      var b := bs[0];
      var o := OrderAt(s.order, b);
      CutWhole(s, b, Flat(bs[1..]));
      KeepHolds(s.(order := o), h, o.value, b);
      LosslessFrom(Absorb(s.(order := o), o.value, b), Keep(h, o.value, b), bs[1..]);
      assert [b] + bs[1..] == bs;
    }
  }

  lemma NothingToCut(s: State)
    requires s.buf == []
    ensures Run(s) == ([], s)
  {
  }

  /** A whole block at the front of the buffer is cut as it stands. */
  lemma CutWhole(s: State, b: Block, more: seq<Byte>)
    requires s.buf == [] && |b| >= 12 && OrderAt(s.order, b).Some? && WellFormed(OrderAt(s.order, b).value, b)
    ensures var o := OrderAt(s.order, b);
            Step(s.(buf := b + more)) == Emit(b, Absorb(s.(order := o), o.value, b).(buf := more))
  {
    hide U32;
    var x := b + more;
    assert x[..4] == b[..4] && x[4..8] == b[4..8] && x[8..12] == b[8..12];
    assert x[|b| - 4..|b|] == b[|b| - 4..] && x[..|b|] == b && x[|b|..] == more;
    TrimShape(x);
  }

  // ---------------------------------------------------------------- a whole capture

  /** `log` is every block framed since the capture's state was cleared. */
  predicate Framed(s: State, log: seq<Block>) {
    && Blocks(None, log)
    && InSection(s, LastOrder(None, log))
    && Holds(s, Replay(None, NO_HEAD, log))
  }

  lemma FeedExtendsLog(s: State, log: seq<Block>, chunk: seq<Byte>)
    requires Framed(s, log)
    ensures Framed(Feed(s, chunk).1, log + Feed(s, chunk).0)
  {
    hide Run;
    var t := Plus(s, chunk);
    if |s.buf| >= 12 && IsSection(s.buf) {
      assert t.buf[..4] == s.buf[..4];
    }
    HeaderIsReplay(t, LastOrder(None, log), Replay(None, NO_HEAD, log));
    BlocksAppend(None, log, Feed(s, chunk).0);
  }
}
