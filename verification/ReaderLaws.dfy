/**
 A subscriber that joins late decodes exactly what a reader of the whole stream
 decodes from there on, if and only if no interface was described after the
 first packet of the section it joined.
 */
module ReaderLaws {
  import opened Bytes
  import opened Pcapng
  import opened Reader
  import opened FramerLaws

  // ---------------------------------------------------------------- message boundaries

  function Plus(s: State, more: seq<Byte>): State { s.(buf := s.buf + more) }

  lemma StepPlus(s: State, more: seq<Byte>)
    ensures match Step(s)
            case Wait(t) => Run(Plus(s, more)) == Run(Plus(t, more))
            case Skip(t) => Step(Plus(s, more)) == Skip(Plus(t, more))
            case Take(b, t) => Step(Plus(s, more)) == Take(b, Plus(t, more))
  {
    hide U32;
    var x := s.buf + more;
    if |s.buf| >= 12 {
      assert x[..4] == s.buf[..4] && x[8..12] == s.buf[8..12] && x[4..8] == s.buf[4..8] && x[1..] == s.buf[1..] + more;
      var total := U32(Marked(s), s.buf[4..8]);
      if 12 <= total <= |s.buf| {
        assert x[..total] == s.buf[..total] && x[total..] == s.buf[total..] + more;
      }
      if Step(s).Wait? {
        SameStep(Plus(s, more), Plus(Step(s).next, more));
      }
    }
  }

  lemma SameStep(s: State, t: State)
    requires Step(s) == Step(t)
    ensures Run(s) == Run(t)
  {
  }

  lemma StepShrinks(s: State)
    ensures !Step(s).Wait? ==> |Step(s).next.buf| < |s.buf|
    ensures Step(s).Take? ==> |Step(s).block| >= 12
  {
  }

  lemma HandlePlus(s: State, b: Block, more: seq<Byte>)
    requires |b| >= 12
    ensures Handle(Plus(s, more), b) == (Plus(Handle(s, b).0, more), Handle(s, b).1)
    ensures Handle(s, b).0.buf == s.buf
  {
  }

  lemma {:induction false} RunPlus(s: State, more: seq<Byte>)
    ensures Run(Plus(s, more)) == (Run(s).0 + Feed(Run(s).1, more).0, Feed(Run(s).1, more).1)
    decreases |s.buf|
  {
    hide Step, Handle;
    StepShrinks(s);
    StepPlus(s, more);
    match Step(s)
    case Wait(t) => assert [] + Feed(t, more).0 == Feed(t, more).0;
    case Skip(t) => RunPlus(t, more);
    case Take(b, t) =>
      HandlePlus(t, b, more);
      var (u, ps) := Handle(t, b);
      RunPlus(u, more);
      assert ps + (Run(u).0 + Feed(Run(u).1, more).0) == ps + Run(u).0 + Feed(Run(u).1, more).0;
  }

  /** The reader decodes the same packets however its input is split into messages. */
  lemma {:induction false} MessageInvariance(s: State, messages: seq<seq<Byte>>)
    requires messages != []
    ensures FeedAll(s, messages) == Feed(s, Flat(messages))
    decreases |messages|
  {
    var head, rest := messages[0], messages[1..];
    var (ps, t) := Feed(s, head);
    if rest == [] {
      assert Flat(rest) == [] && Flat(messages) == head;
      assert ps + [] == ps;
    } else {
      RunPlus(Plus(s, head), Flat(rest));
      assert s.buf + head + Flat(rest) == s.buf + Flat(messages);
      MessageInvariance(t, rest);
    }
  }

  // ---------------------------------------------------------------- whole blocks

  /** The decoder's view of a list of whole blocks: each sets its order and is handled in turn. */
  function Decode(s: State, order: Option<Order>, bs: seq<Block>): (seq<Packet>, State)
    requires Blocks(order, bs)
    decreases |bs|
  {
    if bs == [] then ([], s)
    else
      var o := OrderAt(order, bs[0]);
      var (t, ps) := Handle(s.(order := o.value), bs[0]);
      var (qs, u) := Decode(t, o, bs[1..]);
      (ps + qs, u)
  }

  /** Fed the bytes of whole blocks, the reader finds exactly those blocks. */
  lemma {:induction false} ReadsBlocks(s: State, order: Option<Order>, bs: seq<Block>)
    requires s.buf == [] && Blocks(order, bs) && (order.Some? ==> s.order == order.value)
    ensures Feed(s, Flat(bs)) == Decode(s, order, bs)
    decreases |bs|
  {
    hide Handle, U32;
    assert s.buf + Flat(bs) == Flat(bs);
    if bs == [] {
      assert Step(s.(buf := [])).Wait?;
    } else {
      var b, more := bs[0], Flat(bs[1..]);
      var o := OrderAt(order, b);
      TakesWhole(s, order, b, more);
      var (t, ps) := Handle(s.(order := o.value), b);
      HandlePlus(s.(order := o.value), b, more);
      HandleOrder(s.(order := o.value), b);
      assert [] + more == more;
      ReadsBlocks(t, o, bs[1..]);
      assert Plus(t, more) == t.(buf := t.buf + more);
    }
  }

  lemma HandleOrder(s: State, b: Block)
    requires |b| >= 12
    ensures Handle(s, b).0.order == s.order
  {
  }

  lemma TakesWhole(s: State, order: Option<Order>, b: Block, more: seq<Byte>)
    requires s.buf == [] && (order.Some? ==> s.order == order.value)
    requires |b| >= 12 && OrderAt(order, b).Some? && WellFormed(OrderAt(order, b).value, b)
    ensures Step(s.(buf := b + more)) == Take(b, s.(order := OrderAt(order, b).value, buf := more))
  {
    hide U32;
    var x := b + more;
    assert x[..4] == b[..4] && x[4..8] == b[4..8] && x[8..12] == b[8..12];
    assert x[..|b|] == b && x[|b|..] == more;
  }

  // ---------------------------------------------------------------- joining late

  /** The section header's type reads the same in both byte orders. */
  lemma SectionKind(order: Order, b: Block)
    requires |b| >= 12
    ensures IsSection(b) <==> U32(order, b[..4]) == 0x0a0d0d0a
  {
    if U32(order, b[..4]) == 0x0a0d0d0a {
      assert b[..4] == [b[0], b[1], b[2], b[3]];
    }
  }

  /** Interfaces of the current section described only after its first packet. */
  function Missed(order: Option<Order>, h: Head, missed: nat, bs: seq<Block>): nat
    requires Blocks(order, bs)
    decreases |bs|
  {
    if bs == [] then missed
    else
      var o := OrderAt(order, bs[0]);
      Missed(o, Keep(h, o.value, bs[0]), MissedAfter(h, missed, o.value, bs[0]), bs[1..])
  }

  function MissedAfter(h: Head, missed: nat, order: Order, b: Block): nat
    requires |b| >= 12
  {
    if IsSection(b) then 0 else if h.complete && U32(order, b[..4]) == 1 then missed + 1 else missed
  }

  /** Interfaces are numbered without holes. */
  ghost predicate Numbered(s: State) { forall i: nat :: i in s.links <==> i < s.next }

  /** A reader `s` of everything so far, against one that was replayed the kept head. */
  ghost predicate Joins(order: Option<Order>, h: Head, missed: nat, s: State) {
    && Blocks(None, h.kept) && LastOrder(None, h.kept) == order
    && (h.complete || missed > 0 ==> h.kept != [])
    && (!h.complete ==> missed == 0)
    && var (ps, late) := Decode(INITIAL, None, h.kept);
    && ps == [] && late.buf == s.buf == []
    && (order.Some? ==> s.order == order.value && late.order == order.value)
    && (order.None? ==> s == INITIAL == late)
    && Numbered(s) && Numbered(late)
    && s.next == late.next + missed
    && forall i: nat :: i < late.next ==> s.links[i] == late.links[i]
  }

  lemma {:induction false} DecodeAppend(s: State, order: Option<Order>, a: seq<Block>, b: seq<Block>)
    requires Blocks(order, a) && Blocks(LastOrder(order, a), b)
    ensures Blocks(order, a + b)
    ensures Decode(s, order, a + b) ==
            (Decode(s, order, a).0 + Decode(Decode(s, order, a).1, LastOrder(order, a), b).0,
             Decode(Decode(s, order, a).1, LastOrder(order, a), b).1)
    decreases |a|
  {
    hide Handle, U32;
    BlocksAppend(order, a, b);
    if a == [] {
      assert a + b == b;
      assert [] + Decode(s, order, b).0 == Decode(s, order, b).0;
    } else {
      assert (a + b)[0] == a[0] && (a + b)[1..] == a[1..] + b;
      var o := OrderAt(order, a[0]);
      var (t, ps) := Handle(s.(order := o.value), a[0]);
      DecodeAppend(t, o, a[1..], b);
      var (qs, u) := Decode(t, o, a[1..]);
      assert ps + (qs + Decode(u, LastOrder(order, a), b).0) == ps + qs + Decode(u, LastOrder(order, a), b).0;
    }
  }

  function Next(s: State, order: Option<Order>, b: Block): (State, seq<Packet>)
    requires |b| >= 12 && OrderAt(order, b).Some?
  {
    Handle(s.(order := OrderAt(order, b).value), b)
  }

  lemma DecodeOne(s: State, order: Option<Order>, b: Block)
    requires Blocks(order, [b])
    ensures Decode(s, order, [b]) == (Next(s, order, b).1, Next(s, order, b).0)
  {
    hide Handle, U32;
    var (t, ps) := Next(s, order, b);
    assert [b][1..] == [];
    assert ps + Decode(t, OrderAt(order, b), []).0 == ps;
  }

  lemma JoinsStep(order: Option<Order>, h: Head, missed: nat, s: State, b: Block)
    requires Joins(order, h, missed, s) && Blocks(order, [b])
    ensures var o := OrderAt(order, b).value;
            Joins(Some(o), Keep(h, o, b), MissedAfter(h, missed, o, b), Next(s, order, b).0)
  {
    hide U32;
    var o := OrderAt(order, b).value;
    SectionKind(o, b);
    if IsSection(b) {
      JoinsSection(order, h, missed, s, b);
    } else if Keep(h, o, b).kept != h.kept {
      JoinsKept(order, h, missed, s, b);
    }
  }

  lemma JoinsSection(order: Option<Order>, h: Head, missed: nat, s: State, b: Block)
    requires Joins(order, h, missed, s) && Blocks(order, [b]) && IsSection(b)
    ensures var o := OrderAt(order, b).value;
            Joins(Some(o), Keep(h, o, b), MissedAfter(h, missed, o, b), Next(s, order, b).0)
  {
    hide U32;
    var o := OrderAt(order, b).value;
    SectionKind(o, b);
    assert Keep(h, o, b).kept == [b];
    assert Blocks(None, [b]);
    DecodeOne(INITIAL, None, b);
    assert LastOrder(None, [b]) == Some(o);
  }

  lemma JoinsKept(order: Option<Order>, h: Head, missed: nat, s: State, b: Block)
    requires Joins(order, h, missed, s) && Blocks(order, [b]) && !IsSection(b) && Keep(h, OrderAt(order, b).value, b).kept != h.kept
    ensures var o := OrderAt(order, b).value;
            Joins(Some(o), Keep(h, o, b), MissedAfter(h, missed, o, b), Next(s, order, b).0)
  {
    hide U32;
    var o := OrderAt(order, b).value;
    SectionKind(o, b);
    DecodeAppend(INITIAL, None, h.kept, [b]);
    BlocksAppend(None, h.kept, [b]);
    assert LastOrder(order, [b]) == Some(o);
    DecodeOne(Decode(INITIAL, None, h.kept).1, order, b);
  }

  lemma {:induction false} JoinsAll(order: Option<Order>, h: Head, missed: nat, s: State, bs: seq<Block>)
    requires Joins(order, h, missed, s) && Blocks(order, bs)
    ensures Joins(LastOrder(order, bs), Replay(order, h, bs), Missed(order, h, missed, bs), Decode(s, order, bs).1)
    decreases |bs|
  {
    hide Joins, Handle, U32;
    if bs != [] {
      JoinsStep(order, h, missed, s, bs[0]);
      var o := OrderAt(order, bs[0]);
      JoinsAll(o, Keep(h, o.value, bs[0]), MissedAfter(h, missed, o.value, bs[0]), Next(s, order, bs[0]).0, bs[1..]);
    }
  }

  /** The bytes a subscriber joining after `pre` is replayed. */
  function Header(pre: seq<Block>): seq<Byte>
    requires Blocks(None, pre)
  {
    Flat(Replay(None, NO_HEAD, pre).kept)
  }

  /** The packets of `post` for a reader that has had all of `pre`. */
  function FullView(pre: seq<Block>, post: seq<Block>): seq<Packet>
    requires Blocks(None, pre)
  {
    FeedAll(Feed(INITIAL, Flat(pre)).1, post).0
  }

  /** The packets a subscriber decodes from the replayed header and then `post`. */
  function LateView(pre: seq<Block>, post: seq<Block>): seq<Packet>
    requires Blocks(None, pre)
  {
    FeedAll(INITIAL, [Header(pre)] + post).0
  }

  /** Two readers whose tables agree decode alike. */
  lemma {:induction false} SameTables(s: State, t: State, order: Option<Order>, bs: seq<Block>)
    requires Blocks(order, bs) && s.links == t.links && s.next == t.next
    ensures Decode(s, order, bs).0 == Decode(t, order, bs).0
    decreases |bs|
  {
    hide U32;
    if bs != [] {
      SameTables(Next(s, order, bs[0]).0, Next(t, order, bs[0]).0, OrderAt(order, bs[0]), bs[1..]);
    }
  }

  /** Messages that are whole blocks decode as those blocks. */
  lemma FeedsBlocks(s: State, order: Option<Order>, bs: seq<Block>)
    requires s.buf == [] && Blocks(order, bs) && (order.Some? ==> s.order == order.value)
    ensures FeedAll(s, bs).0 == Decode(s, order, bs).0
  {
    hide Run, Handle, U32;
    if bs != [] {
      MessageInvariance(s, bs);
      ReadsBlocks(s, order, bs);
    }
  }

  /** Both views, as decodings of `post` from the two readers' tables. */
  lemma Views(pre: seq<Block>, post: seq<Block>) returns (full: State, late: State)
    requires Blocks(None, pre) && Blocks(LastOrder(None, pre), post)
    ensures full == Decode(INITIAL, None, pre).1
    ensures Joins(LastOrder(None, pre), Replay(None, NO_HEAD, pre), Missed(None, NO_HEAD, 0, pre), full)
    ensures late == Decode(INITIAL, None, Replay(None, NO_HEAD, pre).kept).1
    ensures FullView(pre, post) == Decode(full, LastOrder(None, pre), post).0
    ensures LateView(pre, post) == Decode(late, LastOrder(None, pre), post).0
  {
    hide Run, Handle, U32;
    var order, head := LastOrder(None, pre), Replay(None, NO_HEAD, pre);
    JoinsAll(None, NO_HEAD, 0, INITIAL, pre);
    full, late := Decode(INITIAL, None, pre).1, Decode(INITIAL, None, head.kept).1;
    ReadsBlocks(INITIAL, None, pre);
    ReadsBlocks(INITIAL, None, head.kept);
    FeedsBlocks(full, order, post);
    FeedsBlocks(late, order, post);
    assert ([Header(pre)] + post)[1..] == post;
    assert [] + FeedAll(late, post).0 == FeedAll(late, post).0;
  }

  /** With every interface described before its section's first packet, joining late loses no packet and changes none. */
  lemma LateJoin(pre: seq<Block>, post: seq<Block>)
    requires Blocks(None, pre) && Blocks(LastOrder(None, pre), post)
    requires Missed(None, NO_HEAD, 0, pre) == 0
    ensures LateView(pre, post) == FullView(pre, post)
  {
    hide Run, Handle, U32, Decode, FullView, LateView;
    var full, late := Views(pre, post);
    assert full.links == late.links;
    SameTables(full, late, LastOrder(None, pre), post);
  }

  // ---------------------------------------------------------------- and only then

  function Half(order: Order, n: Byte): (s: seq<Byte>)
    ensures |s| == 2 && U16(order, s) == n
  {
    match order case Little => [n, 0] case Big => [0, n]
  }

  function InterfaceBlock(order: Order, link: Byte): Block {
    Word(order, 1) + Word(order, 20) + Half(order, link) + [0, 0] + Word(order, 0) + Word(order, 20)
  }

  function EmptyPacketBlock(order: Order, iface: nat): Block
    requires iface < 0x1_0000_0000
  {
    Word(order, 6) + Word(order, 32) + Word(order, iface) + Word(order, 0) + Word(order, 0) + Word(order, 0) + Word(order, 0) + Word(order, 32)
  }

  lemma InterfaceBlockIs(s: State, link: Byte)
    ensures var b := InterfaceBlock(s.order, link);
            && WellFormed(s.order, b) && !IsSection(b)
            && Handle(s, b) == (s.(links := s.links[s.next := link], next := s.next + 1), [])
  {
    var b := InterfaceBlock(s.order, link);
    hide U32, U16, Word, Half;
    assert b[8..10] == Half(s.order, link);
    assert b[..4] == Word(s.order, 1) && b[4..8] == Word(s.order, 20) && b[|b| - 4..] == Word(s.order, 20);
    SectionKind(s.order, b);
  }

  lemma EmptyPacketBlockIs(s: State, iface: nat)
    requires iface < 0x1_0000_0000
    ensures var b := EmptyPacketBlock(s.order, iface);
            && WellFormed(s.order, b) && !IsSection(b)
            && Handle(s, b) == (s, [Packet(if iface in s.links then s.links[iface] else UNKNOWN_LINK, [])])
  {
    var b := EmptyPacketBlock(s.order, iface);
    hide U32, Word;
    assert b[..4] == Word(s.order, 6) && b[4..8] == Word(s.order, 32) && b[8..12] == Word(s.order, iface);
    assert b[20..24] == Word(s.order, 0) && b[|b| - 4..] == Word(s.order, 32);
    SectionKind(s.order, b);
    assert b[28..28] == [];
  }

  /** Blocks that tell apart a late reader that missed an interface. */
  lemma LateJoinNeedsInterfacesFirst(pre: seq<Block>) returns (post: seq<Block>)
    requires Blocks(None, pre) && Missed(None, NO_HEAD, 0, pre) > 0
    requires |Replay(None, NO_HEAD, pre).kept| < 0x1_0000_0000
    ensures Blocks(LastOrder(None, pre), post)
    ensures LateView(pre, post) != FullView(pre, post)
  {
    hide Run, Handle, U32, FullView, LateView, WellFormed, InterfaceBlock, EmptyPacketBlock;
    var order, head := LastOrder(None, pre), Replay(None, NO_HEAD, pre);
    JoinsAll(None, NO_HEAD, 0, INITIAL, pre);
    var full, late := Decode(INITIAL, None, pre).1, Decode(INITIAL, None, head.kept).1;
    InterfacesAreBlocks(INITIAL, None, head.kept);
    var iface := late.next;
    var link: Byte := if full.links[iface] == 0 then 1 else 0;
    var o := full.order;
    post := [InterfaceBlock(o, link), EmptyPacketBlock(o, iface)];
    Probe(full, order, link, iface);
    Probe(late, order, link, iface);
    var f, l := Views(pre, post);
  }

  // ---------------------------------------------------------------- a capture that tells them apart

  const SECTION: Block := [0x0a, 0x0d, 0x0d, 0x0a, 28, 0, 0, 0, 0x4d, 0x3c, 0x2b, 0x1a, 1, 0, 0, 0,
                           255, 255, 255, 255, 255, 255, 255, 255, 28, 0, 0, 0]

  /** A section, an interface of link type 1, a packet on it, and then a second interface, of link type 105. */
  function TwoInterfaces(): seq<Block> {
    [SECTION, InterfaceBlock(Little, 1), EmptyPacketBlock(Little, 0), InterfaceBlock(Little, 105)]
  }

  lemma SectionIs(s: State)
    ensures WellFormed(Little, SECTION) && IsSection(SECTION) && Bom(SECTION) == Some(Little)
    ensures Handle(s.(order := Little), SECTION) == (s.(order := Little, links := map[], next := 0), [])
  {
    assert SECTION[..4] == MAGIC && SECTION[8..12] == LITTLE_BOM;
    assert SECTION[4..8] == [SECTION[4], SECTION[5], SECTION[6], SECTION[7]];
    assert SECTION[|SECTION| - 4..] == [SECTION[24], SECTION[25], SECTION[26], SECTION[27]];
  }

  /** What the later blocks of the capture are, to a reader and to the replay. */
  lemma LaterBlocksAre()
    ensures var a, p, b := InterfaceBlock(Little, 1), EmptyPacketBlock(Little, 0), InterfaceBlock(Little, 105);
            var s1, s2 := State([], Little, map[], 0), State([], Little, map[0 := 1], 1);
            && WellFormed(Little, a) && WellFormed(Little, p) && WellFormed(Little, b)
            && |a| >= 12 && |p| >= 12 && |b| >= 12 && !IsSection(a) && !IsSection(p) && !IsSection(b)
            && U32(Little, a[..4]) == 1 && U32(Little, p[..4]) == 6 && U32(Little, b[..4]) == 1
            && Handle(s1, a).0 == s2 && Handle(s2, p).0 == s2 && Handle(s2, b).0 == State([], Little, map[0 := 1, 1 := 105], 2)
  {
    hide U32, Handle, WellFormed, InterfaceBlock, EmptyPacketBlock;
    var s1, s2 := State([], Little, map[], 0), State([], Little, map[0 := 1], 1);
    InterfaceBlockIs(s1, 1);
    EmptyPacketBlockIs(s2, 0);
    InterfaceBlockIs(s2, 105);
    WellFormedLength(Little, InterfaceBlock(Little, 1));
    WellFormedLength(Little, EmptyPacketBlock(Little, 0));
    WellFormedLength(Little, InterfaceBlock(Little, 105));
    KindOf(1);
    assert s1.links[0 := 1] == map[0 := 1] && s2.links[1 := 105] == map[0 := 1, 1 := 105];
  }

  /** A section, and three blocks of it. */
  lemma FourBlocks(a: Block, p: Block, b: Block)
    requires |a| >= 12 && |p| >= 12 && |b| >= 12 && !IsSection(a) && !IsSection(p) && !IsSection(b)
    requires WellFormed(Little, a) && WellFormed(Little, p) && WellFormed(Little, b)
    requires U32(Little, a[..4]) == 1 && U32(Little, p[..4]) == 6 && U32(Little, b[..4]) == 1
    ensures Blocks(None, [SECTION, a, p, b]) && LastOrder(None, [SECTION, a, p, b]) == Some(Little)
    ensures Replay(None, NO_HEAD, [SECTION, a, p, b]).kept == [SECTION, a]
    ensures Missed(None, NO_HEAD, 0, [SECTION, a, p, b]) == 1
  {
    hide U32, WellFormed;
    SectionIs(INITIAL);
    SectionKind(Little, SECTION);
    var o, h1, h2 := Some(Little), Head([SECTION], false), Head([SECTION, a], false);
    var none: seq<Block> := [];
    assert [SECTION] + [a] == [SECTION, a];
    assert Keep(NO_HEAD, Little, SECTION) == h1 && Keep(h1, Little, a) == h2;
    assert [b][1..] == none;
    assert LastOrder(o, none) == o;
    assert Blocks(o, [b]) && LastOrder(o, [b]) == o && Missed(o, h2.(complete := true), 0, [b]) == 1 && Replay(o, h2.(complete := true), [b]).kept == h2.kept;
    assert [p, b][0] == p && [p, b][1..] == [b];
    assert Blocks(o, [p, b]) && LastOrder(o, [p, b]) == o && Missed(o, h2, 0, [p, b]) == 1 && Replay(o, h2, [p, b]).kept == h2.kept;
    assert [a, p, b][0] == a && [a, p, b][1..] == [p, b];
    assert Blocks(o, [a, p, b]) && LastOrder(o, [a, p, b]) == o && Missed(o, h1, 0, [a, p, b]) == 1 && Replay(o, h1, [a, p, b]).kept == h2.kept;
    assert [SECTION, a, p, b][0] == SECTION && [SECTION, a, p, b][1..] == [a, p, b];
  }

  /** A reader's table after a block, and then the rest. */
  lemma DecodesOn(s: State, order: Option<Order>, b: Block, rest: seq<Block>)
    requires Blocks(order, [b] + rest)
    ensures Blocks(OrderAt(order, b), rest)
    ensures Decode(s, order, [b] + rest).1 == Decode(Next(s, order, b).0, OrderAt(order, b), rest).1
  {
    hide Handle, U32, WellFormed;
    assert ([b] + rest)[0] == b && ([b] + rest)[1..] == rest;
  }

  /** How the capture is kept for replay and decoded. */
  lemma TwoInterfacesAre()
    ensures Blocks(None, TwoInterfaces()) && LastOrder(None, TwoInterfaces()) == Some(Little)
    ensures Missed(None, NO_HEAD, 0, TwoInterfaces()) == 1
    ensures Replay(None, NO_HEAD, TwoInterfaces()).kept == [SECTION, InterfaceBlock(Little, 1)]
    ensures Decode(INITIAL, None, TwoInterfaces()).1 == State([], Little, map[0 := 1, 1 := 105], 2)
    ensures Blocks(None, [SECTION, InterfaceBlock(Little, 1)])
    ensures Decode(INITIAL, None, [SECTION, InterfaceBlock(Little, 1)]).1 == State([], Little, map[0 := 1], 1)
  {
    hide U32, Handle, WellFormed, InterfaceBlock, EmptyPacketBlock, Decode, Replay, Missed, Blocks;
    var a, p, b := InterfaceBlock(Little, 1), EmptyPacketBlock(Little, 0), InterfaceBlock(Little, 105);
    LaterBlocksAre();
    FourBlocks(a, p, b);
    SectionIs(INITIAL);
    var s1, s2 := State([], Little, map[], 0), State([], Little, map[0 := 1], 1);
    assert INITIAL.(order := Little) == s1;
    var o := Some(Little);
    var none: seq<Block> := [];
    assert TwoInterfaces() == [SECTION] + [a, p, b] && [a, p, b] == [a] + [p, b] && [p, b] == [p] + [b] && [b] == [b] + none;
    DecodesOn(INITIAL, None, SECTION, [a, p, b]);
    DecodesOn(s1, o, a, [p, b]);
    DecodesOn(s2, o, p, [b]);
    DecodesOn(s2, o, b, none);
    assert [SECTION, a] == [SECTION] + [a] && [a] == [a] + none && TwoInterfaces() == [SECTION, a] + [p, b];
    BlocksPrefix(None, [SECTION, a], [p, b]);
    DecodesOn(INITIAL, None, SECTION, [a]);
    DecodesOn(s1, o, a, none);
    DecodesNone(s2, o);
    DecodesNone(State([], Little, map[0 := 1, 1 := 105], 2), o);
  }

  lemma DecodesNone(s: State, order: Option<Order>)
    ensures Decode(s, order, []).1 == s
  {
  }

  lemma KindOf(link: Byte)
    ensures U32(Little, InterfaceBlock(Little, link)[..4]) == 1 && U32(Little, InterfaceBlock(Little, 105)[..4]) == 1
    ensures U32(Little, EmptyPacketBlock(Little, 0)[..4]) == 6
  {
    hide U32;
    assert InterfaceBlock(Little, link)[..4] == Word(Little, 1) && InterfaceBlock(Little, 105)[..4] == Word(Little, 1);
    assert EmptyPacketBlock(Little, 0)[..4] == Word(Little, 6);
  }

  /** After that capture, a packet on the second interface has link type 105 for a full reader, and an unknown one for a late one. */
  lemma LateInterfaceLost()
    ensures Blocks(None, TwoInterfaces()) && Missed(None, NO_HEAD, 0, TwoInterfaces()) == 1
    ensures var post := [EmptyPacketBlock(Little, 1)];
            && Blocks(LastOrder(None, TwoInterfaces()), post)
            && FullView(TwoInterfaces(), post) == [Packet(105, [])] && LateView(TwoInterfaces(), post) == [Packet(UNKNOWN_LINK, [])]
  {
    hide U32, Handle, WellFormed, InterfaceBlock, EmptyPacketBlock, FullView, LateView, Run, TwoInterfaces, Decode, Replay;
    var pre, b := TwoInterfaces(), EmptyPacketBlock(Little, 1);
    TwoInterfacesAre();
    var full, late := State([], Little, map[0 := 1, 1 := 105], 2), State([], Little, map[0 := 1], 1);
    EmptyPacketBlockIs(full, 1);
    EmptyPacketBlockIs(late, 1);
    WellFormedLength(Little, b);
    var none: seq<Block> := [];
    assert [b][1..] == none;
    assert Blocks(Some(Little), [b]);
    DecodeOne(full, Some(Little), b);
    DecodeOne(late, Some(Little), b);
    var f, l := Views(pre, [b]);
  }

  /** Joining after `pre` is invisible, whatever follows, exactly when no interface was missed. */
  lemma LateJoinExactly(pre: seq<Block>)
    requires Blocks(None, pre) && |Replay(None, NO_HEAD, pre).kept| < 0x1_0000_0000
    ensures Missed(None, NO_HEAD, 0, pre) == 0 <==>
            forall post | Blocks(LastOrder(None, pre), post) :: LateView(pre, post) == FullView(pre, post)
  {
    hide LateView, FullView;
    if Missed(None, NO_HEAD, 0, pre) == 0 {
      forall post | Blocks(LastOrder(None, pre), post) {
        LateJoin(pre, post);
      }
    } else {
      var post := LateJoinNeedsInterfacesFirst(pre);
    }
  }

  lemma {:induction false} InterfacesAreBlocks(s: State, order: Option<Order>, bs: seq<Block>)
    requires Blocks(order, bs)
    ensures Decode(s, order, bs).1.next <= s.next + |bs|
    decreases |bs|
  {
    hide U32;
    if bs != [] {
      InterfacesAreBlocks(Next(s, order, bs[0]).0, OrderAt(order, bs[0]), bs[1..]);
    }
  }

  /** Describing one more interface, then one empty packet on `iface`. */
  lemma Probe(s: State, order: Option<Order>, link: Byte, iface: nat)
    requires order == Some(s.order) && iface < 0x1_0000_0000 && Numbered(s)
    ensures var post := [InterfaceBlock(s.order, link), EmptyPacketBlock(s.order, iface)];
            && Blocks(order, post)
            && Decode(s, order, post).0 ==
               [Packet(if iface == s.next then link else if iface < s.next then s.links[iface] else UNKNOWN_LINK, [])]
  {
    hide Handle, U32, WellFormed, InterfaceBlock, EmptyPacketBlock;
    var a, b := InterfaceBlock(s.order, link), EmptyPacketBlock(s.order, iface);
    InterfaceBlockIs(s, link);
    var t := s.(links := s.links[s.next := link], next := s.next + 1);
    EmptyPacketBlockIs(t, iface);
    WellFormedLength(s.order, a);
    WellFormedLength(s.order, b);
    assert [a, b][1..] == [b];
    DecodeOne(t, order, b);
    assert s.(order := s.order) == s;
  }

  lemma WellFormedLength(order: Order, b: Block)
    requires WellFormed(order, b)
    ensures |b| >= 12
  {
  }

  // ---------------------------------------------------------------- degenerate inputs

  lemma {:induction false} BlocksPrefix(order: Option<Order>, a: seq<Block>, b: seq<Block>)
    requires Blocks(order, a + b)
    ensures Blocks(order, a)
    decreases |a|
  {
    hide WellFormed;
    if a != [] {
      assert (a + b)[0] == a[0] && (a + b)[1..] == a[1..] + b;
      BlocksPrefix(OrderAt(order, a[0]), a[1..], b);
    }
  }

  /** An empty message changes nothing. */
  lemma EmptyFirst(later: seq<seq<Byte>>)
    ensures FeedAll(INITIAL, [[]] + later).0 == FeedAll(INITIAL, later).0
  {
    assert ([[]] + later)[1..] == later;
    assert Feed(INITIAL, []) == ([], INITIAL) by {
      assert INITIAL.buf + [] == INITIAL.buf;
    }
    assert [] + FeedAll(INITIAL, later).0 == FeedAll(INITIAL, later).0;
  }

  lemma NothingFed(pre: seq<Block>)
    requires Blocks(None, pre)
    ensures FeedAll(INITIAL, []).0 == [] && FullView(pre, []) == []
  {
  }
}
