/** From a capture as it is written (pcapng, General Block Structure), through framer and reader, to its packets. */
module CaptureLaws {
  import opened Bytes
  import opened Pcapng
  import Framer
  import opened FramerLaws
  import opened Reader
  import opened ReaderLaws

  // ---------------------------------------------------------------- as written

  /** An interface description, a captured packet, or a block of any other kind. */
  datatype Piece =
    | Describes(link: nat, rest: seq<Byte>)
    | Captures(iface: nat, stamp: seq<Byte>, original: nat, data: seq<Byte>, extra: seq<Byte>)
    | Others(kind: nat, body: seq<Byte>)

  datatype Section = Section(order: Order, rest: seq<Byte>, pieces: seq<Piece>)

  /** The block that a writer makes of a kind and a body. */
  function General(order: Order, kind: nat, body: seq<Byte>): Block
    requires kind < 0x1_0000_0000 && |body| < 0x1000_0000
  {
    Word(order, kind) + Word(order, |body| + 12) + body + Word(order, |body| + 12)
  }

  function Short(order: Order, n: nat): (s: seq<Byte>)
    requires n < 0x1_0000
    ensures |s| == 2 && U16(order, s) == n
  {
    match order case Little => [n % 0x100, n / 0x100] case Big => [n / 0x100, n % 0x100]
  }

  /** The fields fit, and the body is padded to whole words. */
  predicate Writable(p: Piece) {
    match p
    case Describes(link, rest) => link < 0x1_0000 && 6 <= |rest| < 0x100_0000 && |rest| % 4 == 2
    case Captures(iface, stamp, original, data, extra) =>
      iface < 0x1_0000_0000 && |stamp| == 8 && original < 0x1_0000_0000 && |data| + |extra| < 0x100_0000 && (|data| + |extra|) % 4 == 0
    case Others(kind, body) => kind < 0x1_0000_0000 && kind !in {1, 6, 0x0a0d0d0a} && |body| < 0x100_0000 && |body| % 4 == 0
  }

  function Body(order: Order, p: Piece): seq<Byte>
    requires Writable(p)
  {
    match p
    case Describes(link, rest) => Short(order, link) + rest
    case Captures(iface, stamp, original, data, extra) => Word(order, iface) + stamp + Word(order, |data|) + Word(order, original) + data + extra
    case Others(_, body) => body
  }

  function BlockOf(order: Order, p: Piece): Block
    requires Writable(p)
  {
    General(order, match p case Describes(_, _) => 1 case Captures(_, _, _, _, _) => 6 case Others(kind, _) => kind, Body(order, p))
  }

  predicate WritableSection(s: Section) { |s.rest| < 0x100_0000 && |s.rest| % 4 == 0 && forall i :: 0 <= i < |s.pieces| ==> Writable(s.pieces[i]) }

  function SectionBlock(order: Order, rest: seq<Byte>): Block
    requires |rest| < 0x100_0000
  {
    MAGIC + Word(order, |rest| + 16) + (match order case Little => LITTLE_BOM case Big => BIG_BOM) + rest + Word(order, |rest| + 16)
  }

  function Pieces(order: Order, ps: seq<Piece>): (bs: seq<Block>)
    requires forall i :: 0 <= i < |ps| ==> Writable(ps[i])
  {
    if ps == [] then [] else [BlockOf(order, ps[0])] + Pieces(order, ps[1..])
  }

  function Written(ss: seq<Section>): seq<Block>
    requires forall i :: 0 <= i < |ss| ==> WritableSection(ss[i])
  {
    if ss == [] then []
    else
      assert WritableSection(ss[0]);
      [SectionBlock(ss[0].order, ss[0].rest)] + Pieces(ss[0].order, ss[0].pieces) + Written(ss[1..])
  }

  /** What the packets of a section are, given the link types of its interfaces so far; 127 stands for an unknown one. */
  function Meant(links: seq<nat>, ps: seq<Piece>): seq<Packet>
    decreases |ps|
  {
    if ps == [] then []
    else
      match ps[0]
      case Describes(link, _) => Meant(links + [link], ps[1..])
      case Captures(iface, _, _, data, _) => [Packet(if iface < |links| then links[iface] else 127, data)] + Meant(links, ps[1..])
      case Others(_, _) => Meant(links, ps[1..])
  }

  function AllMeant(ss: seq<Section>): seq<Packet> { if ss == [] then [] else Meant([], ss[0].pieces) + AllMeant(ss[1..]) }

  // ---------------------------------------------------------------- one block

  lemma GeneralIs(order: Order, kind: nat, body: seq<Byte>)
    requires kind < 0x1_0000_0000 && |body| < 0x1000_0000 && |body| % 4 == 0 && kind != 0x0a0d0d0a
    ensures var b := General(order, kind, body);
            && WellFormed(order, b) && !IsSection(b) && |b| == |body| + 12 && b[8..|b| - 4] == body
            && b[..4] == Word(order, kind) && U32(order, b[..4]) == kind
  {
    hide U32, Word;
    var b := General(order, kind, body);
    assert b[..4] == Word(order, kind) && b[4..8] == Word(order, |body| + 12) && b[|b| - 4..] == Word(order, |body| + 12);
    SectionKind(order, b);
  }

  /** The reader's table holds exactly these link types, in order. */
  ghost predicate Knows(s: State, links: seq<nat>) {
    s.next == |links| && forall i: nat :: (i in s.links <==> i < |links|) && (i < |links| ==> s.links[i] == links[i])
  }

  lemma DescribesIs(s: State, links: seq<nat>, p: Piece)
    requires p.Describes? && Writable(p) && Knows(s, links)
    ensures var b := BlockOf(s.order, p);
            WellFormed(s.order, b) && !IsSection(b) && |b| >= 12 && Knows(Handle(s, b).0, links + [p.link]) && Handle(s, b).1 == []
  {
    hide U32, U16, Word, Short;
    var b := BlockOf(s.order, p);
    GeneralIs(s.order, 1, Body(s.order, p));
    assert b[8..10] == b[8..|b| - 4][..2] == Short(s.order, p.link);
  }

  lemma CapturesIs(s: State, links: seq<nat>, p: Piece)
    requires p.Captures? && Writable(p) && Knows(s, links)
    ensures var b := BlockOf(s.order, p);
            && WellFormed(s.order, b) && !IsSection(b) && |b| >= 12
            && Handle(s, b) == (s, [Packet(if p.iface < |links| then links[p.iface] else 127, p.data)])
  {
    hide U32, Word;
    var b := BlockOf(s.order, p);
    var body := Body(s.order, p);
    GeneralIs(s.order, 6, body);
    var mid := b[8..|b| - 4];
    assert b[8..12] == mid[..4] == Word(s.order, p.iface);
    assert b[20..24] == mid[12..16] == Word(s.order, |p.data|);
    assert mid == body && body[20..20 + |p.data|] == p.data;
    assert b[28..28 + |p.data|] == mid[20..20 + |p.data|];
  }

  lemma OthersIs(s: State, p: Piece)
    requires p.Others? && Writable(p)
    ensures var b := BlockOf(s.order, p); WellFormed(s.order, b) && !IsSection(b) && |b| >= 12 && Handle(s, b) == (s, [])
  {
    hide U32, Word;
    GeneralIs(s.order, p.kind, p.body);
  }

  lemma SectionBlockIs(s: State, order: Order, rest: seq<Byte>)
    requires |rest| < 0x100_0000 && |rest| % 4 == 0
    ensures var b := SectionBlock(order, rest);
            && |b| >= 12 && WellFormed(order, b) && IsSection(b) && Bom(b) == Some(order)
            && Handle(s.(order := order), b) == (s.(order := order, links := map[], next := 0), [])
  {
    hide U32, Word;
    var b := SectionBlock(order, rest);
    var bom := match order case Little => LITTLE_BOM case Big => BIG_BOM;
    assert b[..4] == MAGIC && b[4..8] == Word(order, |rest| + 16) && b[8..12] == bom && b[|b| - 4..] == Word(order, |rest| + 16);
    assert LITTLE_BOM != BIG_BOM by { assert LITTLE_BOM[0] != BIG_BOM[0]; }
    SectionKind(order, b);
  }

  // ---------------------------------------------------------------- whole captures

  /** One whole block in front of others. */
  lemma DecodeFirst(s: State, order: Option<Order>, b: Block, rest: seq<Block>)
    requires |b| >= 12 && OrderAt(order, b).Some? && WellFormed(OrderAt(order, b).value, b) && Blocks(OrderAt(order, b), rest)
    ensures var o := OrderAt(order, b); var (u, packets) := Handle(s.(order := o.value), b);
            Blocks(order, [b] + rest) && Decode(s, order, [b] + rest).0 == packets + Decode(u, o, rest).0
  {
    hide Handle, U32, WellFormed;
    assert ([b] + rest)[0] == b && ([b] + rest)[1..] == rest;
  }

  /** The blocks of a section, read by a reader that knows its interfaces so far, and what comes after them. */
  ghost predicate Continues(s: State, links: seq<nat>, ps: seq<Piece>, bs: seq<Block>, more: seq<Block>) {
    Blocks(Some(s.order), more) && Blocks(Some(s.order), bs) &&
    exists t: State :: t.order == s.order && Decode(s, Some(s.order), bs).0 == Meant(links, ps) + Decode(t, Some(s.order), more).0
  }

  lemma ContinuesOn(s: State, links: seq<nat>, ps: seq<Piece>, b: Block, u: State, now: seq<nat>, bs: seq<Block>, more: seq<Block>)
    requires ps != [] && u.order == s.order && Continues(u, now, ps[1..], bs, more)
    requires |b| >= 12 && !IsSection(b) && WellFormed(s.order, b) && u == Handle(s, b).0 && Meant(links, ps) == Handle(s, b).1 + Meant(now, ps[1..])
    ensures Continues(s, links, ps, [b] + bs, more)
  {
    hide Handle, U32, WellFormed, Decode, Blocks, Meant;
    var o := Some(s.order);
    var t: State :| t.order == u.order && Decode(u, o, bs).0 == Meant(now, ps[1..]) + Decode(t, o, more).0;
    assert s.(order := s.order) == s;
    DecodeFirst(s, o, b, bs);
    assert Handle(s, b).1 + (Meant(now, ps[1..]) + Decode(t, o, more).0) == Meant(links, ps) + Decode(t, o, more).0;
  }

  lemma {:induction false} PiecesRead(s: State, links: seq<nat>, ps: seq<Piece>, more: seq<Block>)
    requires Knows(s, links) && (forall i :: 0 <= i < |ps| ==> Writable(ps[i])) && Blocks(Some(s.order), more)
    ensures Continues(s, links, ps, Pieces(s.order, ps) + more, more)
    decreases |ps|
  {
    hide Handle, WellFormed, BlockOf, Knows, Continues, Decode, Blocks, Meant, Writable;
    if ps == [] {
      NoPieces(s, links, more);
      assert Pieces(s.order, ps) + more == more;
    } else {
      var p := ps[0];
      var b := BlockOf(s.order, p);
      var u := Handled(s, links, p);
      var now := if p.Describes? then links + [p.link] else links;
      PiecesRead(u, now, ps[1..], more);
      MeantFirst(links, ps);
      ContinuesOn(s, links, ps, b, u, now, Pieces(s.order, ps[1..]) + more, more);
      assert Pieces(s.order, ps) + more == [b] + (Pieces(s.order, ps[1..]) + more);
    }
  }

  lemma NoPieces(s: State, links: seq<nat>, more: seq<Block>)
    requires Blocks(Some(s.order), more)
    ensures Continues(s, links, [], more, more)
  {
    hide Decode, Blocks;
    assert Meant(links, []) + Decode(s, Some(s.order), more).0 == Decode(s, Some(s.order), more).0;
  }

  lemma MeantFirst(links: seq<nat>, ps: seq<Piece>)
    requires ps != []
    ensures var now := if ps[0].Describes? then links + [ps[0].link] else links;
            Meant(links, ps) ==
            (if ps[0].Captures? then [Packet(if ps[0].iface < |links| then links[ps[0].iface] else 127, ps[0].data)] else []) + Meant(now, ps[1..])
  {
  }

  /** One block, whichever it is. */
  lemma Handled(s: State, links: seq<nat>, p: Piece) returns (u: State)
    requires Knows(s, links) && Writable(p)
    ensures var b := BlockOf(s.order, p);
            && WellFormed(s.order, b) && !IsSection(b) && |b| >= 12 && u == Handle(s, b).0 && u.order == s.order && u.buf == s.buf
            && Knows(u, if p.Describes? then links + [p.link] else links)
            && Handle(s, b).1 == if p.Captures? then [Packet(if p.iface < |links| then links[p.iface] else 127, p.data)] else []
  {
    hide WellFormed, BlockOf, Knows, Handle;
    var b := BlockOf(s.order, p);
    match p {
      case Describes(_, _) => DescribesIs(s, links, p);
      case Captures(_, _, _, _, _) => CapturesIs(s, links, p);
      case Others(_, _) => OthersIs(s, p);
    }
    u := Handle(s, b).0;
    HandleKeeps(s, b);
  }

  lemma HandleKeeps(s: State, b: Block)
    requires |b| >= 12
    ensures Handle(s, b).0.order == s.order && Handle(s, b).0.buf == s.buf
  {
    hide U32, U16;
  }

  lemma {:induction false} SectionsRead(s: State, order: Option<Order>, ss: seq<Section>)
    requires forall i :: 0 <= i < |ss| ==> WritableSection(ss[i])
    ensures Blocks(order, Written(ss)) && Decode(s, order, Written(ss)).0 == AllMeant(ss)
    decreases |ss|
  {
    hide Handle, WellFormed, SectionBlock, Decode, Blocks, Meant, Continues, Writable, Bom, Written, Pieces, Knows;
    if ss == [] {
      NothingRead(s, order);
    } else {
      WrittenFirst(ss);
      var x := ss[0];
      var b := SectionBlock(x.order, x.rest);
      FreshKnows(x.order, s);
      SectionBlockIs(s, x.order, x.rest);
      var u := s.(order := x.order, links := map[], next := 0);
      var o := Some(x.order);
      var more := Written(ss[1..]);
      SectionsRead(u, o, ss[1..]);
      PiecesRead(u, [], x.pieces, more);
      var t := ContinuesAt(u, [], x.pieces, Pieces(x.order, x.pieces) + more, more);
      SectionsRead(t, o, ss[1..]);
      DecodeFirst(s, order, b, Pieces(x.order, x.pieces) + more);
      assert [] + (Meant([], x.pieces) + AllMeant(ss[1..])) == AllMeant(ss);
    }
  }

  lemma NothingRead(s: State, order: Option<Order>)
    ensures Blocks(order, []) && Decode(s, order, []).0 == [] && Written([]) == []
  {
  }

  lemma WrittenFirst(ss: seq<Section>)
    requires ss != [] && forall i :: 0 <= i < |ss| ==> WritableSection(ss[i])
    ensures var x := ss[0];
            && WritableSection(x)
            && Written(ss) == [SectionBlock(x.order, x.rest)] + (Pieces(x.order, x.pieces) + Written(ss[1..]))
  {
    hide SectionBlock, Pieces, Writable;
    assert WritableSection(ss[0]);
  }

  lemma FreshKnows(order: Order, s: State)
    ensures Knows(s.(order := order, links := map[], next := 0), [])
  {
  }

  lemma ContinuesAt(s: State, links: seq<nat>, ps: seq<Piece>, bs: seq<Block>, more: seq<Block>) returns (t: State)
    requires Continues(s, links, ps, bs, more)
    ensures Blocks(Some(s.order), more) && Blocks(Some(s.order), bs) && t.order == s.order
    ensures Decode(s, Some(s.order), bs).0 == Meant(links, ps) + Decode(t, Some(s.order), more).0
  {
    hide Decode, Blocks, Meant;
    t :| t.order == s.order && Decode(s, Some(s.order), bs).0 == Meant(links, ps) + Decode(t, Some(s.order), more).0;
  }

  /**
   Any capture, of sections in either byte order, with any interfaces, link types, timestamps, paddings and options, and with
   blocks of any other kind in between, is cut by the framer into the blocks that were written, however its bytes are
   chunked, and read back by the reader as the packets that were captured, each with the link type of its interface.
   */
  lemma CaptureReadsBack(ss: seq<Section>, chunks: seq<seq<Byte>>, messages: seq<seq<Byte>>)
    requires ss != [] && (forall i :: 0 <= i < |ss| ==> WritableSection(ss[i])) && messages != []
    requires Flat(chunks) == Flat(Written(ss)) && Flat(messages) == Flat(Written(ss))
    ensures Framer.FeedAll(Framer.INITIAL, chunks).0 == Written(ss) && Reader.FeedAll(INITIAL, messages).0 == AllMeant(ss)
  {
    hide Decode, Reader.Feed, Framer.Feed, Framer.FeedAll, Reader.FeedAll, Replay, Blocks, Written;
    var bs := Written(ss);
    SectionsRead(INITIAL, None, ss);
    MessageInvariance(INITIAL, messages);
    ReadsBlocks(INITIAL, None, bs);
    WrittenStarts(ss);
    assert [] + Flat(bs) == Flat(bs);
    Lossless([], bs);
    ChunkInvariance(Framer.INITIAL, chunks);
  }

  lemma WrittenStarts(ss: seq<Section>)
    requires ss != [] && forall i :: 0 <= i < |ss| ==> WritableSection(ss[i])
    ensures Written(ss) != [] && Framer.Find([] + Flat(Written(ss))) == 0
  {
    hide SectionBlock, Framer.Find, Framer.MagicAt, Pieces, Written, Writable;
    WrittenFirst(ss);
    var b := SectionBlock(ss[0].order, ss[0].rest);
    SectionMagic(ss[0].order, ss[0].rest);
    var bs := Written(ss);
    assert bs[0] == b;
    assert [] + Flat(bs) == b + Flat(bs[1..]);
    StartsWithMagic(b, Flat(bs[1..]));
  }

  lemma SectionMagic(order: Order, rest: seq<Byte>)
    requires |rest| < 0x100_0000
    ensures |SectionBlock(order, rest)| >= 12 && SectionBlock(order, rest)[..4] == MAGIC
  {
  }

  lemma StartsWithMagic(b: Block, rest: seq<Byte>)
    requires |b| >= 12 && b[..4] == MAGIC
    ensures Framer.Find(b + rest) == 0
  {
    var s := b + rest;
    assert s[0..] == s && s[..4] == b[..4];
    assert Framer.MagicAt(s, 0);
    FindIs(s, 0);
  }

  // ---------------------------------------------------------------- what a late subscriber is sent first

  function Kind(p: Piece): nat { match p case Describes(_, _) => 1 case Captures(_, _, _, _, _) => 6 case Others(kind, _) => kind }

  /** The pieces before the first packet block, be it simple, enhanced or obsolete. */
  function Leading(ps: seq<Piece>): (r: seq<Piece>)
    ensures |r| <= |ps| && forall i :: 0 <= i < |r| ==> r[i] == ps[i]
  {
    if ps == [] || Kind(ps[0]) in {2, 3, 6} then [] else [ps[0]] + Leading(ps[1..])
  }

  function HeaderOf(x: Section): seq<Block>
    requires WritableSection(x)
  {
    [SectionBlock(x.order, x.rest)] + Pieces(x.order, Leading(x.pieces))
  }

  lemma BlockOfIs(order: Order, p: Piece)
    requires Writable(p)
    ensures var b := BlockOf(order, p); |b| >= 12 && WellFormed(order, b) && !IsSection(b) && U32(order, b[..4]) == Kind(p)
  {
    hide WellFormed, IsSection, U32;
    GeneralIs(order, Kind(p), Body(order, p));
  }

  lemma ReplayFirst(order: Option<Order>, h: Head, b: Block, rest: seq<Block>)
    requires |b| >= 12 && OrderAt(order, b).Some? && WellFormed(OrderAt(order, b).value, b) && Blocks(OrderAt(order, b), rest)
    ensures Blocks(order, [b] + rest) && Replay(order, h, [b] + rest) == Replay(OrderAt(order, b), Keep(h, OrderAt(order, b).value, b), rest)
  {
    hide WellFormed, U32;
    assert ([b] + rest)[0] == b && ([b] + rest)[1..] == rest;
  }

  lemma {:induction false} PiecesReplay(order: Order, h: Head, ps: seq<Piece>, more: seq<Block>)
    requires (forall i :: 0 <= i < |ps| ==> Writable(ps[i])) && Blocks(Some(order), more)
    ensures Blocks(Some(order), Pieces(order, ps) + more)
    ensures exists g: Head :: Replay(Some(order), h, Pieces(order, ps) + more) == Replay(Some(order), g, more) &&
              g.kept == if h.complete then h.kept else h.kept + Pieces(order, Leading(ps))
    decreases |ps|
  {
    hide WellFormed, BlockOf, Blocks, Replay, Writable, U32, IsSection;
    var o := Some(order);
    if ps == [] {
      assert Pieces(order, ps) + more == more;
      assert h.kept + Pieces(order, Leading(ps)) == h.kept;
    } else {
      var b := BlockOf(order, ps[0]);
      BlockOfIs(order, ps[0]);
      OrderStays(order, b);
      var k := Keep(h, order, b);
      PiecesReplay(order, k, ps[1..], more);
      var g: Head :| Replay(o, k, Pieces(order, ps[1..]) + more) == Replay(o, g, more) &&
        g.kept == if k.complete then k.kept else k.kept + Pieces(order, Leading(ps[1..]));
      ReplayFirst(o, h, b, Pieces(order, ps[1..]) + more);
      assert Pieces(order, ps) + more == [b] + (Pieces(order, ps[1..]) + more);
      LeadsOn(order, h, ps, b);
    }
  }

  lemma OrderStays(order: Order, b: Block)
    requires |b| >= 12 && !IsSection(b)
    ensures OrderAt(Some(order), b) == Some(order)
  {
  }

  lemma LeadsOn(order: Order, h: Head, ps: seq<Piece>, b: Block)
    requires ps != [] && (forall i :: 0 <= i < |ps| ==> Writable(ps[i])) && b == BlockOf(order, ps[0])
    requires |b| >= 12 && !IsSection(b) && U32(order, b[..4]) == Kind(ps[0])
    ensures var k := Keep(h, order, b);
            (if k.complete then k.kept else k.kept + Pieces(order, Leading(ps[1..]))) ==
            if h.complete then h.kept else h.kept + Pieces(order, Leading(ps))
  {
    hide BlockOf, U32, IsSection;
    if !h.complete {
      if Kind(ps[0]) in {2, 3, 6} {
        assert h.kept + Pieces(order, Leading(ps)) == h.kept;
      } else {
        assert Leading(ps) == [ps[0]] + Leading(ps[1..]);
        assert Leading(ps)[1..] == Leading(ps[1..]);
        assert h.kept + [b] + Pieces(order, Leading(ps[1..])) == h.kept + Pieces(order, Leading(ps));
      }
    }
  }

  lemma {:induction false} SectionsReplay(order: Option<Order>, h: Head, ss: seq<Section>)
    requires ss != [] && forall i :: 0 <= i < |ss| ==> WritableSection(ss[i])
    ensures WritableSection(ss[|ss| - 1]) && Blocks(order, Written(ss))
    ensures Replay(order, h, Written(ss)).kept == HeaderOf(ss[|ss| - 1])
    decreases |ss|
  {
    hide WellFormed, SectionBlock, Blocks, Replay, Writable, U32, Written, Bom, Pieces, Leading;
    WrittenFirst(ss);
    var x := ss[0];
    var b := SectionBlock(x.order, x.rest);
    var o := Some(x.order);
    SectionBlockIs(INITIAL, x.order, x.rest);
    SectionsRead(INITIAL, o, ss[1..]);
    var more := Written(ss[1..]);
    var k := Head([b], false);
    SectionKept(h, x.order, b);
    PiecesReplay(x.order, k, x.pieces, more);
    var g: Head :| Replay(o, k, Pieces(x.order, x.pieces) + more) == Replay(o, g, more) && g.kept == k.kept + Pieces(x.order, Leading(x.pieces));
    ReplayFirst(order, h, b, Pieces(x.order, x.pieces) + more);
    if |ss| > 1 {
      SectionsReplay(o, g, ss[1..]);
    } else {
      NothingRead(INITIAL, o);
      ReplayNothing(o, g);
    }
  }

  lemma ReplayNothing(order: Option<Order>, g: Head)
    ensures Blocks(order, []) && Replay(order, g, []) == g
  {
  }

  lemma SectionKept(h: Head, order: Order, b: Block)
    requires |b| >= 12 && IsSection(b) && Bom(b) == Some(order)
    ensures Keep(h, order, b) == Head([b], false)
  {
    hide U32;
    SectionKind(order, b);
    assert [] + [b] == [b];
  }

  /** After a capture, however chunked, the stored header is its last section's header and the blocks before its first packet. */
  lemma HeaderIsLeading(ss: seq<Section>, chunks: seq<seq<Byte>>)
    requires ss != [] && (forall i :: 0 <= i < |ss| ==> WritableSection(ss[i])) && Flat(chunks) == Flat(Written(ss))
    ensures WritableSection(ss[|ss| - 1]) && Framer.FeedAll(Framer.INITIAL, chunks).1.header == Flat(HeaderOf(ss[|ss| - 1]))
  {
    hide Framer.Feed, Framer.FeedAll, Replay, Blocks, Written, HeaderOf;
    SectionsReplay(None, NO_HEAD, ss);
    WrittenStarts(ss);
    assert [] + Flat(Written(ss)) == Flat(Written(ss));
    Lossless([], Written(ss));
    WrittenSome(ss);
    assert chunks != [];
    ChunkInvariance(Framer.INITIAL, chunks);
  }

  lemma WrittenSome(ss: seq<Section>)
    requires ss != [] && forall i :: 0 <= i < |ss| ==> WritableSection(ss[i])
    ensures |Flat(Written(ss))| >= 12
  {
    hide SectionBlock, Pieces, Written;
    WrittenFirst(ss);
    SectionMagic(ss[0].order, ss[0].rest);
    assert Written(ss)[0] == SectionBlock(ss[0].order, ss[0].rest);
  }

  // ---------------------------------------------------------------- damage

  /** In a section of this order, the bytes from here on are no block: the length is impossible, or is not repeated where the block would end. */
  predicate Damaged(order: Order, s: seq<Byte>) {
    |s| >= 12 && !IsSection(s) &&
    var total := U32(order, s[4..8]);
    total < 12 || total % 4 != 0 || (total <= |s| && U32(order, s[total - 4..total]) != total)
  }

  /**
   Damage costs no more than itself: whatever bytes stand between two runs of whole sections, if the first of them are not
   a block and no section starts among them, all blocks of both runs are framed, and none besides.
   */
  lemma DamageCostsOnlyItself(before: seq<Block>, damage: seq<Byte>, later: seq<Block>)
    requires before != [] && Blocks(None, before) && Blocks(None, later) && |damage| > 0
    requires LastOrder(None, before).Some? && Framer.Find([] + Flat(before)) == 0 && Damaged(LastOrder(None, before).value, damage + Flat(later))
    requires Framer.Find((damage + Flat(later))[1..]) == |damage| - 1
    ensures Framer.Feed(Framer.INITIAL, Flat(before) + damage + Flat(later)).0 == before + later
  {
    hide Framer.Run, Framer.Step, Framer.Find, Blocks, LastOrder, Replay, Damaged;
    var rest := damage + Flat(later);
    assert [] + Flat(before) == Flat(before);
    Lossless([], before);
    var whole := Framer.INITIAL.(buf := Flat(before));
    assert Framer.INITIAL.buf + Flat(before) == Flat(before);
    FramerLaws.RunPlus(whole, rest);
    assert Framer.INITIAL.buf + (Flat(before) + damage + Flat(later)) == FramerLaws.Plus(whole, rest).buf;
    var head := Replay(None, NO_HEAD, before);
    var t := Framer.State([], LastOrder(None, before), Flat(head.kept), head.complete);
    assert [] + rest == rest;
    DamageSkipped(t, rest);
    JunkThen(t.(order := None), head, rest[1..], later);
  }

  /** Within a section, damage costs its first byte and the section. */
  lemma DamageSkipped(t: Framer.State, rest: seq<Byte>)
    requires t.buf == [] && t.order.Some? && Damaged(t.order.value, rest)
    ensures Framer.Run(t.(buf := rest)) == Framer.Run(t.(buf := rest[1..], order := None))
  {
    hide U32;
  }

  /** And outside one, everything up to the next section header is skipped. */
  lemma JunkThen(t: Framer.State, h: Head, junk: seq<Byte>, later: seq<Block>)
    requires t.buf == [] && t.order.None? && Holds(t, h) && Blocks(None, later)
    requires |junk| >= |Flat(later)| && Framer.Find(junk) == |junk| - |Flat(later)| && junk[|junk| - |Flat(later)|..] == Flat(later)
    ensures Framer.Run(t.(buf := junk)).0 == later
  {
    assert Framer.Trim(junk) == Flat(later);
    JunkIsInert(t.(buf := junk));
    LosslessFrom(t, h, later);
    hide Framer.Run, Framer.Trim, Framer.Find, Blocks;
  }

  // ---------------------------------------------------------------- packets that claim too much

  /**
   A packet block whose captured length is more than its block holds gives what there is behind the fixed fields, trailer
   and all; one too short for the fixed fields gives nothing; and neither changes what the reader knows.
   */
  lemma ClaimsTooMuch(s: State, total: seq<Byte>, iface: nat, stamp: seq<Byte>, captured: nat, original: seq<Byte>, rest: seq<Byte>)
    requires |total| == 4 && iface < 0x1_0000_0000 && |stamp| == 8 && captured < 0x1_0000_0000 && |original| == 4
    ensures var fields := Word(s.order, 6) + total + Word(s.order, iface) + stamp + Word(s.order, captured) + original;
            && |fields| == 28
            && Handle(s, fields + rest) ==
               (s, [Packet(if iface in s.links then s.links[iface] else 127, if captured <= |rest| then rest[..captured] else rest)])
            && forall n :: 12 <= n < 28 ==> Handle(s, fields[..n]) == (s, [])
  {
    hide U32, Word;
    var fields := Word(s.order, 6) + total + Word(s.order, iface) + stamp + Word(s.order, captured) + original;
    var b := fields + rest;
    assert b[..4] == Word(s.order, 6) && b[8..12] == Word(s.order, iface) && b[20..24] == Word(s.order, captured);
    assert U32(s.order, b[8..12]) == iface && U32(s.order, b[20..24]) == captured;
    assert b[28..|b|] == rest && (captured <= |rest| ==> b[28..28 + captured] == rest[..captured]);
    forall n | 12 <= n < 28
      ensures Handle(s, fields[..n]) == (s, [])
    {
      assert fields[..n][..4] == Word(s.order, 6);
    }
  }

  // ---------------------------------------------------------------- damage, at the reader

  /** What starts here is no section, and its length is too small or not a whole number of words. */
  predicate BadLength(order: Order, t: seq<Byte>) {
    |t| >= 12 && !IsSection(t) && (U32(order, t[4..8]) < 12 || U32(order, t[4..8]) % 4 != 0)
  }

  /** The reader drops such bytes one by one, and goes on as if they had not been there. */
  lemma {:induction false} ReaderDropsDamage(s: State, damage: seq<Byte>, rest: seq<Byte>)
    requires forall i :: 0 <= i < |damage| ==> BadLength(s.order, (damage + rest)[i..])
    ensures Reader.Run(s.(buf := damage + rest)) == Reader.Run(s.(buf := rest))
    decreases |damage|
  {
    hide Handle, U32;
    var t := damage + rest;
    if damage == [] {
      assert t == rest;
    } else {
      assert t[0..] == t && BadLength(s.order, t);
      assert t[1..] == damage[1..] + rest;
      forall i | 0 <= i < |damage[1..]|
        ensures BadLength(s.order, (damage[1..] + rest)[i..])
      {
        assert (damage[1..] + rest)[i..] == t[i + 1..];
      }
      ReaderDropsDamage(s, damage[1..], rest);
    }
  }
}
