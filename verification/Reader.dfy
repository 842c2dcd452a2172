/** The pcapng decoder at a subscriber's end of the stream (tools/capture_harness). */
module Reader {
  import opened Bytes
  import opened Pcapng

  /** A link type and the captured bytes of one packet. */
  datatype Packet = Packet(link: nat, data: seq<Byte>)

  const UNKNOWN_LINK: nat := 127

  datatype State = State(buf: seq<Byte>, order: Order, links: map<nat, nat>, next: nat)

  const INITIAL := State([], Little, map[], 0)

  datatype Verdict = Wait(next: State) | Skip(next: State) | Take(block: Block, next: State)

  function Marked(s: State): Order
    requires |s.buf| >= 12
  {
    if IsSection(s.buf) && Bom(s.buf).Some? then Bom(s.buf).value else s.order
  }

  function Step(s: State): Verdict {
    if |s.buf| < 12 then Wait(s)
    else
      var t := s.(order := Marked(s));
      var total := U32(t.order, s.buf[4..8]);
      if total < 12 || total % 4 != 0 then Skip(t.(buf := s.buf[1..]))
      else if |s.buf| < total then Wait(t)
      else Take(s.buf[..total], t.(buf := s.buf[total..]))
  }

  /** What one block does to the reader, and the packet it yields, if any. */
  function Handle(s: State, b: Block): (State, seq<Packet>)
    requires |b| >= 12
  {
    var kind := U32(s.order, b[..4]);
    if kind == 0x0a0d0d0a then (s.(links := map[], next := 0), [])
    else if kind == 1 then (s.(links := s.links[s.next := U16(s.order, b[8..10])], next := s.next + 1), [])
    else if kind == 6 && |b| >= 28 then
      var iface, caplen := U32(s.order, b[8..12]), U32(s.order, b[20..24]);
      var end := if 28 + caplen <= |b| then 28 + caplen else |b|;
      (s, [Packet(if iface in s.links then s.links[iface] else UNKNOWN_LINK, b[28..end])])
    else (s, [])
  }

  function Run(s: State): (seq<Packet>, State)
    decreases |s.buf|
  {
    match Step(s)
    case Wait(t) => ([], t)
    case Skip(t) => Run(t)
    case Take(b, t) =>
      var (u, ps) := Handle(t, b);
      var (qs, v) := Run(u);
      (ps + qs, v)
  }

  function Feed(s: State, data: seq<Byte>): (seq<Packet>, State) { Run(s.(buf := s.buf + data)) }

  function FeedAll(s: State, messages: seq<seq<Byte>>): (seq<Packet>, State)
    decreases |messages|
  {
    if messages == [] then ([], s)
    else
      var (ps, t) := Feed(s, messages[0]);
      var (qs, u) := FeedAll(t, messages[1..]);
      (ps + qs, u)
  }

  /** Packets already decoded, plus what `s` still yields, make up `goal`. */
  ghost predicate Owes(goal: (seq<Packet>, State), out: seq<Packet>, s: State) {
    goal.0 == out + Run(s).0 && goal.1 == Run(s).1
  }

  lemma OwesStep(goal: (seq<Packet>, State), out: seq<Packet>, s: State)
    requires Owes(goal, out, s)
    ensures match Step(s)
            case Wait(t) => goal == (out, t)
            case Skip(t) => Owes(goal, out, t)
            case Take(b, t) => Owes(goal, out + Handle(t, b).1, Handle(t, b).0)
  {
    match Step(s)
    case Wait(t) => assert out + [] == out;
    case Skip(t) =>
    case Take(b, t) =>
      var (u, ps) := Handle(t, b);
      assert out + (ps + Run(u).0) == out + ps + Run(u).0;
  }

  class PcapngReader {
    var buf: seq<Byte>
    var endian: Order
    var linktypes: map<nat, nat>
    var ifaceSeq: nat

    constructor ()
      ensures Now() == INITIAL
    {
      buf, endian, linktypes, ifaceSeq := [], Little, map[], 0;
    }

    function Now(): State
      reads this
    {
      State(buf, endian, linktypes, ifaceSeq)
    }

    method FeedBytes(data: seq<Byte>) returns (out: seq<Packet>)
      modifies this
      ensures (out, Now()) == Feed(old(Now()), data)
    {
      buf := buf + data;
      out := [];
      ghost var goal := Run(Now());
      assert out + goal.0 == goal.0;
      while |buf| >= 12
        invariant Owes(goal, out, Now()) || (goal == (out, Now()) && |buf| < 12)
        decreases |buf|
      {
        OwesStep(goal, out, Now());
        if IsSection(buf) {
          var bom := Bom(buf);
          if bom.Some? {
            endian := bom.value;
          }
        }
        var total := U32(endian, buf[4..8]);
        if total < 12 || total % 4 != 0 {
          buf := buf[1..];
          continue;
        }
        if |buf| < total {
          assert goal == (out, Now());
          break;
        }
        var block := buf[..total];
        buf := buf[total..];
        var packets := HandleBlock(block);
        out := out + packets;
      }
      if goal != (out, Now()) {
        OwesStep(goal, out, Now());
      }
    }

    method HandleBlock(block: Block) returns (packets: seq<Packet>)
      requires |block| >= 12
      modifies this
      ensures (Now(), packets) == Handle(old(Now()), block)
    {
      packets := [];
      var kind := U32(endian, block[..4]);
      if kind == 0x0a0d0d0a {
        linktypes, ifaceSeq := map[], 0;
      } else if kind == 1 {
        linktypes, ifaceSeq := linktypes[ifaceSeq := U16(endian, block[8..10])], ifaceSeq + 1;
      } else if kind == 6 {
        if |block| < 28 {
          return;
        }
        var iface := U32(endian, block[8..12]);
        var caplen := U32(endian, block[20..24]);
        var end := if 28 + caplen <= |block| then 28 + caplen else |block|;
        packets := [Packet(if iface in linktypes then linktypes[iface] else UNKNOWN_LINK, block[28..end])];
      }
    }
  }
}
