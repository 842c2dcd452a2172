/**
 The incremental framer that cuts dumpcap's stdout chunks into complete pcapng
 blocks, resynchronises on a section header after damage, and keeps the current
 section's header for late subscribers.
 */
module Framer {
  import opened Bytes
  import opened Pcapng

  /** The fields one client keeps for framing. */
  datatype State = State(buf: seq<Byte>, order: Option<Order>, header: seq<Byte>, complete: bool)

  const INITIAL := State([], None, [], false)

  // ---------------------------------------------------------------- searching

  predicate MagicAt(s: seq<Byte>, i: nat) { i + 4 <= |s| && IsSection(s[i..]) }

  /** Index of the first section magic, or -1. */
  function Find(s: seq<Byte>): (i: int)
    ensures -1 <= i <= |s|
    ensures i >= 0 ==> MagicAt(s, i)
    ensures forall j: nat :: MagicAt(s, j) ==> 0 <= i <= j
  {
    FindFrom(s, 0)
  }

  function FindFrom(s: seq<Byte>, k: nat): (i: int)
    requires k <= |s|
    ensures -1 <= i <= |s|
    ensures i >= 0 ==> k <= i && MagicAt(s, i)
    ensures forall j: nat :: k <= j && MagicAt(s, j) ==> 0 <= i <= j
    decreases |s| - k
  {
    if MagicAt(s, k) then k else if k == |s| then -1 else FindFrom(s, k + 1)
  }

  /** What an unsynchronised buffer may still matter for: from its first magic on, or its last 3 bytes. */
  function Trim(s: seq<Byte>): seq<Byte> {
    var i := Find(s);
    if i >= 0 then s[i..] else if |s| <= 3 then s else s[|s| - 3..]
  }

  // ---------------------------------------------------------------- one iteration

  datatype Verdict = Wait(next: State) | Skip(next: State) | Emit(block: Block, next: State)

  function Slip(s: State): State
    requires s.buf != []
  {
    s.(buf := s.buf[1..], order := None)
  }

  function Absorb(s: State, order: Order, block: Block): State
    requires |block| >= 12
  {
    var t := if IsSection(block) then s.(header := [], complete := false) else s;
    if t.complete then t
    else if IsPacketType(U32(order, block[..4])) then t.(complete := true)
    else t.(header := t.header + block)
  }

  /** One block decision at the front of a buffer that is positioned. */
  function Cut(s: State): Verdict
    requires |s.buf| >= 12
  {
    var order := OrderAt(s.order, s.buf);
    if order.None? then Skip(Slip(s))
    else
      var t := s.(order := order);
      var total := U32(order.value, s.buf[4..8]);
      if total < 12 || total % 4 != 0 then Skip(Slip(t))
      else if |s.buf| < total then Wait(t)
      else if U32(order.value, s.buf[total - 4..total]) != total then Skip(Slip(t))
      else Emit(s.buf[..total], Absorb(t.(buf := s.buf[total..]), order.value, s.buf[..total]))
  }

  function Step(s: State): Verdict {
    if |s.buf| < 12 then Wait(s)
    else
      var t := if s.order.None? then s.(buf := Trim(s.buf)) else s;
      if |t.buf| < 12 then Wait(t) else Cut(t)
  }

  /** All blocks a buffer yields, and what is left. */
  function Run(s: State): (seq<Block>, State)
    decreases |s.buf|
  {
    match Step(s)
    case Wait(t) => ([], t)
    case Skip(t) => Run(t)
    case Emit(b, t) => var (bs, u) := Run(t); ([b] + bs, u)
  }

  function Feed(s: State, chunk: seq<Byte>): (seq<Block>, State) {
    Run(s.(buf := s.buf + chunk))
  }

  function FeedAll(s: State, chunks: seq<seq<Byte>>): (seq<Block>, State)
    decreases |chunks|
  {
    if chunks == [] then ([], s)
    else
      var (bs, t) := Feed(s, chunks[0]);
      var (cs, u) := FeedAll(t, chunks[1..]);
      (bs + cs, u)
  }

  // ---------------------------------------------------------------- the loop

  /** Blocks already cut, plus whatever `s` still yields, make up `goal`. */
  ghost predicate Owes(goal: (seq<Block>, State), blocks: seq<Block>, s: State) {
    goal.0 == blocks + Run(s).0 && goal.1 == Run(s).1
  }

  /** One loop iteration that agrees with Step keeps what is owed. */
  lemma OwesStep(goal: (seq<Block>, State), blocks: seq<Block>, s: State)
    requires Owes(goal, blocks, s)
    ensures match Step(s)
            case Wait(t) => goal == (blocks, t)
            case Skip(t) => Owes(goal, blocks, t)
            case Emit(b, t) => Owes(goal, blocks + [b], t)
  {
    match Step(s)
    case Wait(t) => assert blocks + [] == blocks;
    case Skip(t) =>
    case Emit(b, t) => assert blocks + ([b] + Run(t).0) == blocks + [b] + Run(t).0;
  }

  class Client {
    var buf: seq<Byte>
    var order: Option<Order>
    var header: seq<Byte>
    var complete: bool

    constructor ()
      ensures Now() == INITIAL
    {
      buf, order, header, complete := [], None, [], false;
    }

    constructor From(s: State)
      ensures Now() == s
    {
      buf, order, header, complete := s.buf, s.order, s.header, s.complete;
    }

    function Now(): State
      reads this
    {
      State(buf, order, header, complete)
    }

    /** Frame one stdout chunk. */
    method Blocks(chunk: seq<Byte>) returns (blocks: seq<Block>)
      modifies this
      ensures (blocks, Now()) == Feed(old(Now()), chunk)
    {
      buf := buf + chunk;
      blocks := [];
      ghost var goal := Run(Now());
      assert blocks + goal.0 == goal.0;
      var more := true;
      while more && |buf| >= 12
        invariant if more then Owes(goal, blocks, Now()) else goal == (blocks, Now())
        decreases more, |buf|
      {
        OwesStep(goal, blocks, Now());
        var block;
        more, block := Turn();
        if block.Some? {
          blocks := blocks + [block.value];
        }
      }
      if more {
        OwesStep(goal, blocks, Now());
      }
    }

    /** The loop's body: `more` is false where it breaks, `block` is what it appends. */
    method Turn() returns (more: bool, block: Option<Block>)
      requires |buf| >= 12
      modifies this
      ensures Step(old(Now())) == if !more then Wait(Now()) else if block.None? then Skip(Now()) else Emit(block.value, Now())
      ensures more || block.None?
      ensures more ==> |buf| < |old(buf)|
    {
      if order.None? {
        var start := Find(buf);
        if start < 0 {
          buf := buf[|buf| - 3..];
          return false, None;
        }
        if start != 0 {
          buf := buf[start..];
        }
        if |buf| < 12 {
          return false, None;
        }
      }
      more, block := CutFront();
    }

    /** The rest of the body: judge and cut the block at the front. */
    method CutFront() returns (more: bool, block: Option<Block>)
      requires |buf| >= 12 && (order.None? ==> IsSection(buf))
      modifies this
      ensures Cut(old(Now())) == if !more then Wait(Now()) else if block.None? then Skip(Now()) else Emit(block.value, Now())
      ensures more || block.None?
      ensures more ==> |buf| < |old(buf)|
    {
      hide U32;
      if buf[..4] == MAGIC {
        var magic := buf[8..12];
        if magic == LITTLE_BOM {
          order := Some(Little);
        } else if magic == BIG_BOM {
          order := Some(Big);
        } else {
          buf, order := buf[1..], None;
          return true, None;
        }
      }
      var endian := order.value;
      var total := U32(endian, buf[4..8]);
      if total < 12 || total % 4 != 0 {
        buf, order := buf[1..], None;
        return true, None;
      }
      if |buf| < total {
        return false, None;
      }
      if U32(endian, buf[total - 4..total]) != total {
        buf, order := buf[1..], None;
        return true, None;
      }
      var cut := buf[..total];
      buf := buf[total..];
      if cut[..4] == MAGIC {
        header, complete := [], false;
      }
      if !complete {
        if IsPacketType(U32(endian, cut[..4])) {
          complete := true;
        } else {
          header := header + cut;
        }
      }
      return true, Some(cut);
    }
  }
}
