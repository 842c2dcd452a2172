/** The General Block Structure and section header of pcapng, as both ends of the stream read them. */
module Pcapng {
  import opened Bytes

  type Block = seq<Byte>

  const MAGIC: seq<Byte> := [0x0a, 0x0d, 0x0d, 0x0a]
  const LITTLE_BOM: seq<Byte> := [0x4d, 0x3c, 0x2b, 0x1a]
  const BIG_BOM: seq<Byte> := [0x1a, 0x2b, 0x3c, 0x4d]

  /** Simple, Enhanced and obsolete Packet Blocks. */
  predicate IsPacketType(kind: nat) { kind == 2 || kind == 3 || kind == 6 }

  /** The bytes open a section header block. */
  predicate IsSection(s: seq<Byte>) { |s| >= 4 && s[..4] == MAGIC }

  function Bom(s: seq<Byte>): Option<Order>
    requires |s| >= 12
  {
    if s[8..12] == LITTLE_BOM then Some(Little) else if s[8..12] == BIG_BOM then Some(Big) else None
  }

  /** Order in force for a block: a section header brings its own. */
  function OrderAt(order: Option<Order>, s: seq<Byte>): Option<Order>
    requires |s| >= 12
  {
    if IsSection(s) then Bom(s) else order
  }

  /** A complete block of a section written in byte order `order`. */
  predicate WellFormed(order: Order, b: Block) {
    && |b| >= 12 && |b| % 4 == 0
    && U32(order, b[4..8]) == |b| && U32(order, b[|b| - 4..]) == |b|
    && (IsSection(b) ==> Bom(b) == Some(order))
  }

  /** `bs` are whole blocks, each in its section's order; `order` is the section before them. */
  predicate Blocks(order: Option<Order>, bs: seq<Block>)
    decreases |bs|
  {
    bs == [] ||
    (|bs[0]| >= 12 && OrderAt(order, bs[0]).Some? && WellFormed(OrderAt(order, bs[0]).value, bs[0])
     && Blocks(OrderAt(order, bs[0]), bs[1..]))
  }

  /** The section order after `bs`. */
  function LastOrder(order: Option<Order>, bs: seq<Block>): Option<Order>
    requires Blocks(order, bs)
    decreases |bs|
  {
    if bs == [] then order else LastOrder(OrderAt(order, bs[0]), bs[1..])
  }
}
