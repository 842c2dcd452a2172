/** Octets, byte orders and the fixed-width words of the pcapng block format. */
module Bytes {
  type Byte = b: nat | b < 256

  datatype Option<+T> = None | Some(value: T)

  datatype Order = Little | Big

  function U16(order: Order, s: seq<Byte>): nat
    requires |s| == 2
  {
    match order
    case Little => (s[0] as int) + 0x100 * (s[1] as int)
    case Big => (s[1] as int) + 0x100 * (s[0] as int)
  }

  function U32(order: Order, s: seq<Byte>): nat
    requires |s| == 4
  {
    match order
    case Little => (s[0] as int) + 0x100 * (s[1] as int) + 0x1_0000 * (s[2] as int) + 0x100_0000 * (s[3] as int)
    case Big => (s[3] as int) + 0x100 * (s[2] as int) + 0x1_0000 * (s[1] as int) + 0x100_0000 * (s[0] as int)
  }

  /** A number written as a 32-bit word; the writer's side of U32. */
  function Word(order: Order, n: nat): (s: seq<Byte>)
    requires n < 0x1_0000_0000
    ensures |s| == 4 && U32(order, s) == n
  {
    var q1 := n / 0x100;
    var q2 := q1 / 0x100;
    var q3 := q2 / 0x100;
    var b0, b1, b2 := n - 0x100 * q1, q1 - 0x100 * q2, q2 - 0x100 * q3;
    match order
    case Little => [b0, b1, b2, q3]
    case Big => [q3, b2, b1, b0]
  }

  /** Concatenation of a list of byte strings. */
  function Flat(parts: seq<seq<Byte>>): (s: seq<Byte>)
  {
    if parts == [] then [] else parts[0] + Flat(parts[1..])
  }

  lemma {:induction false} FlatAppend(a: seq<seq<Byte>>, b: seq<seq<Byte>>)
    ensures Flat(a + b) == Flat(a) + Flat(b)
  {
    if a == [] {
      assert a + b == b;
    } else {
      assert (a + b)[1..] == a[1..] + b;
      FlatAppend(a[1..], b);
    }
  }
}
