/** SSIDs as wpa_supplicant and iw print them, and the values written for wpa_supplicant to read. */
module Escapes {
  import opened Bytes

  const BACKSLASH: Byte := 92
  const QUOTE: Byte := 34
  const LOWER_X: Byte := 120
  const CAPITAL_P: Byte := 80

  // ---------------------------------------------------------------- hex digits

  predicate IsHex(c: Byte) { 48 <= c <= 57 || 97 <= c <= 102 || 65 <= c <= 70 }

  function HexValue(c: Byte): nat
    requires IsHex(c)
  {
    if c <= 57 then c - 48 else if c >= 97 then c - 87 else c - 55
  }

  /** The lower-case digit. */
  function Digit(n: nat): (c: Byte)
    requires n < 16
    ensures IsHex(c) && HexValue(c) == n && !(65 <= c <= 70)
  {
    if n < 10 then 48 + n else 87 + n
  }

  function Hex(b: Byte): (h: seq<Byte>)
    ensures |h| == 2 && IsHex(h[0]) && IsHex(h[1]) && 16 * HexValue(h[0]) + HexValue(h[1]) == b
  {
    [Digit(b / 16), Digit(b % 16)]
  }

  // ---------------------------------------------------------------- the decoder

  function Control(c: Byte): Byte {
    if c == 101 then 27 else if c == 110 then 10 else if c == 114 then 13 else if c == 116 then 9 else c
  }

  /** The length of the escape that starts here: four for \xNN, two for any other escaped byte. */
  function EscapeLength(s: seq<Byte>): (n: nat)
    requires |s| >= 2 && s[0] == BACKSLASH
    ensures n <= |s|
  {
    if |s| >= 4 && s[1] == LOWER_X && IsHex(s[2]) && IsHex(s[3]) then 4 else 2
  }

  /** Replace every escape; a lone backslash at the end stays. */
  function Unescape(s: seq<Byte>): seq<Byte> {
    if s == [] then []
    else if s[0] != BACKSLASH || |s| == 1 then [s[0]] + Unescape(s[1..])
    else if EscapeLength(s) == 4 then
      var b: Byte := 16 * HexValue(s[2]) + HexValue(s[3]);
      [b] + Unescape(s[4..])
    else [Control(s[1])] + Unescape(s[2..])
  }

  // ---------------------------------------------------------------- printing

  /** What a printer may write for one byte: itself, an escape of its own, or hex digits in either case. */
  predicate Shows(b: Byte, t: seq<Byte>) {
    || (t == [b] && b != BACKSLASH)
    || (t == [BACKSLASH, b] && (b == BACKSLASH || b == QUOTE))
    || (exists c: Byte :: t == [BACKSLASH, c] && c in {101, 110, 114, 116} && b == Control(c))
    || (|t| == 4 && t[0] == BACKSLASH && t[1] == LOWER_X && IsHex(t[2]) && IsHex(t[3]) && b == 16 * HexValue(t[2]) + HexValue(t[3]))
  }

  /** What wpa_supplicant writes for one byte. */
  function WpaShow(b: Byte): seq<Byte> {
    if b == QUOTE || b == BACKSLASH then [BACKSLASH, b]
    else if b == 27 then [BACKSLASH, 101]
    else if b == 10 then [BACKSLASH, 110]
    else if b == 13 then [BACKSLASH, 114]
    else if b == 9 then [BACKSLASH, 116]
    else if 32 <= b <= 126 then [b]
    else [BACKSLASH, LOWER_X] + Hex(b)
  }

  /** What iw writes: the byte, or hex digits; `plain` says which bytes it leaves as they are. */
  function IwShow(b: Byte, plain: bool): seq<Byte> { if plain && b != BACKSLASH then [b] else [BACKSLASH, LOWER_X] + Hex(b) }

  // ---------------------------------------------------------------- UTF-8 (RFC 3629)

  predicate Tail(b: Byte) { 0x80 <= b <= 0xBF }

  /** The width of the well-formed sequence that starts here, or 0. */
  function Width(s: seq<Byte>): (w: nat)
    requires s != []
    ensures w <= |s|
  {
    var b := s[0];
    if b < 0x80 then 1
    else if 0xC2 <= b <= 0xDF && |s| >= 2 && Tail(s[1]) then 2
    else if 0xE0 <= b <= 0xEF && |s| >= 3 && Tail(s[1]) && Tail(s[2]) && (b == 0xE0 ==> s[1] >= 0xA0) && (b == 0xED ==> s[1] <= 0x9F) then 3
    else if 0xF0 <= b <= 0xF4 && |s| >= 4 && Tail(s[1]) && Tail(s[2]) && Tail(s[3]) && (b == 0xF0 ==> s[1] >= 0x90) && (b == 0xF4 ==> s[1] <= 0x8F) then 4
    else 0
  }

  predicate ValidUtf8(s: seq<Byte>)
    decreases |s|
  {
    s == [] || (Width(s) > 0 && ValidUtf8(s[Width(s)..]))
  }

  /** Decode as UTF-8, each byte of no well-formed sequence coming back as \\xNN; the result is given as its own UTF-8. */
  function Decoded(s: seq<Byte>): seq<Byte>
    decreases |s|
  {
    if s == [] then []
    else if Width(s) == 0 then [BACKSLASH, LOWER_X] + Hex(s[0]) + Decoded(s[1..])
    else s[..Width(s)] + Decoded(s[Width(s)..])
  }

  predicate AllNul(s: seq<Byte>) { forall i :: 0 <= i < |s| ==> s[i] == 0 }

  function SsidText(printed: seq<Byte>): seq<Byte> {
    var raw := Unescape(printed);
    if AllNul(raw) then [] else Decoded(raw)
  }

  // ---------------------------------------------------------------- values for wpa_supplicant

  function Replaced(s: seq<Byte>, c: Byte, with: seq<Byte>): seq<Byte> {
    if s == [] then [] else (if s[0] == c then with else [s[0]]) + Replaced(s[1..], c, with)
  }

  function Hexed(s: seq<Byte>): seq<Byte> { if s == [] then [] else Hex(s[0]) + Hexed(s[1..]) }

  function Lowered(s: seq<Byte>): (t: seq<Byte>)
    ensures |t| == |s| && forall i :: 0 <= i < |s| ==> t[i] == if 65 <= s[i] <= 90 then s[i] + 32 else s[i]
  {
    if s == [] then [] else [if 65 <= s[0] <= 90 then s[0] + 32 else s[0]] + Lowered(s[1..])
  }

  function SsidValue(ssid: seq<Byte>): seq<Byte> { Hexed(ssid) }

  predicate IsRawKey(psk: seq<Byte>) { |psk| == 64 && forall i :: 0 <= i < 64 ==> IsHex(psk[i]) }

  function PskValue(psk: seq<Byte>): seq<Byte> { if IsRawKey(psk) then Lowered(psk) else [QUOTE] + psk + [QUOTE] }

  function StringValue(v: seq<Byte>): seq<Byte> {
    [CAPITAL_P, QUOTE] + Replaced(Replaced(v, BACKSLASH, [BACKSLASH, BACKSLASH]), QUOTE, [BACKSLASH, QUOTE]) + [QUOTE]
  }

  // ---------------------------------------------------------------- how wpa_supplicant reads them

  function Unhex(s: seq<Byte>): Option<seq<Byte>> {
    if s == [] then Some([])
    else if |s| == 1 || !IsHex(s[0]) || !IsHex(s[1]) then None
    else
      var b: Byte := 16 * HexValue(s[0]) + HexValue(s[1]);
      match Unhex(s[2..]) case None => None case Some(rest) => Some([b] + rest)
  }

  function LastQuote(s: seq<Byte>): (i: int)
    ensures -1 <= i < |s| && (i >= 0 ==> s[i] == QUOTE) && forall j :: i < j < |s| ==> s[j] != QUOTE
  {
    if s == [] then -1 else if s[|s| - 1] == QUOTE then |s| - 1 else LastQuote(s[..|s| - 1])
  }

  /** A quoted value is literal up to the last quote, P"..." is unescaped, anything else is hex. */
  function ReadValue(t: seq<Byte>): Option<seq<Byte>> {
    if t != [] && t[0] == QUOTE then (if LastQuote(t) == 0 then None else Some(t[1..LastQuote(t)]))
    else if |t| >= 2 && t[0] == CAPITAL_P && t[1] == QUOTE then
      (if LastQuote(t) == 1 then None else Some(Unescape(t[2..LastQuote(t)])))
    else Unhex(t)
  }
}
