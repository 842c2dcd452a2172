/** The text an SSID becomes, against UTF-8 as RFC 3629 defines it: by encoding code points. */
module Utf8Laws {
  import opened Bytes
  import opened Escapes
  import opened EscapeLaws

  /** Unicode scalar values: code points without the surrogates (section 3 of RFC 3629). */
  predicate Scalar(c: nat) { c < 0xD800 || 0xE000 <= c < 0x11_0000 }

  function Encode(c: nat): (s: seq<Byte>)
    requires Scalar(c)
    ensures 1 <= |s| <= 4
  {
    if c < 0x80 then [c]
    else if c < 0x800 then [0xC0 + c / 0x40, 0x80 + c % 0x40]
    else if c < 0x1_0000 then [0xE0 + c / 0x1000, 0x80 + c / 0x40 % 0x40, 0x80 + c % 0x40]
    else [0xF0 + c / 0x4_0000, 0x80 + c / 0x1000 % 0x40, 0x80 + c / 0x40 % 0x40, 0x80 + c % 0x40]
  }

  predicate Scalars(cs: seq<nat>) { forall i :: 0 <= i < |cs| ==> Scalar(cs[i]) }

  function EncodeAll(cs: seq<nat>): seq<Byte>
    requires Scalars(cs)
  {
    if cs == [] then [] else Encode(cs[0]) + EncodeAll(cs[1..])
  }

  /** The bytes are the encoding of some text. */
  ghost predicate IsUtf8(s: seq<Byte>) { exists cs :: Scalars(cs) && EncodeAll(cs) == s }

  /** Base-64 digits of a number, from its quotients. */
  lemma Digits(q: nat, r: nat)
    requires r < 0x40
    ensures (q * 0x40 + r) / 0x40 == q && (q * 0x40 + r) % 0x40 == r
  {
  }

  lemma TwoBytes(s: seq<Byte>) returns (c: nat)
    requires |s| == 2 && 0xC2 <= s[0] <= 0xDF && Tail(s[1])
    ensures Scalar(c) && Encode(c) == s
  {
    var a: int, b: int := s[0], s[1];
    c := (a - 0xC0) * 0x40 + (b - 0x80);
    Digits(a - 0xC0, b - 0x80);
  }

  lemma ThreeBytes(s: seq<Byte>) returns (c: nat)
    requires |s| == 3 && 0xE0 <= s[0] <= 0xEF && Tail(s[1]) && Tail(s[2]) && (s[0] == 0xE0 ==> s[1] >= 0xA0) && (s[0] == 0xED ==> s[1] <= 0x9F)
    ensures Scalar(c) && Encode(c) == s
  {
    var a: int, b: int, d: int := s[0], s[1], s[2];
    var q := (a - 0xE0) * 0x40 + (b - 0x80);
    c := q * 0x40 + (d - 0x80);
    Digits(q, d - 0x80);
    Digits(a - 0xE0, b - 0x80);
    assert c / 0x1000 == q / 0x40;
    assert 0x800 <= c < 0x1_0000;
  }

  lemma FourBytes(s: seq<Byte>) returns (c: nat)
    requires |s| == 4 && 0xF0 <= s[0] <= 0xF4 && Tail(s[1]) && Tail(s[2]) && Tail(s[3])
    requires (s[0] == 0xF0 ==> s[1] >= 0x90) && (s[0] == 0xF4 ==> s[1] <= 0x8F)
    ensures Scalar(c) && Encode(c) == s
  {
    var a: int, b: int, d: int, e: int := s[0], s[1], s[2], s[3];
    var p := (a - 0xF0) * 0x40 + (b - 0x80);
    var q := p * 0x40 + (d - 0x80);
    c := q * 0x40 + (e - 0x80);
    Digits(q, e - 0x80);
    Digits(p, d - 0x80);
    Digits(a - 0xF0, b - 0x80);
    assert c / 0x1000 == q / 0x40 && c / 0x4_0000 == p / 0x40;
    assert 0x1_0000 <= c < 0x11_0000;
  }

  /** What stands in front of a well-formed sequence's rest is one encoded code point. */
  lemma WidthEncodes(s: seq<Byte>) returns (c: nat)
    requires s != [] && Width(s) > 0
    ensures Scalar(c) && Encode(c) == s[..Width(s)]
  {
    hide Encode;
    var w := Width(s);
    if w == 1 {
      c := OneByte(s[..1]);
    } else if w == 2 {
      c := TwoBytes(s[..2]);
    } else if w == 3 {
      c := ThreeBytes(s[..3]);
    } else {
      c := FourBytes(s[..4]);
    }
  }

  lemma OneByte(s: seq<Byte>) returns (c: nat)
    requires |s| == 1 && s[0] < 0x80
    ensures Scalar(c) && Encode(c) == s
  {
    c := s[0];
  }

  /** Encodings start and go on as the table of section 4 of RFC 3629 says. */
  lemma EncodedOne(c: nat)
    requires c < 0x80
    ensures Encode(c) == [c]
  {
  }

  lemma EncodedTwo(c: nat)
    requires 0x80 <= c < 0x800
    ensures var s := Encode(c); |s| == 2 && 0xC2 <= s[0] <= 0xDF && Tail(s[1])
  {
  }

  lemma EncodedThree(c: nat)
    requires 0x800 <= c < 0x1_0000 && Scalar(c)
    ensures var s := Encode(c);
            |s| == 3 && 0xE0 <= s[0] <= 0xEF && Tail(s[1]) && Tail(s[2]) && (s[0] == 0xE0 ==> s[1] >= 0xA0) && (s[0] == 0xED ==> s[1] <= 0x9F)
  {
  }

  lemma EncodedFour(c: nat)
    requires 0x1_0000 <= c < 0x11_0000
    ensures var s := Encode(c);
            && |s| == 4 && 0xF0 <= s[0] <= 0xF4 && Tail(s[1]) && Tail(s[2]) && Tail(s[3])
            && (s[0] == 0xF0 ==> s[1] >= 0x90) && (s[0] == 0xF4 ==> s[1] <= 0x8F)
  {
  }

  /** And an encoded code point is recognised, whatever follows. */
  lemma EncodeHasWidth(c: nat, rest: seq<Byte>)
    requires Scalar(c)
    ensures Width(Encode(c) + rest) == |Encode(c)|
  {
    hide Encode;
    var s := Encode(c) + rest;
    assert forall i :: 0 <= i < |Encode(c)| ==> s[i] == Encode(c)[i];
    if c < 0x80 {
      EncodedOne(c);
    } else if c < 0x800 {
      EncodedTwo(c);
    } else if c < 0x1_0000 {
      EncodedThree(c);
    } else {
      EncodedFour(c);
    }
  }

  lemma {:induction false} ValidIsUtf8(s: seq<Byte>) returns (cs: seq<nat>)
    requires ValidUtf8(s)
    ensures Scalars(cs) && EncodeAll(cs) == s
    decreases |s|
  {
    hide Encode, Width;
    cs := [];
    if s != [] {
      var c := WidthEncodes(s);
      var rest := ValidIsUtf8(s[Width(s)..]);
      cs := [c] + rest;
      assert cs[1..] == rest && s == s[..Width(s)] + s[Width(s)..];
    }
  }

  lemma {:induction false} Utf8IsValid(cs: seq<nat>)
    requires Scalars(cs)
    ensures ValidUtf8(EncodeAll(cs))
  {
    hide Encode, Width;
    if cs != [] {
      var rest := EncodeAll(cs[1..]);
      EncodeHasWidth(cs[0], rest);
      Utf8IsValid(cs[1..]);
      assert (Encode(cs[0]) + rest)[|Encode(cs[0])|..] == rest;
    }
  }

  /** The decoder takes for UTF-8 exactly what is UTF-8. */
  lemma ValidExactly(s: seq<Byte>)
    ensures ValidUtf8(s) <==> IsUtf8(s)
  {
    if ValidUtf8(s) {
      var cs := ValidIsUtf8(s);
    }
    if cs :| Scalars(cs) && EncodeAll(cs) == s {
      Utf8IsValid(cs);
    }
  }

  /**
   However an SSID was printed: the text is empty exactly if there is no byte but NULs, and otherwise it is the SSID's
   own bytes exactly if those are UTF-8.
   */
  lemma SsidTextIsText(raw: seq<Byte>, parts: seq<seq<Byte>>)
    requires Prints(raw, parts)
    ensures SsidText(Flat(parts)) == [] <==> forall b :: b in raw ==> b == 0
    ensures (exists b :: b in raw && b != 0) ==> (SsidText(Flat(parts)) == raw <==> IsUtf8(raw))
  {
    SsidTextExactly(raw, parts);
    ValidExactly(raw);
    DecodedLength(raw);
    if AllNul(raw) {
      assert forall b :: b in raw ==> b == 0;
    } else {
      var i :| 0 <= i < |raw| && raw[i] != 0;
      assert raw[i] in raw;
    }
  }
}
