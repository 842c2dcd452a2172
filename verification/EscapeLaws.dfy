/** Decoding inverts printing, and reading inverts writing, for every byte string. */
module EscapeLaws {
  import opened Bytes
  import opened Escapes

  // ---------------------------------------------------------------- SSIDs as printed

  /** `parts` is one way to print `raw`, byte by byte. */
  predicate Prints(raw: seq<Byte>, parts: seq<seq<Byte>>) {
    |parts| == |raw| && forall i :: 0 <= i < |raw| ==> Shows(raw[i], parts[i])
  }

  lemma UnescapeFirst(b: Byte, t: seq<Byte>, rest: seq<Byte>)
    requires Shows(b, t)
    ensures Unescape(t + rest) == [b] + Unescape(rest)
  {
    var s := t + rest;
    if |t| == 1 {
      assert s[1..] == rest;
    } else if |t| == 2 {
      assert s[1] == t[1] && s[2..] == rest;
    } else {
      assert s[1] == t[1] && s[2] == t[2] && s[3] == t[3] && s[4..] == rest;
    }
  }

  /** However each byte was printed, the decoder gives the bytes back. */
  lemma {:induction false} DecodesPrinted(raw: seq<Byte>, parts: seq<seq<Byte>>)
    requires Prints(raw, parts)
    ensures Unescape(Flat(parts)) == raw
  {
    if raw != [] {
      hide Shows;
      assert Flat(parts) == parts[0] + Flat(parts[1..]);
      UnescapeFirst(raw[0], parts[0], Flat(parts[1..]));
      DecodesPrinted(raw[1..], parts[1..]);
    }
  }

  lemma BothPrint(b: Byte, plain: bool)
    ensures Shows(b, WpaShow(b)) && Shows(b, IwShow(b, plain))
  {
    assert Control(101) == 27 && Control(110) == 10 && Control(114) == 13 && Control(116) == 9;
  }

  function WpaParts(raw: seq<Byte>): seq<seq<Byte>> { seq(|raw|, i requires 0 <= i < |raw| => WpaShow(raw[i])) }

  function IwParts(raw: seq<Byte>, plain: seq<bool>): seq<seq<Byte>>
    requires |plain| == |raw|
  {
    seq(|raw|, i requires 0 <= i < |raw| => IwShow(raw[i], plain[i]))
  }

  /** In particular it inverts both printers, whichever bytes iw leaves as they are. */
  lemma InvertsBothPrinters(raw: seq<Byte>, plain: seq<bool>)
    requires |plain| == |raw|
    ensures Unescape(Flat(WpaParts(raw))) == raw && Unescape(Flat(IwParts(raw, plain))) == raw
  {
    forall i | 0 <= i < |raw|
      ensures Shows(raw[i], WpaParts(raw)[i]) && Shows(raw[i], IwParts(raw, plain)[i])
    {
      BothPrint(raw[i], plain[i]);
    }
    hide Shows;
    DecodesPrinted(raw, WpaParts(raw));
    DecodesPrinted(raw, IwParts(raw, plain));
  }

  // ---------------------------------------------------------------- SSIDs as text

  /** The text is longer than the bytes exactly if some byte had to be escaped. */
  lemma {:induction false} DecodedLength(s: seq<Byte>)
    ensures |Decoded(s)| >= |s| && (|Decoded(s)| == |s| <==> ValidUtf8(s))
    decreases |s|
  {
    if s != [] {
      DecodedLength(s[if Width(s) == 0 then 1 else Width(s)..]);
    }
  }

  lemma {:induction false} ValidUnchanged(s: seq<Byte>)
    requires ValidUtf8(s)
    ensures Decoded(s) == s
    decreases |s|
  {
    if s != [] {
      ValidUnchanged(s[Width(s)..]);
      assert s[..Width(s)] + s[Width(s)..] == s;
    }
  }

  /** Text comes back byte for byte exactly if it is UTF-8. */
  lemma DecodedExactly(s: seq<Byte>)
    ensures Decoded(s) == s <==> ValidUtf8(s)
  {
    DecodedLength(s);
    if ValidUtf8(s) {
      ValidUnchanged(s);
    }
  }

  /** However an SSID was printed: only NULs become "", and otherwise it comes back unchanged exactly if it is UTF-8. */
  lemma SsidTextExactly(raw: seq<Byte>, parts: seq<seq<Byte>>)
    requires Prints(raw, parts)
    ensures AllNul(raw) ==> SsidText(Flat(parts)) == []
    ensures !AllNul(raw) ==> SsidText(Flat(parts)) == Decoded(raw) && (SsidText(Flat(parts)) == raw <==> ValidUtf8(raw))
  {
    DecodesPrinted(raw, parts);
    DecodedExactly(raw);
  }

  lemma {:induction false} PlainThrough(a: seq<Byte>, rest: seq<Byte>)
    requires BACKSLASH !in a
    ensures Unescape(a + rest) == a + Unescape(rest)
    decreases |a|
  {
    if a == [] {
      assert a + rest == rest;
    } else {
      assert (a + rest)[1..] == a[1..] + rest;
      PlainThrough(a[1..], rest);
      assert [a[0]] + (a[1..] + Unescape(rest)) == a + Unescape(rest);
    }
  }

  /** Up to the next backslash, decoding the text gives back the bytes one by one. */
  lemma PlainStep(s: seq<Byte>) returns (w: nat)
    requires s != [] && s[0] != BACKSLASH
    ensures 1 <= w <= |s| && BACKSLASH !in s[..w] && Unescape(Decoded(s)) == s[..w] + Unescape(Decoded(s[w..]))
  {
    hide Unescape, Shows, Hex;
    if Width(s) == 0 {
      w := 1;
      HexShows(s[0]);
      UnescapeFirst(s[0], [BACKSLASH, LOWER_X] + Hex(s[0]), Decoded(s[1..]));
    } else {
      w := Width(s);
      PlainThrough(s[..w], Decoded(s[w..]));
    }
  }

  /** The text of bytes that come out as they are. */
  lemma DecodedPlain(s: seq<Byte>)
    requires s != [] && Decoded(s)[0] != BACKSLASH
    ensures Width(s) >= 1 && Decoded(s)[0] == s[0] && (s[0] < 0x80 ==> Decoded(s) == [s[0]] + Decoded(s[1..]))
  {
    hide Width, Hex;
    if s[0] < 0x80 {
      AsciiWidth(s);
      assert s[..1] == [s[0]];
    }
  }

  lemma AsciiWidth(s: seq<Byte>)
    requires s != [] && s[0] < 0x80
    ensures Width(s) == 1
  {
  }

  /**
   A backslash with something behind it is read as an escape: it gives back fewer bytes than there were, except
   that before a byte that had to be escaped itself it gives the four characters of that escape.
   */
  lemma EscapeStep(s: seq<Byte>) returns (n: nat, o: seq<Byte>)
    requires |s| >= 2 && s[0] == BACKSLASH
    ensures 2 <= n <= |s| && Unescape(Decoded(s)) == o + Unescape(Decoded(s[n..]))
    ensures |o| < n || (n == 2 && |o| == 4 && o[1] == LOWER_X && IsHex(o[2]) && IsHex(o[3]) && s[1] >= 0x80)
  {
    hide Hex, Unescape, Width, Control, Decoded;
    var r := s[1..];
    DecodedNext(s);
    if Width(r) == 0 {
      n := 2;
      o := [BACKSLASH, LOWER_X] + Hex(r[0]);
      BeforeEscaped(s);
    } else if r[0] == LOWER_X && |Decoded(r[1..])| >= 2 && IsHex(Decoded(r[1..])[0]) && IsHex(Decoded(r[1..])[1]) {
      n, o := 4, [16 * HexValue(Decoded(r[1..])[0]) + HexValue(Decoded(r[1..])[1])];
      BeforeDigits(s);
    } else {
      n := Width(r) + 1;
      o := [Control(r[0])] + r[1..Width(r)];
      BeforePlain(s);
    }
  }

  lemma DecodedNext(s: seq<Byte>)
    requires |s| >= 2 && s[0] == BACKSLASH
    ensures Decoded(s) == [BACKSLASH] + Decoded(s[1..]) && (Width(s[1..]) == 0 ==> s[1] >= 0x80)
    ensures s[1] == LOWER_X ==> Width(s[1..]) == 1
  {
  }

  lemma BeforeEscaped(s: seq<Byte>)
    requires |s| >= 2 && s[0] == BACKSLASH && Width(s[1..]) == 0
    ensures Unescape(Decoded(s)) == [BACKSLASH, LOWER_X] + Hex(s[1]) + Unescape(Decoded(s[2..]))
  {
    hide Hex, Unescape, Width;
    DecodedNext(s);
    var d, x := Decoded(s[2..]), [LOWER_X] + Hex(s[1]);
    assert s[1..][1..] == s[2..];
    assert Decoded(s[1..]) == [BACKSLASH, LOWER_X] + Hex(s[1]) + d;
    assert Decoded(s) == [BACKSLASH, BACKSLASH] + (x + d);
    PlainThrough(x, d);
    EscapedByte(BACKSLASH, x + d);
  }

  lemma BeforeDigits(s: seq<Byte>)
    requires |s| >= 2 && s[0] == BACKSLASH && s[1] == LOWER_X
    requires |Decoded(s[2..])| >= 2 && IsHex(Decoded(s[2..])[0]) && IsHex(Decoded(s[2..])[1])
    ensures |s| >= 4 && s[1..][1..] == s[2..]
    ensures Unescape(Decoded(s)) == [16 * HexValue(Decoded(s[2..])[0]) + HexValue(Decoded(s[2..])[1])] + Unescape(Decoded(s[4..]))
  {
    hide Hex, Width, Unescape, Decoded, Control;
    DecodedNext(s);
    assert s[1..][1..] == s[2..];
    AtX(s[1..]);
    var r := s[2..];
    StartsDigits(r);
    assert r[2..] == s[4..];
    assert Decoded(s) == [BACKSLASH, LOWER_X, r[0], r[1]] + Decoded(s[4..]);
    EscapedDigits(r[0], r[1], Decoded(s[4..]));
  }

  /** Hex digits in front of the text are the bytes' own. */
  lemma StartsDigits(r: seq<Byte>)
    requires |Decoded(r)| >= 2 && IsHex(Decoded(r)[0]) && IsHex(Decoded(r)[1])
    ensures |r| >= 2 && r[0] == Decoded(r)[0] && r[1] == Decoded(r)[1] && Decoded(r) == [r[0], r[1]] + Decoded(r[2..])
  {
    hide Hex, Width, Unescape, Decoded;
    NothingEscaped();
    DecodedPlain(r);
    assert Decoded(r)[1..] == Decoded(r[1..]);
    DecodedPlain(r[1..]);
    assert r[1..][1..] == r[2..];
  }

  lemma EscapedDigits(a: Byte, b: Byte, rest: seq<Byte>)
    requires IsHex(a) && IsHex(b)
    ensures Unescape([BACKSLASH, LOWER_X, a, b] + rest) == [16 * HexValue(a) + HexValue(b)] + Unescape(rest)
  {
    var t := [BACKSLASH, LOWER_X, a, b] + rest;
    assert t[4..] == rest;
  }

  lemma AtX(s: seq<Byte>)
    requires s != [] && s[0] == LOWER_X
    ensures Decoded(s) == [LOWER_X] + Decoded(s[1..])
  {
  }

  lemma BeforePlain(s: seq<Byte>)
    requires |s| >= 2 && s[0] == BACKSLASH && Width(s[1..]) >= 1
    requires !(s[1] == LOWER_X && |Decoded(s[2..])| >= 2 && IsHex(Decoded(s[2..])[0]) && IsHex(Decoded(s[2..])[1]))
    ensures var w := Width(s[1..]);
            s[1..][1..] == s[2..] && Unescape(Decoded(s)) == [Control(s[1])] + s[1..][1..w] + Unescape(Decoded(s[w + 1..]))
  {
    hide Hex, Unescape, Control;
    DecodedNext(s);
    var r := s[1..];
    var w := Width(r);
    var d := Decoded(r[w..]);
    assert r[w..] == s[w + 1..] && r[1..] == s[2..];
    assert Decoded(s) == [BACKSLASH, r[0]] + (r[1..w] + d);
    assert r[0] == LOWER_X ==> w == 1 && r[1..w] + d == d;
    PlainThrough(r[1..w], d);
    EscapedByte(r[0], r[1..w] + d);
  }

  lemma EscapedByte(c: Byte, rest: seq<Byte>)
    requires !(c == LOWER_X && |rest| >= 2 && IsHex(rest[0]) && IsHex(rest[1]))
    ensures Unescape([BACKSLASH, c] + rest) == [Control(c)] + Unescape(rest)
  {
    var s := [BACKSLASH, c] + rest;
    assert s[2..] == rest;
  }

  lemma StripBoth(a: seq<Byte>, x: seq<Byte>, b: seq<Byte>, y: seq<Byte>)
    requires a + x == b + y && |a| <= |b|
    ensures a == b[..|a|] && x == b[|a|..] + y
  {
    assert (a + x)[..|a|] == a && (a + x)[|a|..] == x;
    assert (b + y)[..|a|] == b[..|a|] && (b + y)[|a|..] == b[|a|..] + y;
  }

  /** Once something is missing, the rest never makes up for it. */
  lemma {:induction false} NoCatchingUp(missing: seq<Byte>, s: seq<Byte>)
    requires missing != [] || (|s| >= 2 && s[0] == BACKSLASH)
    ensures Unescape(Decoded(s)) != missing + s
    decreases |s|
  {
    hide Unescape, Decoded, Control;
    LoneBackslash();
    assert |s| == 1 && s[0] == BACKSLASH ==> s == [BACKSLASH];
    if Unescape(Decoded(s)) == missing + s {
      if s == [] {
        NothingEscaped();
      } else if s[0] != BACKSLASH {
        var w := PlainStep(s);
        assert missing + s == missing + s[..w] + s[w..];
        StripBoth(s[..w], Unescape(Decoded(s[w..])), missing + s[..w], s[w..]);
        NoCatchingUp((missing + s[..w])[w..], s[w..]);
      } else if |s| > 1 {
        var n, o := EscapeStep(s);
        var due := missing + s[..n];
        assert missing + s == due + s[n..];
        assert s[..n][0] == BACKSLASH && s[..n][1] == s[1];
        if |o| > |due| {
          TooShort(o, Unescape(Decoded(s[n..])), missing, s);
        } else {
          StripBoth(o, Unescape(Decoded(s[n..])), due, s[n..]);
          NoCatchingUp(due[|o|..], s[n..]);
        }
      }
    }
  }

  lemma TooShort(o: seq<Byte>, x: seq<Byte>, missing: seq<Byte>, s: seq<Byte>)
    requires |s| >= 2 && s[0] == BACKSLASH && s[1] >= 0x80 && |missing| + 2 < |o| == 4 && o[1] == LOWER_X && IsHex(o[2]) && IsHex(o[3])
    ensures o + x != missing + s
  {
    assert (missing + s)[|missing|] == BACKSLASH && (missing + s)[|missing| + 1] == s[1];
    assert forall i :: 0 <= i < 4 ==> (o + x)[i] == o[i];
  }

  lemma LoneBackslash()
    ensures Unescape(Decoded([BACKSLASH])) == [BACKSLASH]
  {
    var one, none: seq<Byte> := [BACKSLASH], [];
    assert one[1..] == none;
    assert Decoded(one) == one;
    assert Unescape(one) == one + Unescape(none);
  }

  /**
   The text loses nothing of an SSID, UTF-8 or not, exactly if there is no backslash in it but perhaps at its end:
   decoding the text again gives the bytes in just those cases.
   */
  lemma {:induction false} RecoversExactly(s: seq<Byte>)
    requires s != []
    ensures Unescape(Decoded(s)) == s <==> BACKSLASH !in s[..|s| - 1]
    decreases |s|
  {
    hide Unescape, Decoded;
    var before := s[..|s| - 1];
    if s[0] != BACKSLASH {
      var w := PlainStep(s);
      var rest := s[w..];
      assert s == s[..w] + rest;
      if rest == [] {
        NothingEscaped();
        assert forall i :: 0 <= i < |before| ==> before[i] == s[..w][i];
      } else {
        RecoversExactly(rest);
        assert before == s[..w] + rest[..|rest| - 1];
        assert Unescape(Decoded(s)) == s <==> Unescape(Decoded(rest)) == rest by {
          assert (s[..w] + Unescape(Decoded(rest)))[w..] == Unescape(Decoded(rest));
        }
      }
    } else if |s| == 1 {
      LoneBackslash();
      assert s == [BACKSLASH];
    } else {
      NoCatchingUp([], s);
      assert [] + s == s;
      assert before[0] == BACKSLASH;
    }
  }

  lemma NothingEscaped()
    ensures Unescape([]) == [] && Decoded([]) == []
  {
  }

  lemma HexShows(b: Byte)
    ensures Shows(b, [BACKSLASH, LOWER_X] + Hex(b))
  {
  }

  /** With backslashes it can: the byte 0xff and the four characters \\xff come out as the same text. */
  lemma AmbiguousText()
    ensures Decoded([0xFF]) == Decoded([BACKSLASH, LOWER_X, 102, 102])
    ensures !ValidUtf8([0xFF]) && ValidUtf8([BACKSLASH, LOWER_X, 102, 102])
  {
    var t: seq<Byte> := [BACKSLASH, LOWER_X, 102, 102];
    assert Hex(0xFF) == [102, 102];
    assert Decoded([0xFF]) == t + Decoded([]);
    assert t[1..][1..][1..][1..] == [];
    assert ValidUtf8(t[1..][1..][1..]);
    assert ValidUtf8(t[1..][1..]);
    ValidUnchanged(t);
  }

  // ---------------------------------------------------------------- values written and read back

  lemma {:induction false} UnhexHexed(s: seq<Byte>)
    ensures Unhex(Hexed(s)) == Some(s) && (Hexed(s) == [] || IsHex(Hexed(s)[0]))
  {
    if s != [] {
      UnhexHexed(s[1..]);
      var h := Hex(s[0]) + Hexed(s[1..]);
      assert h[2..] == Hexed(s[1..]) && h[0] == Hex(s[0])[0] && h[1] == Hex(s[0])[1];
      assert [s[0]] + s[1..] == s;
    }
  }

  /** An SSID is read back exactly, whatever its bytes. */
  lemma SsidValueReadsBack(ssid: seq<Byte>)
    ensures ReadValue(SsidValue(ssid)) == Some(ssid)
  {
    UnhexHexed(ssid);
  }

  lemma {:induction false} UnhexLowered(s: seq<Byte>)
    requires forall i :: 0 <= i < |s| ==> IsHex(s[i])
    ensures Unhex(Lowered(s)) == Unhex(s)
    decreases |s|
  {
    if |s| >= 2 {
      assert Lowered(s)[2..] == Lowered(s[2..]);
      UnhexLowered(s[2..]);
    }
  }

  /** A passphrase is read back exactly, quotes and backslashes included; a raw key as the same 32 bytes, in lower case. */
  lemma PskValueReadsBack(psk: seq<Byte>)
    ensures ReadValue(PskValue(psk)) == if IsRawKey(psk) then Unhex(psk) else Some(psk)
    ensures IsRawKey(psk) ==> forall c: Byte :: c in PskValue(psk) ==> 48 <= c <= 57 || 97 <= c <= 102
  {
    if IsRawKey(psk) {
      UnhexLowered(psk);
      assert Lowered(psk)[0] != QUOTE && Lowered(psk)[0] != CAPITAL_P;
    } else {
      var t := [QUOTE] + psk + [QUOTE];
      assert LastQuote(t) == |t| - 1;
      assert t[1..|t| - 1] == psk;
    }
  }

  /** The two replacements together escape each byte by itself. */
  function Escaped(v: seq<Byte>): seq<seq<Byte>> {
    seq(|v|, i requires 0 <= i < |v| => if v[i] == BACKSLASH || v[i] == QUOTE then [BACKSLASH, v[i]] else [v[i]])
  }

  lemma {:induction false} ReplacedAppend(a: seq<Byte>, b: seq<Byte>, c: Byte, with: seq<Byte>)
    ensures Replaced(a + b, c, with) == Replaced(a, c, with) + Replaced(b, c, with)
    decreases |a|
  {
    if a == [] {
      assert a + b == b;
    } else {
      assert (a + b)[1..] == a[1..] + b;
      ReplacedAppend(a[1..], b, c, with);
    }
  }

  lemma {:induction false} BothReplaced(v: seq<Byte>)
    ensures Replaced(Replaced(v, BACKSLASH, [BACKSLASH, BACKSLASH]), QUOTE, [BACKSLASH, QUOTE]) == Flat(Escaped(v))
    decreases |v|
  {
    if v != [] {
      var first := if v[0] == BACKSLASH then [BACKSLASH, BACKSLASH] else [v[0]];
      BothReplaced(v[1..]);
      ReplacedAppend(first, Replaced(v[1..], BACKSLASH, [BACKSLASH, BACKSLASH]), QUOTE, [BACKSLASH, QUOTE]);
      assert Escaped(v)[1..] == Escaped(v[1..]);
      FirstReplaced(v[0]);
    }
  }

  lemma FirstReplaced(b: Byte)
    ensures Replaced(if b == BACKSLASH then [BACKSLASH, BACKSLASH] else [b], QUOTE, [BACKSLASH, QUOTE]) ==
            if b == BACKSLASH || b == QUOTE then [BACKSLASH, b] else [b]
  {
    var one, none: seq<Byte> := [b], [];
    assert one[1..] == none && Replaced(none, QUOTE, [BACKSLASH, QUOTE]) == none;
    assert [BACKSLASH, BACKSLASH][1..] == [BACKSLASH];
    assert Replaced(one, QUOTE, [BACKSLASH, QUOTE]) == if b == QUOTE then [BACKSLASH, QUOTE] else one;
  }

  /** An EAP string is read back exactly. */
  lemma StringValueReadsBack(v: seq<Byte>)
    ensures ReadValue(StringValue(v)) == Some(v)
  {
    BothReplaced(v);
    var e := Flat(Escaped(v));
    var t := [CAPITAL_P, QUOTE] + e + [QUOTE];
    assert LastQuote(t) == |t| - 1;
    assert t[2..|t| - 1] == e;
    DecodesPrinted(v, Escaped(v));
  }
}
