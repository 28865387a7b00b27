/**
 Percent-encoding: the one-layer decoder whose meaning three call sites share, and the audit-field encoder it undoes.
 */
module Percent {
  import opened Options
  import opened Bytes
  import opened Utf8

  const PERCENT: byte := 0x25
  const SLASH: byte := 0x2F
  const PERCENT_DECODE_MAX_ROUNDS: nat := 8

  // ---- One layer of %XX --------------------------------------------------------

  predicate IsHex(b: byte) { 0x30 <= b <= 0x39 || 0x41 <= b <= 0x46 || 0x61 <= b <= 0x66 }

  function HexVal(b: byte): (r: Option<byte>)
    ensures r.Some? <==> IsHex(b)
    ensures r.Some? ==> r.value < 16
  {
    if 0x30 <= b <= 0x39 then Some(b - 0x30)
    else if 0x61 <= b <= 0x66 then Some(b - 0x61 + 10)
    else if 0x41 <= b <= 0x46 then Some(b - 0x41 + 10)
    else None
  }

  /** An escape starts at the front of `b`. */
  predicate Escape(b: bytes) { |b| >= 3 && b[0] == PERCENT && IsHex(b[1]) && IsHex(b[2]) }

  function EscapeByte(b: bytes): byte
    requires Escape(b)
  {
    HexVal(b[1]).value * 16 + HexVal(b[2]).value
  }

  function DecodeBytes(b: bytes): bytes {
    if b == [] then []
    else if Escape(b) then [EscapeByte(b)] + DecodeBytes(b[3..])
    else [b[0]] + DecodeBytes(b[1..])
  }

  function DecodeOnce(s: string): string { Lossy(DecodeBytes(Encode(s))) }

  lemma DecodeStep(b: bytes, i: nat)
    requires i < |b|
    ensures Escape(b[i..]) <==> i + 2 < |b| && b[i] == PERCENT && IsHex(b[i + 1]) && IsHex(b[i + 2])
    ensures Escape(b[i..]) ==> DecodeBytes(b[i..])
                               == [HexVal(b[i + 1]).value * 16 + HexVal(b[i + 2]).value] + DecodeBytes(b[i + 3..])
    ensures !Escape(b[i..]) ==> DecodeBytes(b[i..]) == [b[i]] + DecodeBytes(b[i + 1..])
  {
    assert b[i..][1..] == b[i + 1..];
    if Escape(b[i..]) { assert b[i..][3..] == b[i + 3..]; }
  }

  /** `out` decodes the first `i` bytes. */
  ghost predicate Decoding(b: bytes, i: nat, out: bytes) { i <= |b| && DecodeBytes(b) == out + DecodeBytes(b[i..]) }

  lemma DecodeMore(b: bytes, i: nat, out: bytes)
    requires Decoding(b, i, out) && i < |b|
    ensures if i + 2 < |b| && b[i] == PERCENT && IsHex(b[i + 1]) && IsHex(b[i + 2]) then
              Decoding(b, i + 3, out + [HexVal(b[i + 1]).value * 16 + HexVal(b[i + 2]).value])
            else Decoding(b, i + 1, out + [b[i]])
  {
    DecodeStep(b, i);
  }

  method PercentDecodeOnce(input: string) returns (r: string)
    ensures r == DecodeOnce(input)
  {
    var b := Encode(input);
    var out: bytes, i := [], 0;
    while i < |b|
      invariant Decoding(b, i, out)
    {
      DecodeMore(b, i, out);
      if b[i] == PERCENT && i + 2 < |b| {
        var hi, lo := HexVal(b[i + 1]), HexVal(b[i + 2]);
        if hi.Some? && lo.Some? {
          out := out + [hi.value * 16 + lo.value];
          i := i + 3;
          continue;
        }
      }
      out := out + [b[i]];
      i := i + 1;
    }
    assert b[i..] == [];
    assert out == DecodeBytes(b);
    r := Lossy(out);
  }

  /** The schema module's own decoder: an early return when there is no '%', then its own loop. */
  method SchemaPercentDecode(s: string) returns (r: string)
    ensures r == DecodeOnce(s)
  {
    if '%' !in s {
      NoEscapeDecodes(s);
      return s;
    }
    var b := Encode(s);
    var out := DecodeLoop(b);
    r := Lossy(out);
  }

  method DecodeLoop(b: bytes) returns (out: bytes)
    ensures out == DecodeBytes(b)
  {
    out := [];
    var i := 0;
    while i < |b|
      invariant Decoding(b, i, out)
    {
      DecodeMore(b, i, out);
      if b[i] == PERCENT && i + 2 < |b| && HexVal(b[i + 1]).Some? && HexVal(b[i + 2]).Some? {
        out := out + [HexVal(b[i + 1]).value * 16 + HexVal(b[i + 2]).value];
        i := i + 3;
      } else {
        out := out + [b[i]];
        i := i + 1;
      }
    }
    assert b[i..] == [];
  }

  /** The hexadecimal digits in both cases, by value. */
  const LOWER_HEX := "0123456789abcdef"
  const UPPER_HEX := "0123456789ABCDEF"

  /** `b` spells the digit `n` in some case. */
  predicate SpellsDigit(b: byte, n: nat) {
    n < 16 && (b as int == LOWER_HEX[n] as int || b as int == UPPER_HEX[n] as int)
  }

  lemma DigitSpelled(b: byte, n: nat)
    requires SpellsDigit(b, n)
    ensures HexVal(b) == Some(n as byte)
  {
  }

  /** An escape decodes to the byte its two digits spell, whatever their case. */
  lemma EscapeValue(hi: byte, lo: byte, v: byte, rest: bytes)
    requires SpellsDigit(hi, v as int / 16) && SpellsDigit(lo, v as int % 16)
    ensures DecodeBytes([PERCENT, hi, lo] + rest) == [v] + DecodeBytes(rest)
  {
    var b := [PERCENT, hi, lo] + rest;
    DigitSpelled(hi, v as int / 16);
    DigitSpelled(lo, v as int % 16);
    assert b[3..] == rest && Escape(b);
    assert v == (v as int / 16) as byte * 16 + (v as int % 16) as byte;
  }

  /** A '%' that two digits do not follow is kept as it is. */
  lemma StrayPercent(b: bytes)
    requires b != [] && b[0] == PERCENT
    requires |b| < 3 || forall h, l :: !(SpellsDigit(b[1], h) && SpellsDigit(b[2], l))
    ensures DecodeBytes(b) == [PERCENT] + DecodeBytes(b[1..])
  {
    if Escape(b) {
      HexIsSpelled(b[1]);
      HexIsSpelled(b[2]);
      assert false;
    }
  }

  lemma HexIsSpelled(b: byte)
    requires IsHex(b)
    ensures SpellsDigit(b, HexVal(b).value as int)
  {
  }

  // ---- The same decoder seen on characters ------------------------------------------

  predicate IsHexChar(c: char) { '0' <= c <= '9' || 'A' <= c <= 'F' || 'a' <= c <= 'f' }

  predicate EscapeAt(s: string, i: nat) {
    i + 2 < |s| && s[i] == '%' && IsHexChar(s[i + 1]) && IsHexChar(s[i + 2])
  }

  /** `s` spells an escape somewhere. */
  ghost predicate HasEscape(s: string) { exists i: nat :: EscapeAt(s, i) }

  /** What one layer of decoding leaves: characters, and a stray byte for each escape. */
  function Layer(s: string): seq<Item> {
    if s == [] then []
    else if EscapeAt(s, 0) then [Stray(EscapeByte([PERCENT, s[1] as int as byte, s[2] as int as byte]))] + Layer(s[3..])
    else [Char(s[0])] + Layer(s[1..])
  }

  lemma EncodeHex(s: string, i: nat)
    requires i < |s| && (s[i] as int) < 0x80
    requires forall j :: 0 <= j < i ==> (s[j] as int) < 0x80
    ensures |Encode(s)| > i && Encode(s)[i] == s[i] as int as byte
  {
    if i > 0 { EncodeHex(s[1..], i - 1); }
  }

  /** An escape in the bytes is an escape in the characters. */
  lemma EscapeAgrees(s: string)
    requires s != []
    ensures Escape(Encode(s)) <==> EscapeAt(s, 0)
    ensures EscapeAt(s, 0) ==> Encode(s)[..3] == [PERCENT, s[1] as int as byte, s[2] as int as byte]
                               && Encode(s)[3..] == Encode(s[3..])
  {
    var b := Encode(s);
    LeadByte(s[0]);
    if EscapeAt(s, 0) {
      EncodeHex(s, 0);
      EncodeHex(s, 1);
      EncodeHex(s, 2);
      assert Encode(s[1..]) == EncodeChar(s[1]) + Encode(s[1..][1..]);
      assert Encode(s[2..]) == EncodeChar(s[2]) + Encode(s[2..][1..]);
      assert s[1..][1..] == s[2..] && s[2..][1..] == s[3..];
    } else if Escape(b) {
      EscapeBack(s);
      assert false;
    }
  }

  /** The three bytes of an escape are three ASCII characters. */
  lemma EscapeBack(s: string)
    requires s != [] && Escape(Encode(s))
    ensures EscapeAt(s, 0)
  {
    var b := Encode(s);
    LeadByte(s[0]);
    assert b[0] == EncodeChar(s[0])[0];
    assert Encode(s[1..]) == b[1..];
    LeadByte(s[1]);
    assert b[1] == EncodeChar(s[1])[0];
    assert Encode(s[1..][1..]) == b[2..] && s[1..][1..] == s[2..];
    LeadByte(s[2]);
    assert b[2] == EncodeChar(s[2])[0];
  }

  /** Bytes that are not '%' are copied. */
  lemma {:induction false} DecodeCopies(front: bytes, back: bytes)
    requires forall i :: 0 <= i < |front| ==> front[i] != PERCENT
    ensures DecodeBytes(front + back) == front + DecodeBytes(back)
  {
    if front == [] {
      assert front + back == back;
    } else {
      assert (front + back)[1..] == front[1..] + back;
      DecodeCopies(front[1..], back);
    }
  }

  /** Byte-level decoding of an encoded string is the character-level layer, spelled out. */
  lemma {:induction false} DecodeIsLayer(s: string)
    ensures DecodeBytes(Encode(s)) == Spell(Layer(s))
  {
    if s != [] {
      EscapeAgrees(s);
      if EscapeAt(s, 0) {
        DecodeIsLayer(s[3..]);
        assert Encode(s)[0] == Encode(s)[..3][0] && Encode(s)[1] == Encode(s)[..3][1]
               && Encode(s)[2] == Encode(s)[..3][2];
      } else {
        DecodeIsLayer(s[1..]);
        LeadByte(s[0]);
        if s[0] == '%' {
          assert Encode(s)[1..] == Encode(s[1..]);
        } else {
          DecodeCopies(EncodeChar(s[0]), Encode(s[1..]));
        }
      }
    }
  }

  lemma {:induction false} LayerShrinks(s: string, i: nat)
    requires EscapeAt(s, i)
    ensures |Layer(s)| < |s|
    decreases |s|
  {
    LayerBound(s);
    if !EscapeAt(s, 0) {
      assert EscapeAt(s[1..], i - 1);
      LayerShrinks(s[1..], i - 1);
    } else {
      LayerBound(s[3..]);
    }
  }

  lemma {:induction false} LayerBound(s: string)
    ensures |Layer(s)| <= |s|
    decreases |s|
  {
    if s != [] {
      if EscapeAt(s, 0) { LayerBound(s[3..]); } else { LayerBound(s[1..]); }
    }
  }

  lemma {:induction false} LayerIdentity(s: string)
    requires !HasEscape(s)
    ensures Spell(Layer(s)) == Encode(s)
  {
    if s != [] {
      assert forall i: nat :: EscapeAt(s[1..], i) == EscapeAt(s, i + 1);
      assert !EscapeAt(s, 0);
      LayerIdentity(s[1..]);
    }
  }

  /** One layer of decoding changes a string exactly when it spells an escape, and then shortens it. */
  lemma DecodeFixed(s: string)
    ensures DecodeOnce(s) == s <==> !HasEscape(s)
    ensures HasEscape(s) ==> |DecodeOnce(s)| < |s|
  {
    DecodeIsLayer(s);
    if HasEscape(s) {
      var i: nat :| EscapeAt(s, i);
      LayerShrinks(s, i);
      LossyCount(Layer(s));
    } else {
      LayerIdentity(s);
      LossyEncode(s);
    }
  }

  lemma NoEscapeDecodes(s: string)
    requires '%' !in s
    ensures DecodeOnce(s) == s
  {
    forall i: nat ensures !EscapeAt(s, i) { if i < |s| { assert s[i] in s; } }
    DecodeFixed(s);
  }

  lemma {:induction false} DecodeBytesSlash(a: bytes, b: bytes)
    ensures DecodeBytes(a + [SLASH] + b) == DecodeBytes(a) + [SLASH] + DecodeBytes(b)
    decreases |a|
  {
    var s := a + [SLASH] + b;
    if a == [] {
      assert s[1..] == b;
    } else {
      assert s[0] == a[0] && (|a| >= 2 ==> s[1] == a[1]) && (|a| >= 3 ==> s[2] == a[2]) && s[|a|] == SLASH;
      assert Escape(s) <==> Escape(a);
      var k := if Escape(a) then 3 else 1;
      assert s[k..] == a[k..] + [SLASH] + b;
      DecodeBytesSlash(a[k..], b);
    }
  }

  /** No escape and no character reaches across a '/': one layer of decoding works piece by piece. */
  lemma DecodeSlash(s: string, t: string)
    ensures DecodeOnce(s + "/" + t) == DecodeOnce(s) + "/" + DecodeOnce(t)
  {
    EncodeSlash(s, t);
    DecodeBytesSlash(Encode(s), Encode(t));
    LossySlash(DecodeBytes(Encode(s)), DecodeBytes(Encode(t)));
  }

  lemma EncodeSlash(s: string, t: string)
    ensures Encode(s + "/" + t) == Encode(s) + [SLASH] + Encode(t)
  {
    EncodeAppend(s + "/", t);
    EncodeAppend(s, "/");
    assert Encode("/") == [SLASH] by { assert "/"[1..] == ""; }
  }

  lemma LossySlash(a: bytes, b: bytes)
    ensures Lossy(a + [SLASH] + b) == Lossy(a) + "/" + Lossy(b)
  {
    assert a + [SLASH] + b == a + ([SLASH] + b);
    LossyAppend(a, [SLASH] + b);
    assert ([SLASH] + b)[1..] == b;
  }

  lemma DecodeHead(s: string)
    requires s != [] && s[0] != '%'
    ensures DecodeOnce(s) == [s[0]] + DecodeOnce(s[1..])
  {
    DecodeIsLayer(s);
    DecodeIsLayer(s[1..]);
    var rest := Spell(Layer(s[1..]));
    assert Spell(Layer(s)) == EncodeChar(s[0]) + rest;
    DecodeEncoded(s[0], rest);
    assert (EncodeChar(s[0]) + rest)[|EncodeChar(s[0])|..] == rest;
  }

  lemma DecodeEscapedSlash(t: string)
    ensures DecodeOnce("%2F" + t) == "/" + DecodeOnce(t)
  {
    var b: bytes := [0x25, 0x32, 0x46];
    EncodeAppend("%2F", t);
    assert "%2F"[1..] == "2F" && "2F"[1..] == "F" && "F"[1..] == "";
    assert Encode("%2F") == b;
    var all, rest := b + Encode(t), DecodeBytes(Encode(t));
    assert all[3..] == Encode(t) && Escape(all) && EscapeByte(all) == SLASH;
    assert ([SLASH] + rest)[1..] == rest;
  }

  // ---- The audit-field encoder --------------------------------------------------------

  /** The unreserved characters of section 2.3 of RFC 3986. */
  predicate Unreserved(b: byte) {
    0x41 <= b <= 0x5A || 0x61 <= b <= 0x7A || 0x30 <= b <= 0x39 || b == 0x2D || b == 0x2E || b == 0x5F || b == 0x7E
  }

  function HexDigit(n: byte): (r: byte)
    requires n < 16
    ensures IsHex(r) && HexVal(r) == Some(n) && !(0x61 <= r <= 0x66)
  {
    if n < 10 then 0x30 + n else 0x41 + (n - 10)
  }

  function EncodeByte(b: byte): bytes {
    if Unreserved(b) then [b] else [PERCENT, HexDigit(b / 16), HexDigit(b % 16)]
  }

  function FieldBytes(b: bytes): bytes {
    if b == [] then [] else EncodeByte(b[0]) + FieldBytes(b[1..])
  }

  /** An ASCII byte string as text. */
  predicate AllAscii(b: bytes) { forall i :: 0 <= i < |b| ==> b[i] < 0x80 }

  function AsciiText(b: bytes): (r: string)
    requires AllAscii(b)
    ensures |r| == |b| && forall i :: 0 <= i < |b| ==> r[i] as int == b[i] as int
  {
    seq(|b|, i requires 0 <= i < |b| => b[i] as int as char)
  }

  function FieldValue(value: string): string {
    FieldAscii(Encode(value));
    AsciiText(FieldBytes(Encode(value)))
  }

  lemma {:induction false} FieldAscii(b: bytes)
    ensures AllAscii(FieldBytes(b))
  {
    if b != [] { FieldAscii(b[1..]); }
  }

  method EncodeAuditFieldValue(value: string) returns (out: string)
    ensures out == FieldValue(value)
  {
    var b := Encode(value);
    ghost var done: bytes := [];
    out := [];
    assert b[0..] == b;
    for i := 0 to |b|
      invariant FieldBytes(b) == done + FieldBytes(b[i..])
      invariant AllAscii(done) && out == AsciiText(done)
    {
      FieldStep(b, i, done);
      AsciiByte(b[i]);
      AsciiAppend(done, EncodeByte(b[i]));
      if Unreserved(b[i]) {
        out := out + [b[i] as int as char];
      } else {
        out := out + ['%', HexDigit(b[i] / 16) as int as char, HexDigit(b[i] % 16) as int as char];
      }
      done := done + EncodeByte(b[i]);
    }
    assert b[|b|..] == [] && done == FieldBytes(b);
  }

  lemma FieldStep(b: bytes, i: nat, done: bytes)
    requires i < |b|
    ensures done + FieldBytes(b[i..]) == done + EncodeByte(b[i]) + FieldBytes(b[i + 1..])
  {
    assert b[i..][0] == b[i] && b[i..][1..] == b[i + 1..];
  }

  lemma AsciiByte(b: byte)
    ensures AllAscii(EncodeByte(b))
    ensures AsciiText(EncodeByte(b)) == if Unreserved(b) then [b as int as char]
                                        else ['%', HexDigit(b / 16) as int as char, HexDigit(b % 16) as int as char]
  {
  }

  lemma AsciiAppend(a: bytes, b: bytes)
    requires AllAscii(a) && AllAscii(b)
    ensures AllAscii(a + b) && AsciiText(a + b) == AsciiText(a) + AsciiText(b)
  {
  }

  lemma {:induction false} EncodeAscii(b: bytes)
    requires AllAscii(b)
    ensures Encode(AsciiText(b)) == b
  {
    if b != [] {
      EncodeAscii(b[1..]);
      assert AsciiText(b)[1..] == AsciiText(b[1..]);
    }
  }

  lemma {:induction false} DecodeField(b: bytes)
    ensures DecodeBytes(FieldBytes(b)) == b
  {
    if b != [] {
      DecodeField(b[1..]);
      var e, rest := EncodeByte(b[0]), FieldBytes(b[1..]);
      if Unreserved(b[0]) {
        assert (e + rest)[1..] == rest;
      } else {
        assert Escape(e + rest) && (e + rest)[3..] == rest;
        assert b[0] == b[0] / 16 * 16 + b[0] % 16;
      }
    }
  }

  /** Decoding undoes the audit-field encoding of every string. */
  lemma FieldRoundTrip(value: string)
    ensures DecodeOnce(FieldValue(value)) == value
  {
    FieldAscii(Encode(value));
    EncodeAscii(FieldBytes(Encode(value)));
    DecodeField(Encode(value));
    LossyEncode(value);
  }

  /** ... so no two values share an encoding. */
  lemma FieldInjective(v: string, w: string)
    requires FieldValue(v) == FieldValue(w)
    ensures v == w
  {
    FieldRoundTrip(v);
    FieldRoundTrip(w);
  }

  /** Unreserved bytes and %XX triples only (sections 2.1 and 2.3 of RFC 3986). */
  predicate WellEncoded(b: bytes) {
    b == [] || (Unreserved(b[0]) && WellEncoded(b[1..])) || (Escape(b) && WellEncoded(b[3..]))
  }

  lemma {:induction false} FieldWellEncoded(b: bytes)
    ensures WellEncoded(FieldBytes(b))
  {
    if b != [] {
      FieldWellEncoded(b[1..]);
      var e, rest := EncodeByte(b[0]), FieldBytes(b[1..]);
      assert (e + rest)[|e|..] == rest;
    }
  }

  /** A well-encoded value forges no separator: no space, '=', ';', quote or control. */
  lemma {:induction false} WellEncodedInert(b: bytes, i: nat)
    requires WellEncoded(b) && i < |b|
    ensures Unreserved(b[i]) || b[i] == PERCENT
    decreases |b|
  {
    if Unreserved(b[0]) && WellEncoded(b[1..]) {
      if i > 0 { WellEncodedInert(b[1..], i - 1); }
    } else if i >= 3 {
      WellEncodedInert(b[3..], i - 3);
    }
  }
}
