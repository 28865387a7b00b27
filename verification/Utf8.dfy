/**
 UTF-8 as the standard library has it: encoding of Unicode scalar values, and the
 lossy decoder that replaces each maximal ill-formed prefix by U+FFFD.
 */
module Utf8 {
  import opened Bytes

  const REPLACEMENT: char := '\U{FFFD}'

  function EncodeChar(c: char): (r: bytes)
    ensures 1 <= |r| <= 4
  {
    var n := c as int;
    if n < 0x80 then [n as byte]
    else if n < 0x800 then [(0xC0 + n / 64) as byte, Cont(n)]
    else if n < 0x1_0000 then [(0xE0 + n / 4096) as byte, Cont(n / 64), Cont(n)]
    else [(0xF0 + n / 262144) as byte, Cont(n / 4096), Cont(n / 64), Cont(n)]
  }

  function Cont(n: int): byte { (0x80 + n % 64) as byte }

  function Encode(s: string): bytes {
    if s == [] then [] else EncodeChar(s[0]) + Encode(s[1..])
  }

  predicate IsCont(b: byte) { 0x80 <= b <= 0xBF }

  /** The second bytes a lead byte admits (Table 3-7 of the Unicode Standard). */
  predicate Second(lead: byte, b: byte) {
    if lead == 0xE0 then 0xA0 <= b <= 0xBF
    else if lead == 0xED then 0x80 <= b <= 0x9F
    else if lead == 0xF0 then 0x90 <= b <= 0xBF
    else if lead == 0xF4 then 0x80 <= b <= 0x8F
    else IsCont(b)
  }

  function Length(lead: byte): nat {
    if lead < 0x80 then 1
    else if 0xC2 <= lead <= 0xDF then 2
    else if 0xE0 <= lead <= 0xEF then 3
    else if 0xF0 <= lead <= 0xF4 then 4
    else 0
  }

  /** The first decoded character and the bytes it took. */
  function DecodeFirst(b: bytes): (r: (char, nat))
    requires b != []
    ensures 1 <= r.1 <= |b|
    ensures forall i :: 1 <= i < r.1 ==> IsCont(b[i])
  {
    var n := Length(b[0]);
    if n == 1 then (b[0] as int as char, 1)
    else if n == 0 || |b| < 2 || !Second(b[0], b[1]) then (REPLACEMENT, 1)
    else if n == 2 then (((b[0] as int - 0xC0) * 64 + b[1] as int - 0x80) as char, 2)
    else if |b| < 3 || !IsCont(b[2]) then (REPLACEMENT, 2)
    else if n == 3 then
      (((b[0] as int - 0xE0) * 4096 + (b[1] as int - 0x80) * 64 + b[2] as int - 0x80) as char, 3)
    else if |b| < 4 || !IsCont(b[3]) then (REPLACEMENT, 3)
    else
      (((b[0] as int - 0xF0) * 262144 + (b[1] as int - 0x80) * 4096 + (b[2] as int - 0x80) * 64 + b[3] as int - 0x80)
       as char, 4)
  }

  function Lossy(b: bytes): string {
    if b == [] then [] else [DecodeFirst(b).0] + Lossy(b[DecodeFirst(b).1..])
  }

  lemma LeadByte(c: char)
    ensures var b := EncodeChar(c)[0]; Length(b) == |EncodeChar(c)| && !IsCont(b)
    ensures |EncodeChar(c)| == 1 <==> (c as int) < 0x80
    ensures forall i :: 1 <= i < |EncodeChar(c)| ==> IsCont(EncodeChar(c)[i])
  {
  }

  lemma DecodeShort(c: char, rest: bytes)
    requires (c as int) < 0x1_0000
    ensures DecodeFirst(EncodeChar(c) + rest) == (c, |EncodeChar(c)|)
  {
    var n := c as int;
    assert n == (n / 4096) * 4096 + (n / 64 % 64) * 64 + n % 64;
    assert 0x800 <= n ==> Second(EncodeChar(c)[0], EncodeChar(c)[1]);
  }

  lemma DecodeLong(c: char, rest: bytes)
    requires 0x1_0000 <= (c as int)
    ensures DecodeFirst(EncodeChar(c) + rest) == (c, |EncodeChar(c)|)
  {
    var n := c as int;
    assert n == (n / 262144) * 262144 + (n / 4096 % 64) * 4096 + (n / 64 % 64) * 64 + n % 64;
    assert Second(EncodeChar(c)[0], EncodeChar(c)[1]);
  }

  lemma DecodeEncoded(c: char, rest: bytes)
    ensures DecodeFirst(EncodeChar(c) + rest) == (c, |EncodeChar(c)|)
  {
    if (c as int) < 0x1_0000 { DecodeShort(c, rest); } else { DecodeLong(c, rest); }
  }

  /** Lossy decoding loses nothing of what was encoded. */
  lemma {:induction false} LossyEncode(s: string)
    ensures Lossy(Encode(s)) == s
  {
    if s != [] {
      DecodeEncoded(s[0], Encode(s[1..]));
      assert Encode(s)[|EncodeChar(s[0])|..] == Encode(s[1..]);
      LossyEncode(s[1..]);
    }
  }

  lemma {:induction false} EncodeAppend(s: string, t: string)
    ensures Encode(s + t) == Encode(s) + Encode(t)
  {
    if s == [] {
      assert s + t == t;
    } else {
      assert (s + t)[1..] == s[1..] + t;
      EncodeAppend(s[1..], t);
    }
  }

  /** Decoding never looks past a byte that continues nothing. */
  lemma {:induction false} LossyAppend(b: bytes, rest: bytes)
    requires rest == [] || !IsCont(rest[0])
    ensures Lossy(b + rest) == Lossy(b) + Lossy(rest)
    decreases |b|
  {
    if b == [] {
      assert b + rest == rest;
    } else {
      FirstAppend(b, rest);
      var k := DecodeFirst(b).1;
      assert (b + rest)[k..] == b[k..] + rest;
      LossyAppend(b[k..], rest);
    }
  }

  lemma FirstAppend(b: bytes, rest: bytes)
    requires b != [] && (rest == [] || !IsCont(rest[0]))
    ensures DecodeFirst(b + rest) == DecodeFirst(b)
  {
    var s := b + rest;
    assert s[0] == b[0];
    assert |b| >= 2 ==> s[1] == b[1];
    assert |b| >= 3 ==> s[2] == b[2];
    assert |b| >= 4 ==> s[3] == b[3];
    assert rest != [] ==> s[|b|] == rest[0];
  }

  predicate IsAscii(s: string) { forall i :: 0 <= i < |s| ==> (s[i] as int) < 0x80 }

  // ---- How many characters mixed text decodes to ----------------------------------

  /** Well-formed characters mixed with stray bytes. */
  datatype Item = Char(c: char) | Stray(b: byte)

  function ItemBytes(i: Item): bytes { if i.Char? then EncodeChar(i.c) else [i.b] }

  function Spell(items: seq<Item>): bytes {
    if items == [] then [] else ItemBytes(items[0]) + Spell(items[1..])
  }

  /** A decoding step never splits a well-formed character: it consumes whole items. */
  lemma {:induction false} StepWhole(items: seq<Item>, k: nat)
    requires 1 <= k <= |Spell(items)| && forall i :: 1 <= i < k ==> IsCont(Spell(items)[i])
    requires items != [] && (items[0].Char? ==> k == |EncodeChar(items[0].c)|)
    ensures exists m :: 1 <= m <= |items| && Spell(items[m..]) == Spell(items)[k..]
  {
    var first, b := ItemBytes(items[0]), Spell(items);
    if k == |first| {
      assert b[k..] == Spell(items[1..]);
    } else {
      var rest := items[1..];
      assert b[1..] == Spell(rest) && IsCont(b[1]);
      if rest[0].Char? { LeadByte(rest[0].c); assert false; }
      forall i | 1 <= i < k - 1 ensures IsCont(Spell(rest)[i]) { assert Spell(rest)[i] == b[i + 1]; }
      StepWhole(rest, k - 1);
      var m :| 1 <= m <= |rest| && Spell(rest[m..]) == Spell(rest)[k - 1..];
      assert items[m + 1..] == rest[m..] && b[k..] == Spell(rest)[k - 1..];
    }
  }

  lemma {:induction false} LossyCount(items: seq<Item>)
    ensures |Lossy(Spell(items))| <= |items|
    decreases |items|
  {
    if items != [] {
      var b := Spell(items);
      var k := DecodeFirst(b).1;
      if items[0].Char? { DecodeEncoded(items[0].c, Spell(items[1..])); }
      StepWhole(items, k);
      var m :| 1 <= m <= |items| && Spell(items[m..]) == b[k..];
      LossyCount(items[m..]);
    }
  }
}
