/**
 The IPv4 parser of section 3.5 of the WHATWG URL Standard, as the local-authority
 check uses it: one to four parts, each decimal, hexadecimal or octal.
 */
module Ipv4 {
  import opened Options
  import opened Numerals
  import opened Text

  const U32: int := 0x1_0000_0000

  function Number(part: string): Option<nat> {
    if part == "" then None
    else if StartsWith(part, "0x") || StartsWith(part, "0X") then
      if |part| == 2 then Some(0) else FromStrRadix(part[2..], 16)
    else if !AllDigits(part, 10) then None
    else if |part| > 1 && part[0] == '0' then FromStrRadix(part, 8)
    else FromStrRadix(part, 10)
  }

  /** The host's parts, a single trailing empty one dropped. */
  function Parts(host: string): seq<string> {
    var parts := Split(host, '.');
    if |parts| > 1 && parts[|parts| - 1] == "" then parts[..|parts| - 1] else parts
  }

  function Numbers(parts: seq<string>): Option<seq<nat>> {
    if parts == [] then Some([])
    else
      var init := Numbers(parts[..|parts| - 1]);
      var last := Number(parts[|parts| - 1]);
      if init.None? || last.None? then None else Some(init.value + [last.value])
  }

  function Pow256(n: nat): nat { if n == 0 then 1 else 256 * Pow256(n - 1) }

  /** The dotted parts read as base-256 digits, the last one filling the remaining width. */
  function Horner(nums: seq<nat>): nat {
    if nums == [] then 0 else Horner(nums[..|nums| - 1]) * 256 + nums[|nums| - 1]
  }

  function Address(nums: seq<nat>): nat
    requires 1 <= |nums| <= 4
  {
    Horner(nums[..|nums| - 1]) * Pow256(5 - |nums|) + nums[|nums| - 1]
  }

  /** Non-final parts are bytes and the final one fits what they leave. */
  predicate InRange(nums: seq<nat>) {
    && 1 <= |nums| <= 4
    && (forall i :: 0 <= i < |nums| - 1 ==> nums[i] <= 255)
    && nums[|nums| - 1] < Pow256(5 - |nums|)
  }

  function Parse(host: string): Option<nat> {
    var parts := Parts(host);
    if |parts| > 4 || "" in parts then None
    else
      var nums := Numbers(parts);
      if nums.None? || !InRange(nums.value) then None else Some(Address(nums.value))
  }

  lemma {:induction false} HornerBound(nums: seq<nat>)
    requires |nums| <= 3 && forall i :: 0 <= i < |nums| ==> nums[i] <= 255
    ensures Horner(nums) < Pow256(|nums|)
  {
    if nums != [] { HornerBound(nums[..|nums| - 1]); }
  }

  /** An accepted address fits 32 bits, so the cast to `u32` drops nothing. */
  lemma AddressFits(nums: seq<nat>)
    requires InRange(nums)
    ensures Address(nums) < U32
  {
    var n := |nums|;
    HornerBound(nums[..n - 1]);
    assert Pow256(1) == 256 && Pow256(2) == 65536 && Pow256(3) == 16777216 && Pow256(4) == U32;
    assert n == 1 || n == 2 || n == 3 || n == 4;
  }

  /** The parser's left-to-right sum, part `i` weighted by 256^(3-i). */
  function WeightedSum(nums: seq<nat>, k: nat): nat
    requires k <= |nums| && k <= 3
  {
    if k == 0 then 0 else WeightedSum(nums, k - 1) + nums[k - 1] * Pow256(4 - k)
  }

  lemma {:induction false} WeightedIsHorner(nums: seq<nat>, k: nat)
    requires k <= |nums| && k <= 3
    ensures WeightedSum(nums, k) == Horner(nums[..k]) * Pow256(4 - k)
  {
    if k > 0 {
      WeightedIsHorner(nums, k - 1);
      assert nums[..k][..k - 1] == nums[..k - 1];
      assert Pow256(4 - (k - 1)) == 256 * Pow256(4 - k);
      MulSpread(Horner(nums[..k - 1]), nums[k - 1], Pow256(4 - k));
    }
  }

  lemma MulSpread(a: nat, b: nat, p: nat)
    ensures a * (256 * p) + b * p == (a * 256 + b) * p
  {
  }

  /** Parse every part, stopping at the first that is no number. */
  method Collect(parts: seq<string>) returns (r: Option<seq<nat>>)
    ensures r == Numbers(parts)
  {
    var nums: seq<nat> := [];
    for i := 0 to |parts|
      invariant Numbers(parts[..i]) == Some(nums)
    {
      assert parts[..i + 1][..i] == parts[..i];
      var v := Number(parts[i]);
      if v.None? {
        NumbersStop(parts, i);
        return None;
      }
      nums := nums + [v.value];
    }
    assert parts[..|parts|] == parts;
    return Some(nums);
  }

  /** The parser's accumulation and its cast to 32 bits. */
  method Fold(nums: seq<nat>) returns (addr: nat)
    requires InRange(nums)
    ensures addr == Address(nums)
  {
    var n := |nums|;
    var sum := nums[n - 1];
    for i := 0 to n - 1
      invariant sum == nums[n - 1] + WeightedSum(nums, i)
    {
      sum := sum + nums[i] * Pow256(3 - i);
    }
    WeightedIsHorner(nums, n - 1);
    AddressFits(nums);
    addr := sum % U32;
  }

  method ParseIpv4Whatwg(host: string) returns (r: Option<nat>)
    ensures r == Parse(host)
    ensures r.Some? ==> r.value < U32
  {
    var parts := Split(host, '.');
    if |parts| > 1 && parts[|parts| - 1] == "" { parts := parts[..|parts| - 1]; }
    if |parts| > 4 || "" in parts { return None; }
    var nums := Collect(parts);
    if nums.None? || !InRange(nums.value) { return None; }
    var addr := Fold(nums.value);
    AddressFits(nums.value);
    return Some(addr);
  }

  lemma {:induction false} NumbersStop(parts: seq<string>, i: nat)
    requires i < |parts| && Number(parts[i]).None?
    ensures Numbers(parts).None?
    decreases |parts|
  {
    if i < |parts| - 1 {
      assert parts[..|parts| - 1][i] == parts[i];
      NumbersStop(parts[..|parts| - 1], i);
    }
  }

  // ---- Printing and parsing back ---------------------------------------------------

  lemma DecimalNumber(n: nat)
    requires n < U32
    ensures Number(Decimal(n)) == Some(n)
  {
    DecimalValue(n);
  }

  /** An address split into `k` parts: `k - 1` leading bytes, the rest in the last part. */
  function Form(a: nat, k: nat): seq<nat>
    requires 1 <= k <= 4
  {
    match k
    case 1 => [a]
    case 2 => [a / 0x100_0000, a % 0x100_0000]
    case 3 => [a / 0x100_0000, a / 0x1_0000 % 256, a % 0x1_0000]
    case _ => [a / 0x100_0000, a / 0x1_0000 % 256, a / 256 % 256, a % 256]
  }

  function Printed(nums: seq<nat>): (r: seq<string>)
    ensures |r| == |nums| && forall i :: 0 <= i < |nums| ==> r[i] == Decimal(nums[i])
  {
    seq(|nums|, i requires 0 <= i < |nums| => Decimal(nums[i]))
  }

  lemma {:induction false} NumbersPrinted(nums: seq<nat>)
    requires forall i :: 0 <= i < |nums| ==> nums[i] < U32
    ensures Numbers(Printed(nums)) == Some(nums)
  {
    if nums != [] {
      var n := |nums| - 1;
      NumbersPrinted(nums[..n]);
      DecimalNumber(nums[n]);
      assert Printed(nums)[..n] == Printed(nums[..n]);
      assert nums[..n] + [nums[n]] == nums;
    }
  }

  lemma FormAddress(a: nat, k: nat)
    requires 1 <= k <= 4 && a < U32
    ensures InRange(Form(a, k)) && Address(Form(a, k)) == a
    ensures forall i :: 0 <= i < k ==> Form(a, k)[i] < U32
  {
    var f := Form(a, k);
    assert Pow256(1) == 256 && Pow256(2) == 65536 && Pow256(3) == 16777216 && Pow256(4) == U32;
    FormDigits(a);
    if k == 1 {
      HornerShort(f[..0]);
    } else if k == 2 {
      HornerShort(f[..1]);
    } else if k == 3 {
      HornerShort(f[..2]);
    } else {
      HornerShort(f[..3]);
    }
  }

  lemma FormDigits(a: nat)
    requires a < U32
    ensures var h, m, l := a / 0x100_0000, a / 0x1_0000 % 256, a / 256 % 256;
            && h <= 255 && h * 0x100_0000 + a % 0x100_0000 == a
            && (h * 256 + m) * 0x1_0000 + a % 0x1_0000 == a
            && ((h * 256 + m) * 256 + l) * 256 + a % 256 == a
  {
    TwoBytes(a / 0x1_0000, a / 0x100_0000);
    TwoBytes(a / 256, a / 0x1_0000);
    assert a / 0x1_0000 == a / 0x100_0000 * 256 + a / 0x1_0000 % 256;
    assert a / 256 == a / 0x1_0000 * 256 + a / 256 % 256;
    assert a == a / 256 * 256 + a % 256 && a == a / 0x1_0000 * 0x1_0000 + a % 0x1_0000;
  }

  lemma TwoBytes(wide: nat, narrow: nat)
    requires narrow == wide / 256
    ensures wide == narrow * 256 + wide % 256
  {
  }

  lemma HornerShort(nums: seq<nat>)
    requires |nums| <= 3
    ensures |nums| == 0 ==> Horner(nums) == 0
    ensures |nums| == 1 ==> Horner(nums) == nums[0]
    ensures |nums| == 2 ==> Horner(nums) == nums[0] * 256 + nums[1]
    ensures |nums| == 3 ==> Horner(nums) == (nums[0] * 256 + nums[1]) * 256 + nums[2]
  {
    if nums != [] { HornerShort(nums[..|nums| - 1]); }
  }

  lemma ParseParts(host: string, parts: seq<string>, nums: seq<nat>)
    requires Split(host, '.') == parts && 1 <= |parts| <= 4 && |nums| == |parts|
    requires (forall i :: 0 <= i < |parts| ==> parts[i] != "") && Numbers(parts) == Some(nums) && InRange(nums)
    ensures Parse(host) == Some(Address(nums))
  {
    assert Parts(host) == parts;
  }

  /** Every 32-bit address, printed in any of its one- to four-part decimal forms, parses back to itself. */
  lemma PrintedParses(a: nat, k: nat)
    requires 1 <= k <= 4 && a < U32
    ensures Parse(Join(Printed(Form(a, k)), '.')) == Some(a)
  {
    var nums := Form(a, k);
    var parts := Printed(nums);
    FormAddress(a, k);
    forall i | 0 <= i < k ensures '.' !in parts[i] && parts[i] != "" { DecimalValue(nums[i]); }
    SplitJoin(parts, '.');
    NumbersPrinted(nums);
    ParseParts(Join(parts, '.'), parts, nums);
  }

  // ---- Other spellings of a part -----------------------------------------------------------

  /** A part spelled in decimal, in hexadecimal of either case, or in octal behind zeros. */
  ghost predicate SpellsPart(part: string, n: nat) {
    || part == Decimal(n)
    || (|part| > 2 && part[0] == '0' && (part[1] == 'x' || part[1] == 'X') && Spells(part[2..], n, 16))
    || (|part| > 1 && part[0] == '0' && Spells(part[1..], n, 8))
  }

  lemma HexNumber(part: string, n: nat)
    requires n < U32 && |part| > 2 && part[0] == '0' && (part[1] == 'x' || part[1] == 'X') && Spells(part[2..], n, 16)
    ensures Number(part) == Some(n) && '.' !in part
  {
    SpellsValue(part[2..], n, 16);
    assert part == part[..2] + part[2..] && part[..2] == [part[0], part[1]];
  }

  lemma {:induction false} LeadingZero(s: string, radix: nat)
    ensures Value("0" + s, radix) == Value(s, radix)
  {
    if s == [] {
      assert "0" + s == "0" && "0"[..0] == "";
    } else {
      assert ("0" + s)[..|s|] == "0" + s[..|s| - 1];
      LeadingZero(s[..|s| - 1], radix);
    }
  }

  lemma OctalNumber(part: string, n: nat)
    requires n < U32 && |part| > 1 && part[0] == '0' && Spells(part[1..], n, 8)
    ensures Number(part) == Some(n) && '.' !in part
  {
    var s := part[1..];
    SpellsValue(s, n, 8);
    LeadingZero(s, 8);
    assert part == "0" + s;
    forall i | 0 <= i < |part| ensures DigitVal(part[i]) < 8 { if i > 0 { assert part[i] == s[i - 1]; } }
    assert DigitVal(part[1]) < 8 by { assert part[1] == s[0]; }
  }

  lemma PartNumber(part: string, n: nat)
    requires n < U32 && SpellsPart(part, n)
    ensures Number(part) == Some(n) && part != "" && '.' !in part
  {
    if part == Decimal(n) {
      DecimalNumber(n);
      DecimalValue(n);
    } else if |part| > 1 && part[0] == '0' && Spells(part[1..], n, 8) {
      OctalNumber(part, n);
    } else {
      HexNumber(part, n);
    }
  }

  lemma {:induction false} NumbersSpelled(parts: seq<string>, nums: seq<nat>)
    requires |parts| == |nums| && forall i :: 0 <= i < |nums| ==> nums[i] < U32 && SpellsPart(parts[i], nums[i])
    ensures Numbers(parts) == Some(nums)
  {
    if nums != [] {
      var n := |nums| - 1;
      NumbersSpelled(parts[..n], nums[..n]);
      PartNumber(parts[n], nums[n]);
      assert nums[..n] + [nums[n]] == nums;
    }
  }

  /** Every 32-bit address in any of its forms, each part in any radix and case, parses to itself. */
  lemma SpelledParses(a: nat, k: nat, parts: seq<string>)
    requires 1 <= k <= 4 && a < U32 && |parts| == k && forall i :: 0 <= i < k ==> SpellsPart(parts[i], Form(a, k)[i])
    ensures Parse(Join(parts, '.')) == Some(a)
  {
    var nums := Form(a, k);
    FormAddress(a, k);
    forall i | 0 <= i < k ensures '.' !in parts[i] && parts[i] != "" { PartNumber(parts[i], nums[i]); }
    SplitJoin(parts, '.');
    NumbersSpelled(parts, nums);
    ParseParts(Join(parts, '.'), parts, nums);
  }
}
