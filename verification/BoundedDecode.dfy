/**
 Bounded percent-decoding of filesystem arguments: decode one layer, strip the
 controls that can split a scheme, and repeat to a fixed point within eight rounds.
 */
module BoundedDecode {
  import opened Options
  import opened Percent

  const NUL: char := '\0'

  datatype Fault = NulPath | Unstable | NotLocal

  datatype Decoded = Ok(text: string) | Err(fault: Fault)

  /** C0 but not NUL, DEL, C1, and the two Unicode line separators. */
  predicate IsSplittingControl(c: char) {
    var u := c as int;
    0x01 <= u <= 0x1F || u == 0x7F || 0x80 <= u <= 0x9F || u == 0x2028 || u == 0x2029
  }

  function Strip(s: string): (r: string)
    ensures forall i :: 0 <= i < |r| ==> !IsSplittingControl(r[i]) && r[i] in s
    ensures |r| <= |s|
  {
    if s == [] then []
    else if IsSplittingControl(s[0]) then Strip(s[1..])
    else [s[0]] + Strip(s[1..])
  }

  predicate HasControl(s: string) { exists i :: 0 <= i < |s| && IsSplittingControl(s[i]) }

  lemma {:induction false} StripFixed(s: string)
    ensures Strip(s) == s <==> !HasControl(s)
    ensures HasControl(s) ==> |Strip(s)| < |s|
  {
    if s != [] {
      StripFixed(s[1..]);
      if HasControl(s) && !IsSplittingControl(s[0]) {
        var i :| 0 <= i < |s| && IsSplittingControl(s[i]);
        assert IsSplittingControl(s[1..][i - 1]);
      }
      assert forall i :: 0 <= i < |s[1..]| ==> s[1..][i] == s[i + 1];
    }
  }

  function DecodeThenStrip(s: string): Option<string> {
    var d := DecodeOnce(s);
    if NUL in d then None else Some(Strip(d))
  }

  /** The decoding loop with `n` rounds left before the final check. */
  function Rounds(cur: string, n: nat): Decoded
    decreases n
  {
    match DecodeThenStrip(cur)
    case None => Err(NulPath)
    case Some(next) =>
      if next == cur then Ok(cur) else if n == 0 then Err(Unstable) else Rounds(next, n - 1)
  }

  function Bounded(input: string): Decoded {
    if NUL in input then Err(NulPath) else Rounds(Strip(input), PERCENT_DECODE_MAX_ROUNDS)
  }

  // ---- The frozen loop and the borrowing one ---------------------------------------

  method DecodeStripOwned(s: string) returns (r: Option<string>)
    ensures r == DecodeThenStrip(s)
  {
    var d := PercentDecodeOnce(s);
    if NUL in d { return None; }
    return Some(Strip(d));
  }

  method OwnedRounds(start: string, n: nat) returns (r: Decoded)
    ensures r == Rounds(start, n)
  {
    var current := start;
    for i := 0 to n
      invariant Rounds(start, n) == Rounds(current, n - i)
    {
      var next := DecodeStripOwned(current);
      if next == None { return Err(NulPath); }
      if next.value == current { return Ok(current); }
      current := next.value;
    }
    var next := DecodeStripOwned(current);
    if next == None { return Err(NulPath); }
    if next.value != current { return Err(Unstable); }
    return Ok(current);
  }

  /** The reference form: no early return, every round builds a new string. */
  method ReferenceBounded(input: string) returns (r: Decoded)
    ensures r == Bounded(input)
  {
    if NUL in input { return Err(NulPath); }
    r := OwnedRounds(Strip(input), PERCENT_DECODE_MAX_ROUNDS);
  }

  method StripKeep(s: string) returns (r: string)
    ensures r == Strip(s)
  {
    StripFixed(s);
    if HasControl(s) { return Strip(s); }
    return s;
  }

  method DecodeOnceKeep(s: string) returns (r: string)
    ensures r == DecodeOnce(s)
  {
    if '%' !in s {
      NoEscapeDecodes(s);
      return s;
    }
    var d := PercentDecodeOnce(s);
    if d == s { return s; }
    return d;
  }

  method DecodeStripKeep(s: string) returns (r: Option<string>)
    ensures r == DecodeThenStrip(s)
  {
    var d := DecodeOnceKeep(s);
    if NUL in d { return None; }
    var t := StripKeep(d);
    return Some(t);
  }

  /** Printable ASCII without '%'. */
  predicate Plain(s: string) { forall i :: 0 <= i < |s| ==> 0x20 <= s[i] as int <= 0x7E && s[i] != '%' }

  lemma PlainIsFixed(s: string)
    requires Plain(s)
    ensures Bounded(s) == Ok(s)
  {
    StripFixed(s);
    NoEscapeDecodes(s);
  }

  method KeepRounds(start: string, n: nat) returns (r: Decoded)
    ensures r == Rounds(start, n)
  {
    var current := start;
    for i := 0 to n
      invariant Rounds(start, n) == Rounds(current, n - i)
    {
      var next := DecodeStripKeep(current);
      if next == None { return Err(NulPath); }
      if next.value == current { return Ok(current); }
      current := next.value;
    }
    var next := DecodeStripKeep(current);
    if next == None { return Err(NulPath); }
    if next.value != current { return Err(Unstable); }
    return Ok(current);
  }

  /** The borrowing form: an early return on plain text, and rounds that keep an unchanged string. */
  method PercentDecodeBounded(input: string) returns (r: Decoded)
    ensures r == Bounded(input)
  {
    if NUL in input { return Err(NulPath); }
    if Plain(input) {
      PlainIsFixed(input);
      return Ok(input);
    }
    var current := StripKeep(input);
    r := KeepRounds(current, PERCENT_DECODE_MAX_ROUNDS);
  }

  // ---- What the loop computes -------------------------------------------------------------

  function Next(s: string): string { Strip(DecodeOnce(s)) }

  function Iterate(s: string, k: nat): string
    decreases k
  {
    if k == 0 then s else Iterate(Next(s), k - 1)
  }

  /** `r` is the fixed point reached from `s` after `k` rounds, with no NUL decoded on the way. */
  ghost predicate Reaches(s: string, k: nat, r: string) {
    Iterate(s, k) == r && Next(r) == r && forall j :: 0 <= j <= k ==> NUL !in DecodeOnce(Iterate(s, j))
  }

  ghost predicate ReachesWithin(s: string, n: nat, r: string) {
    exists k :: 0 <= k <= n && Reaches(s, k, r)
  }

  lemma {:induction false} RoundsOk(s: string, n: nat, r: string)
    ensures Rounds(s, n) == Ok(r) <==> ReachesWithin(s, n, r)
    decreases n
  {
    if n > 0 && DecodeThenStrip(s).Some? && Next(s) != s {
      RoundsOk(Next(s), n - 1, r);
      forall k: nat | k <= n - 1 ensures Reaches(Next(s), k, r) <==> Reaches(s, k + 1, r) {
        ReachesShift(s, k, r);
      }
      if ReachesWithin(s, n, r) {
        var k: nat :| k <= n && Reaches(s, k, r);
        assert k > 0;
        assert Reaches(Next(s), k - 1, r);
      }
      if Rounds(s, n) == Ok(r) {
        var k: nat :| k <= n - 1 && Reaches(Next(s), k, r);
        assert Reaches(s, k + 1, r);
      }
    } else {
      RoundsStop(s, n, r);
    }
  }

  lemma ReachesShift(s: string, k: nat, r: string)
    requires NUL !in DecodeOnce(s)
    ensures Reaches(Next(s), k, r) <==> Reaches(s, k + 1, r)
  {
    assert forall j: nat :: Iterate(s, j + 1) == Iterate(Next(s), j);
    if Reaches(Next(s), k, r) {
      forall j | 0 <= j <= k + 1 ensures NUL !in DecodeOnce(Iterate(s, j)) {
        if j > 0 { assert Iterate(s, j) == Iterate(Next(s), j - 1); }
      }
    }
    if Reaches(s, k + 1, r) {
      forall j | 0 <= j <= k ensures NUL !in DecodeOnce(Iterate(Next(s), j)) {
        assert Iterate(Next(s), j) == Iterate(s, j + 1);
      }
    }
  }

  /** A round that stops: a NUL, a fixed point, or no rounds left. */
  lemma RoundsStop(s: string, n: nat, r: string)
    requires n == 0 || DecodeThenStrip(s).None? || Next(s) == s
    ensures Rounds(s, n) == Ok(r) <==> ReachesWithin(s, n, r)
  {
    if Rounds(s, n) == Ok(r) {
      assert Reaches(s, 0, r);
    }
    if ReachesWithin(s, n, r) {
      var k: nat :| k <= n && Reaches(s, k, r);
      assert NUL !in DecodeOnce(Iterate(s, 0));
      IterateFixed(s, k);
    }
  }

  lemma {:induction false} IterateFixed(s: string, k: nat)
    ensures Next(s) == s ==> Iterate(s, k) == s
  {
    if k > 0 { IterateFixed(s, k - 1); }
  }

  /** Ok exactly when decode-then-strip reaches a fixed point within eight rounds and no NUL appears. */
  lemma BoundedOk(input: string, r: string)
    ensures Bounded(input) == Ok(r) <==>
              NUL !in input && ReachesWithin(Strip(input), PERCENT_DECODE_MAX_ROUNDS, r)
  {
    var n := PERCENT_DECODE_MAX_ROUNDS;
    RoundsOk(Strip(input), n, r);
    assert Bounded(input) == if NUL in input then Err(NulPath) else Rounds(Strip(input), n);
  }

  /** Nothing left to decode, nothing left to strip, no NUL. */
  ghost predicate Stable(s: string) { !HasEscape(s) && !HasControl(s) && NUL !in s }

  lemma NextFixed(s: string)
    ensures Next(s) == s <==> !HasEscape(s) && !HasControl(s)
  {
    DecodeFixed(s);
    StripFixed(s);
    StripFixed(DecodeOnce(s));
  }

  lemma StableIsFixed(s: string)
    requires Stable(s)
    ensures Bounded(s) == Ok(s)
  {
    DecodeFixed(s);
    StripFixed(s);
  }

  /**
   Every accepted result is stable, so a second call returns it unchanged; and only
   stable strings are accepted as they are.
   */
  lemma BoundedStable(input: string)
    ensures Bounded(input).Ok? ==> Stable(Bounded(input).text) && Bounded(Bounded(input).text) == Bounded(input)
    ensures Bounded(input) == Ok(input) <==> Stable(input)
  {
    if Bounded(input).Ok? {
      var r := Bounded(input).text;
      BoundedOk(input, r);
      var k: nat :| k <= PERCENT_DECODE_MAX_ROUNDS && Reaches(Strip(input), k, r);
      NextFixed(r);
      DecodeFixed(r);
      assert NUL !in DecodeOnce(Iterate(Strip(input), k));
      StableIsFixed(r);
    }
    if Stable(input) { StableIsFixed(input); }
  }
}
