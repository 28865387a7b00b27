/** The capped relay of a child's stderr: complete lines, one truncation notice, the unterminated rest. */
module StderrRelay {
  import opened Bytes
  import opened Framing

  const STDERR_RELAY_CAP: nat := 64 * 1024

  /** What reaches the terminal, before it is sanitized. */
  datatype Emission = ChildLine(text: bytes) | TruncatedNotice

  // ---- The lines of a text -------------------------------------------------------------

  /** The lines that a newline has ended, in order. */
  function Complete(s: bytes): seq<Emission> {
    if s == [] then []
    else
      var init := s[..|s| - 1];
      if s[|s| - 1] == LF then Complete(init) + [ChildLine(Unterminated(init))] else Complete(init)
  }

  /** What follows the last newline. */
  function Unterminated(s: bytes): (r: bytes)
    ensures LF !in r && |r| <= |s|
  {
    if s == [] || s[|s| - 1] == LF then [] else Unterminated(s[..|s| - 1]) + [s[|s| - 1]]
  }

  /** The part of a stream that the budget covers. */
  function Covered(s: bytes): bytes { s[..Min(STDERR_RELAY_CAP, |s|)] }

  function LastLine(pending: bytes): seq<Emission> { if pending == [] then [] else [ChildLine(pending)] }

  function Notice(s: bytes): seq<Emission> { if |s| > STDERR_RELAY_CAP then [TruncatedNotice] else [] }

  /** All that the relay emits for a stream. */
  function Relayed(s: bytes): seq<Emission> {
    Complete(Covered(s)) + Notice(s) + LastLine(Unterminated(Covered(s)))
  }

  lemma {:induction false} LinesNone(s: bytes)
    requires LF !in s
    ensures Complete(s) == [] && Unterminated(s) == s
  {
    if s != [] {
      assert s[|s| - 1] in s;
      LinesNone(s[..|s| - 1]);
    }
  }

  /** Text goes on where its unterminated rest left off. */
  lemma {:induction false} LinesAppend(a: bytes, b: bytes)
    ensures Complete(a + b) == Complete(a) + Complete(Unterminated(a) + b)
    ensures Unterminated(a + b) == Unterminated(Unterminated(a) + b)
    decreases |b|
  {
    var u := Unterminated(a);
    if b == [] {
      assert a + b == a && u + b == u;
      LinesNone(u);
    } else {
      var init := b[..|b| - 1];
      assert (a + b)[..|a + b| - 1] == a + init && (u + b)[..|u + b| - 1] == u + init;
      LinesAppend(a, init);
    }
  }

  lemma LinesCons(line: bytes, back: bytes)
    requires LF !in line
    ensures Complete(line + [LF] + back) == [ChildLine(line)] + Complete(back)
    ensures Unterminated(line + [LF] + back) == Unterminated(back)
  {
    var first := line + [LF];
    assert first[..|line|] == line;
    LinesNone(line);
    LinesAppend(first, back);
    assert [] + back == back;
  }

  /** A newline found in `rest` ends the pending line. */
  lemma SplitStep(pending: bytes, rest: bytes)
    requires LF !in pending && FirstLf(rest) < |rest|
    ensures var n := FirstLf(rest);
            && Complete(pending + rest) == [ChildLine(pending + rest[..n])] + Complete(rest[n + 1..])
            && Unterminated(pending + rest) == Unterminated(rest[n + 1..])
  {
    var n := FirstLf(rest);
    var line, back := pending + rest[..n], rest[n + 1..];
    assert pending + rest == line + [LF] + back;
    LinesCons(line, back);
  }

  /** The relay's state after the stream `seen`. */
  ghost predicate Reached(seen: bytes, budget: nat, truncating: bool, pending: bytes, emitted: seq<Emission>) {
    && budget == STDERR_RELAY_CAP - |Covered(seen)| && truncating == (|seen| > STDERR_RELAY_CAP)
    && pending == Unterminated(Covered(seen)) && |pending| <= STDERR_RELAY_CAP
    && emitted == Complete(Covered(seen)) + Notice(seen)
  }

  // ---- The relay -------------------------------------------------------------------------

  class Relay {
    var budget: nat
    var truncating: bool
    var pending: bytes
    var emitted: seq<Emission>

    constructor ()
      ensures budget == STDERR_RELAY_CAP && !truncating && pending == [] && emitted == []
    {
      budget, truncating, pending, emitted := STDERR_RELAY_CAP, false, [], [];
    }

    ghost predicate After(seen: bytes)
      reads this
    {
      Reached(seen, budget, truncating, pending, emitted)
    }

    method SplitAndWrite(chunk: bytes)
      requires LF !in pending
      modifies this`pending, this`emitted
      ensures pending == Unterminated(old(pending) + chunk)
      ensures emitted == old(emitted) + Complete(old(pending) + chunk)
    {
      var rest := chunk;
      var nl := Position(rest);
      ghost var left, goal := Unterminated(pending + rest), emitted + Complete(pending + rest);
      while nl < |rest|
        invariant nl == FirstLf(rest) && LF !in pending
        invariant Unterminated(pending + rest) == left && emitted + Complete(pending + rest) == goal
        decreases |rest|
      {
        SplitStep(pending, rest);
        ghost var more := Complete(rest[nl + 1..]);
        assert goal == emitted + ([ChildLine(pending + rest[..nl])] + more)
                 == (emitted + [ChildLine(pending + rest[..nl])]) + more;
        pending := pending + rest[..nl];
        emitted := emitted + [ChildLine(pending)];
        pending, rest := [], rest[nl + 1..];
        assert pending + rest == rest;
        nl := Position(rest);
      }
      assert LF !in rest by { assert rest[..nl] == rest; }
      LinesNone(pending + rest);
      pending := pending + rest;
    }

    method FlushPending()
      modifies this`pending, this`emitted
      ensures pending == [] && emitted == old(emitted) + LastLine(old(pending))
    {
      if pending != [] {
        emitted := emitted + [ChildLine(pending)];
        pending := [];
      }
    }

    /** One chunk off the pipe, spent against the budget. */
    method Absorb(available: bytes, ghost seen: bytes)
      requires After(seen) && available != []
      modifies this
      ensures After(seen + available)
    {
      var take := Min(|available|, budget);
      AbsorbSome(seen, available, take, budget, truncating, pending, emitted);
      if take > 0 {
        SplitAndWrite(available[..take]);
        budget := budget - take;
      }
      if take < |available| && !truncating {
        truncating := true;
        emitted := emitted + [TruncatedNotice];
      }
    }
  }

  /** What one more chunk adds to the covered text and its lines. */
  lemma CoverMore(seen: bytes, available: bytes, take: nat)
    requires take == Min(|available|, STDERR_RELAY_CAP - |Covered(seen)|)
    ensures var all, rest := seen + available, Unterminated(Covered(seen)) + available[..take];
            && |Covered(all)| == |Covered(seen)| + take
            && Unterminated(Covered(all)) == Unterminated(rest)
            && Complete(Covered(all)) == Complete(Covered(seen)) + Complete(rest)
  {
    assert Covered(seen + available) == Covered(seen) + available[..take];
    LinesAppend(Covered(seen), available[..take]);
  }

  /** The state after one more chunk, whether the budget covers all of it, some of it or none. */
  lemma AbsorbSome(
    seen: bytes, available: bytes, take: nat, budget: nat, truncating: bool, pending: bytes, emitted: seq<Emission>)
    requires Reached(seen, budget, truncating, pending, emitted) && take == Min(|available|, budget) && available != []
    ensures var text := pending + available[..take];
            var cut := take < |available|;
            var lines := if take > 0 then emitted + Complete(text) else emitted;
            Reached(seen + available, budget - take, truncating || cut,
                    if take > 0 then Unterminated(text) else pending,
                    if cut && !truncating then lines + [TruncatedNotice] else lines)
  {
    if take > 0 {
      AbsorbWithin(seen, available, take, budget, pending, emitted);
    } else {
      AbsorbBeyond(seen, available, truncating, pending, emitted);
    }
  }

  lemma AbsorbWithin(seen: bytes, available: bytes, take: nat, budget: nat, pending: bytes, emitted: seq<Emission>)
    requires Reached(seen, budget, false, pending, emitted) && 0 < take == Min(|available|, budget)
    ensures var text := pending + available[..take];
            var lines := emitted + Complete(text);
            Reached(seen + available, budget - take, take < |available|, Unterminated(text),
                    if take < |available| then lines + [TruncatedNotice] else lines)
  {
    CoverMore(seen, available, take);
    assert Notice(seen) == [] && emitted == Complete(Covered(seen));
  }

  lemma AbsorbBeyond(seen: bytes, available: bytes, truncating: bool, pending: bytes, emitted: seq<Emission>)
    requires Reached(seen, 0, truncating, pending, emitted) && available != []
    ensures Reached(seen + available, 0, true, pending, if truncating then emitted else emitted + [TruncatedNotice])
  {
    assert |Covered(seen)| == STDERR_RELAY_CAP;
    assert Covered(seen + available) == Covered(seen);
  }

  lemma ReachedNothing(seen: bytes, budget: nat)
    requires seen == [] && budget == STDERR_RELAY_CAP
    ensures Reached(seen, budget, false, seen, [])
  {
    assert Covered(seen) == seen;
  }

  /** One turn of the relay loop. */
  method Pump(relay: Relay, reader: Source, ghost seen: bytes) returns (more: bool, ghost seen': bytes)
    requires reader.Valid() && relay.After(seen)
    modifies reader, relay
    ensures reader.Valid() && relay.After(seen') && seen' + reader.Stream() == seen + old(reader.Stream())
    ensures more ==> |reader.Stream()| < |old(reader.Stream())|
    ensures !more ==> reader.Stream() == []
  {
    var available, ok := reader.FillBuf();
    if available == [] { return false, seen; }
    more, seen' := true, seen + available;
    relay.Absorb(available, seen);
    reader.Consume(|available|);
    assert old(reader.Stream()) == available + reader.Stream();
    assert seen + (available + reader.Stream()) == seen' + reader.Stream();
  }

  /** For every chunking, failing or not at its end: the lines within the cap, the notice, the rest. */
  method RelayChildStderr(reader: Source) returns (emitted: seq<Emission>)
    requires reader.Valid()
    modifies reader
    ensures emitted == Relayed(old(reader.Stream())) && reader.Stream() == []
  {
    var relay := new Relay();
    ghost var seen: bytes := [];
    ReachedNothing(seen, relay.budget);
    var more := true;
    while more
      invariant reader.Valid() && relay.After(seen) && seen + reader.Stream() == old(reader.Stream())
      invariant !more ==> reader.Stream() == []
      decreases more, |reader.Stream()|
    {
      more, seen := Pump(relay, reader, seen);
    }
    assert seen == old(reader.Stream());
    relay.FlushPending();
    emitted := relay.emitted;
  }
}
