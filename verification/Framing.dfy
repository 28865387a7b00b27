/**
 Bounded line framing over a chunked reader: the resumable reader, the fail-fast
 reader and the two drains that run them to the end of a stream, proved against
 splitting the stream at its newlines.
 */
module Framing {
  import opened Bytes

  const OVERSIZE_WINDOW_BYTES: nat := 8 * 1024

  /** A frame over the cap: its first and last bytes, its exact length, whether a newline ended it. */
  datatype OversizeFrame = OversizeFrame(head: bytes, tail: bytes, len: nat, terminated: bool)

  datatype Frame = Text(line: bytes) | Oversize(frame: OversizeFrame)

  datatype Read = Eof | Got(frame: Frame) | IoError

  datatype LineRead = LineEof | Line(line: bytes) | TooLarge(len: nat, limit: nat) | LineIoError

  // ---- The specification: split at the first newline ----------------------------

  /** Position of the first newline, or the length when there is none. */
  function FirstLf(s: bytes): (n: nat)
    ensures n <= |s| && LF !in s[..n] && (n < |s| ==> s[n] == LF)
  {
    if s == [] || s[0] == LF then 0 else
      assert s[..1 + FirstLf(s[1..])] == [s[0]] + s[1..][..FirstLf(s[1..])];
      1 + FirstLf(s[1..])
  }

  function Head(frame: bytes): bytes { frame[..Min(OVERSIZE_WINDOW_BYTES, |frame|)] }

  function Tail(frame: bytes): bytes { frame[|frame| - Min(OVERSIZE_WINDOW_BYTES, |frame|)..] }

  function StripCr(s: bytes): bytes { if s != [] && s[|s| - 1] == CR then s[..|s| - 1] else s }

  /** One frame's outcome; only a newline makes a preceding CR part of the terminator. */
  function Classify(frame: bytes, terminated: bool, max: nat): Frame {
    if |frame| > max then Oversize(OversizeFrame(Head(frame), Tail(frame), |frame|, terminated))
    else Text(if terminated then StripCr(frame) else frame)
  }

  function ReadSpec(s: bytes, broken: bool, max: nat): Read {
    var n := FirstLf(s);
    if n < |s| then Got(Classify(s[..n], true, max))
    else if broken then IoError
    else if s == [] then Eof
    else Got(Classify(s, false, max))
  }

  /** What follows the first frame and its newline. */
  function Rest(s: bytes): bytes {
    var n := FirstLf(s);
    if n < |s| then s[n + 1..] else []
  }

  // ---- A reader that hands out its stream in arbitrary non-empty chunks ---------

  class Source {
    var chunks: seq<bytes>
    const broken: bool
    ghost var unread: bytes

    ghost predicate Valid()
      reads this
    {
      unread == Flatten(chunks) && forall i :: 0 <= i < |chunks| ==> chunks[i] != []
    }

    ghost function Stream(): bytes
      reads this
    {
      unread
    }

    /** The bytes the next `FillBuf` returns. */
    ghost function Buffered(): bytes
      reads this
    {
      if chunks == [] then [] else chunks[0]
    }

    constructor (chunks: seq<bytes>, broken: bool)
      requires forall i :: 0 <= i < |chunks| ==> chunks[i] != []
      ensures Valid() && Stream() == Flatten(chunks) && this.broken == broken
    {
      this.chunks, this.broken, unread := chunks, broken, Flatten(chunks);
    }

    /** The unread part of the current chunk; empty exactly at the end of the stream, where a broken source fails. */
    method FillBuf() returns (available: bytes, ok: bool)
      requires Valid()
      ensures available == Buffered() && available <= Stream() && (available == [] <==> Stream() == [])
      ensures ok == (available != [] || !broken)
    {
      if chunks == [] {
        available, ok := [], !broken;
      } else {
        available, ok := chunks[0], true;
      }
    }

    method Consume(n: nat)
      requires Valid() && n <= |Buffered()|
      modifies this
      ensures Valid() && n <= |old(Stream())| && Stream() == old(Stream())[n..]
      ensures n < |old(Buffered())| ==> Buffered() == old(Buffered())[n..]
    {
      if chunks == [] { return; }
      ghost var head, back := chunks[0], Flatten(chunks[1..]);
      assert (head + back)[n..] == head[n..] + back;
      if n == |chunks[0]| {
        chunks := chunks[1..];
      } else {
        chunks := [chunks[0][n..]] + chunks[1..];
        assert chunks[1..] == old(chunks)[1..];
      }
      unread := unread[n..];
    }
  }

  method Position(s: bytes) returns (n: nat)
    ensures n == FirstLf(s)
  {
    n := 0;
    while n < |s| && s[n] != LF
      invariant n <= |s| && LF !in s[..n]
    {
      n := n + 1;
    }
    FirstLfUnique(s, n);
  }

  lemma {:induction false} FirstLfUnique(s: bytes, n: nat)
    requires n <= |s| && LF !in s[..n] && (n < |s| ==> s[n] == LF)
    ensures n == FirstLf(s)
  {
    // Two different first newlines would each lie in the other's newline-free prefix.
  }

  lemma FirstLfAfter(front: bytes, back: bytes)
    requires LF !in front
    ensures FirstLf(front + back) == |front| + FirstLf(back)
  {
    var n := |front| + FirstLf(back);
    assert (front + back)[..n] == front + back[..FirstLf(back)];
    FirstLfUnique(front + back, n);
  }

  // ---- The resumable reader -------------------------------------------------------

  /** `acc` and `tail` after the frame bytes `seen`. */
  ghost predicate Window(seen: bytes, acc: bytes, tail: bytes, oversize: bool, max: nat) {
    if oversize then |seen| > max && acc == Head(seen) && tail == Tail(seen)
    else |seen| <= max && acc == seen && tail == []
  }

  /** Take one segment of the frame: past the cap only the two windows are kept. */
  method Absorb(ghost seen: bytes, acc: bytes, tail: bytes, oversize: bool, seg: bytes, total: nat, max: nat)
    returns (acc': bytes, tail': bytes, oversize': bool)
    requires Window(seen, acc, tail, oversize, max) && total == |seen|
    ensures Window(seen + seg, acc', tail', oversize', max)
  {
    acc', tail', oversize' := acc, tail, oversize;
    if !oversize && total + |seg| > max {
      oversize' := true;
      tail' := acc[|acc| - Min(OVERSIZE_WINDOW_BYTES, |acc|)..];
      acc' := acc[..Min(OVERSIZE_WINDOW_BYTES, |acc|)];
    }
    if oversize' {
      if |acc'| < OVERSIZE_WINDOW_BYTES {
        acc' := acc' + seg[..Min(OVERSIZE_WINDOW_BYTES - |acc'|, |seg|)];
      }
      tail' := TrimFront(tail' + seg);
      TailAppend(seen, seg);
      assert acc' == Head(seen + seg);
    } else {
      acc' := acc' + seg;
    }
  }

  /** The frame the reader has collected, once its end is reached. */
  method Finish(ghost seen: bytes, acc: bytes, tail: bytes, oversize: bool, total: nat, terminated: bool, max: nat)
    returns (r: Frame)
    requires Window(seen, acc, tail, oversize, max) && total == |seen|
    ensures r == Classify(seen, terminated, max)
  {
    if oversize { return Oversize(OversizeFrame(acc, tail, total, terminated)); }
    if terminated && acc != [] && acc[|acc| - 1] == CR { return Text(acc[..|acc| - 1]); }
    return Text(acc);
  }

  /** One buffer's worth of the current frame, taken off the reader together with a newline that follows it. */
  method TakePart(reader: Source) returns (part: bytes, ended: bool, newline: bool, ok: bool)
    requires reader.Valid()
    modifies reader
    ensures reader.Valid() && LF !in part
    ensures ended ==> part == [] && !newline && old(reader.Stream()) == [] && reader.Stream() == []
                      && ok == !reader.broken
    ensures !ended && newline ==> old(reader.Stream()) == part + [LF] + reader.Stream()
    ensures !ended && !newline ==> old(reader.Stream()) == part + reader.Stream() && part != []
  {
    var available;
    available, ok := reader.FillBuf();
    if available == [] { return [], true, false, ok; }
    ghost var stream := reader.Stream();
    var nl := Position(available);
    PartSplit(stream, available, nl);
    part, ended, newline := available[..nl], false, nl < |available|;
    reader.Consume(nl);
    if newline {
      reader.Consume(1);
      assert stream[nl..][1..] == stream[nl + 1..];
    }
  }

  lemma PartSplit(stream: bytes, available: bytes, n: nat)
    requires available <= stream && n <= |available| && (n < |available| ==> available[n] == LF)
    ensures stream == available[..n] + stream[n..]
    ensures n < |available| ==> stream == available[..n] + [LF] + stream[n + 1..]
  {
  }

  method ReadFrameBounded(reader: Source, max: nat) returns (r: Read)
    requires reader.Valid()
    modifies reader
    ensures reader.Valid()
    ensures r == ReadSpec(old(reader.Stream()), reader.broken, max)
    ensures reader.Stream() == Rest(old(reader.Stream()))
  {
    ghost var stream := reader.Stream();
    ghost var seen: bytes := [];
    var acc: bytes, tail: bytes, total: nat, oversize := [], [], 0, false;
    while true
      invariant reader.Valid()
      invariant stream == seen + reader.Stream() && LF !in seen && total == |seen|
      invariant Window(seen, acc, tail, oversize, max)
      decreases |reader.Stream()|
    {
      ghost var ahead := reader.Stream();
      var part, ended, newline, ok := TakePart(reader);
      if ended {
        assert seen == stream;
        SpecAtEnd(stream, reader.broken, max);
        if !ok { return IoError; }
        if !oversize && acc == [] { return Eof; }
        var f := Finish(seen, acc, tail, oversize, total, false, max);
        return Got(f);
      }
      acc, tail, oversize := Absorb(seen, acc, tail, oversize, part, total, max);
      total := total + |part|;
      if newline {
        SpecAtPart(stream, seen, part, reader.Stream(), reader.broken, max);
        var f := Finish(seen + part, acc, tail, oversize, total, true, max);
        return Got(f);
      }
      assert seen + (part + reader.Stream()) == seen + part + reader.Stream();
      seen := seen + part;
    }
  }

  lemma SpecAtPart(s: bytes, seen: bytes, part: bytes, back: bytes, broken: bool, max: nat)
    requires s == seen + (part + [LF] + back) && LF !in seen && LF !in part
    ensures ReadSpec(s, broken, max) == Got(Classify(seen + part, true, max)) && Rest(s) == back
  {
    assert s == (seen + part) + ([LF] + back);
    SpecAtLf(s, seen + part, [LF] + back, broken, max);
  }

  lemma SpecAtEnd(s: bytes, broken: bool, max: nat)
    requires LF !in s
    ensures ReadSpec(s, broken, max)
              == (if broken then IoError else if s == [] then Eof else Got(Classify(s, false, max)))
    ensures Rest(s) == [] && FirstLf(s) == |s|
  {
    assert s[..|s|] == s;
    FirstLfUnique(s, |s|);
  }

  lemma SpecAtLf(s: bytes, seen: bytes, back: bytes, broken: bool, max: nat)
    requires s == seen + back && LF !in seen && back != [] && back[0] == LF
    ensures ReadSpec(s, broken, max) == Got(Classify(seen, true, max)) && Rest(s) == back[1..] && FirstLf(s) == |seen|
  {
    assert s[..|seen|] == seen;
    FirstLfUnique(s, |seen|);
  }

  /** `pop_front` until the deque fits the window. */
  method TrimFront(d: bytes) returns (r: bytes)
    ensures r == Tail(d)
  {
    r := d;
    while |r| > OVERSIZE_WINDOW_BYTES
      invariant |r| <= |d| && r == d[|d| - |r|..] && |r| >= Min(OVERSIZE_WINDOW_BYTES, |d|)
    {
      r := r[1..];
    }
  }

  lemma TailAppend(seen: bytes, seg: bytes)
    ensures Tail(Tail(seen) + seg) == Tail(seen + seg)
  {
  }

  // ---- The fail-fast reader ---------------------------------------------------------

  /** The first frame, without its newline. */
  function FirstFrame(s: bytes): bytes { s[..FirstLf(s)] }

  /**
   What a fail-fast read may do: agree with the resumable reader on a frame within
   the limit, otherwise refuse it at some length past the limit and no more than
   the frame's, having consumed none of its newline and at most `max` of its bytes.
   */
  ghost predicate FailFast(s: bytes, broken: bool, max: nat, r: LineRead, rest: bytes) {
    if |FirstFrame(s)| > max then
      && r.TooLarge? && r.limit == max && max < r.len <= |FirstFrame(s)|
      && exists k :: 0 <= k <= max && rest == s[k..]
    else
      && rest == Rest(s)
      && match ReadSpec(s, broken, max)
         case Eof => r == LineEof
         case IoError => r == LineIoError
         case Got(f) => f.Text? && r == Line(f.line)
  }

  method ReadLineBounded(reader: Source, max: nat) returns (r: LineRead)
    requires reader.Valid()
    modifies reader
    ensures reader.Valid()
    ensures FailFast(old(reader.Stream()), reader.broken, max, r, reader.Stream())
  {
    ghost var stream := reader.Stream();
    var acc: bytes, done := [], false;
    r := LineEof;
    while !done
      invariant reader.Valid()
      invariant done ==> FailFast(stream, reader.broken, max, r, reader.Stream())
      invariant !done ==> stream == acc + reader.Stream() && LF !in acc && |acc| <= max
      decreases !done, |reader.Stream()|
    {
      acc, done, r := ReadLineStep(reader, max, acc, stream);
    }
  }

  /** One turn of the fail-fast loop: a verdict, or a longer accumulated line. */
  method ReadLineStep(reader: Source, max: nat, acc: bytes, ghost stream: bytes)
    returns (acc': bytes, done: bool, r: LineRead)
    requires reader.Valid() && stream == acc + reader.Stream() && LF !in acc && |acc| <= max
    modifies reader
    ensures reader.Valid()
    ensures done ==> FailFast(stream, reader.broken, max, r, reader.Stream())
    ensures !done ==> stream == acc' + reader.Stream() && LF !in acc' && |acc'| <= max
                      && |reader.Stream()| < |old(reader.Stream())|
  {
    var available, ok := reader.FillBuf();
    ghost var back := reader.Stream();
    if available == [] {
      assert acc == stream;
      FailFastAtEnd(stream, reader.broken, max);
      return acc, true, if !ok then LineIoError else if acc == [] then LineEof else Line(acc);
    }
    var i := Position(available);
    if |acc| + i > max {
      FailFastTooLong(stream, reader.broken, max, acc, available, back);
      return acc, true, TooLarge(|acc| + i, max);
    }
    AccGrows(stream, acc, available, back, i);
    acc', done, r := acc + available[..i], i < |available|, LineEof;
    if done {
      FailFastAtLf(stream, reader.broken, max, acc', back[i..]);
      assert back[i..][1..] == back[i + 1..];
      reader.Consume(i + 1);
      r := Line(StripCr(acc'));
    } else {
      reader.Consume(i);
    }
  }

  /** The bytes up to the newline, or to the end of the buffer, extend the line. */
  lemma AccGrows(stream: bytes, acc: bytes, available: bytes, back: bytes, i: nat)
    requires stream == acc + back && LF !in acc && available <= back
    requires i <= |available| && LF !in available[..i] && (i < |available| ==> available[i] == LF)
    ensures stream == (acc + available[..i]) + back[i..] && LF !in acc + available[..i]
    ensures i < |available| ==> back[i..] != [] && back[i..][0] == LF
  {
    PartSplit(back, available, i);
  }

  lemma FailFastAtEnd(s: bytes, broken: bool, max: nat)
    requires LF !in s && |s| <= max
    ensures FailFast(s, broken, max, if broken then LineIoError else if s == [] then LineEof else Line(s), [])
  {
    SpecAtEnd(s, broken, max);
    assert FirstFrame(s) == s;
  }

  lemma FailFastAtLf(s: bytes, broken: bool, max: nat, acc: bytes, back: bytes)
    requires s == acc + back && LF !in acc && |acc| <= max && back != [] && back[0] == LF
    ensures FailFast(s, broken, max, Line(StripCr(acc)), back[1..])
  {
    SpecAtLf(s, acc, back, broken, max);
    assert FirstFrame(s) == acc;
  }

  /** The bytes already in sight belong to the frame, so a count past the limit is a true one. */
  lemma FailFastTooLong(s: bytes, broken: bool, max: nat, acc: bytes, available: bytes, back: bytes)
    requires s == acc + back && LF !in acc && available <= back && |acc| <= max
    requires |acc| + FirstLf(available) > max
    ensures FailFast(s, broken, max, TooLarge(|acc| + FirstLf(available), max), back)
  {
    var n := FirstLf(available);
    FirstLfAfter(acc, back);
    assert available[..n] == back[..n];
    FirstLfBound(back, n);
    assert back == s[|acc|..];
  }

  lemma FirstLfBound(s: bytes, n: nat)
    requires n <= |s| && LF !in s[..n]
    ensures n <= FirstLf(s)
  {
  }

  // ---- Whole streams -----------------------------------------------------------------

  /** Every frame of a stream, in order. */
  function AllFrames(s: bytes, max: nat): seq<Frame>
    decreases |s|
  {
    if s == [] then [] else [ReadSpec(s, false, max).frame] + AllFrames(Rest(s), max)
  }

  /** Repeated resumable reads deliver every frame and consume the whole stream. */
  method DrainFrames(reader: Source, max: nat) returns (frames: seq<Frame>)
    requires reader.Valid() && !reader.broken
    modifies reader
    ensures frames == AllFrames(old(reader.Stream()), max) && reader.Stream() == []
  {
    frames := [];
    ghost var left := reader.Stream();
    ghost var all := AllFrames(left, max);
    while true
      invariant reader.Valid() && left == reader.Stream() && all == frames + AllFrames(left, max)
      decreases |left|
    {
      var r := ReadFrameBounded(reader, max);
      FramesStep(frames, left, max);
      if r.Eof? { return; }
      frames, left := frames + [r.frame], reader.Stream();
    }
  }

  /** One read against the frames still to come. */
  lemma FramesStep(frames: seq<Frame>, s: bytes, max: nat)
    ensures !ReadSpec(s, false, max).IoError? && (ReadSpec(s, false, max).Eof? ==> s == [] && Rest(s) == [])
    ensures ReadSpec(s, false, max).Got? ==>
              && |Rest(s)| < |s|
              && frames + AllFrames(s, max) == frames + [ReadSpec(s, false, max).frame] + AllFrames(Rest(s), max)
  {
  }

  /** The lines ahead of the first oversized frame. */
  function LinesBefore(frames: seq<Frame>): seq<bytes> {
    if frames == [] || frames[0].Oversize? then [] else [frames[0].line] + LinesBefore(frames[1..])
  }

  ghost predicate HasOversize(frames: seq<Frame>) {
    exists i :: 0 <= i < |frames| && frames[i].Oversize?
  }

  /** `lines` have been read of the frames `all`, and `left` holds the rest. */
  ghost predicate Ahead(all: seq<Frame>, lines: seq<bytes>, left: bytes, max: nat) {
    LinesBefore(all) == lines + LinesBefore(AllFrames(left, max))
      && HasOversize(all) == HasOversize(AllFrames(left, max))
  }

  /** The fail-fast drain stops exactly where the resumable one meets its first oversized frame. */
  method DrainLines(reader: Source, max: nat) returns (lines: seq<bytes>, failFast: bool)
    requires reader.Valid() && !reader.broken
    modifies reader
    ensures lines == LinesBefore(AllFrames(old(reader.Stream()), max))
    ensures failFast <==> HasOversize(AllFrames(old(reader.Stream()), max))
    ensures !failFast ==> reader.Stream() == []
  {
    lines := [];
    ghost var left := reader.Stream();
    ghost var all := AllFrames(left, max);
    while true
      invariant reader.Valid() && left == reader.Stream() && Ahead(all, lines, left, max)
      decreases |left|
    {
      var r := ReadLineBounded(reader, max);
      AheadStep(all, lines, left, max, r, reader.Stream());
      left := reader.Stream();
      match r
      case LineEof => return lines, false;
      case TooLarge(_, _) => return lines, true;
      case Line(line) => lines := lines + [line];
    }
  }

  lemma AheadStep(all: seq<Frame>, lines: seq<bytes>, s: bytes, max: nat, r: LineRead, rest: bytes)
    requires Ahead(all, lines, s, max) && FailFast(s, false, max, r, rest)
    ensures !r.LineIoError?
    ensures r.LineEof? ==> rest == [] && lines == LinesBefore(all) && !HasOversize(all)
    ensures r.TooLarge? ==> lines == LinesBefore(all) && HasOversize(all)
    ensures r.Line? ==> |rest| < |s| && Ahead(all, lines + [r.line], rest, max)
  {
    DrainStep(s, max, r, rest);
    if r.Line? {
      var more := LinesBefore(AllFrames(rest, max));
      assert lines + ([r.line] + more) == (lines + [r.line]) + more;
    }
  }

  /** One fail-fast read against the frames still to come. */
  lemma DrainStep(s: bytes, max: nat, r: LineRead, rest: bytes)
    requires FailFast(s, false, max, r, rest)
    ensures !r.LineIoError?
    ensures r.LineEof? ==> s == [] == rest && AllFrames(s, max) == []
    ensures r.TooLarge? ==> HasOversize(AllFrames(s, max)) && LinesBefore(AllFrames(s, max)) == []
    ensures r.Line? ==> |rest| < |s| && LinesBefore(AllFrames(s, max)) == [r.line] + LinesBefore(AllFrames(rest, max))
                        && (HasOversize(AllFrames(s, max)) <==> HasOversize(AllFrames(rest, max)))
  {
    if s != [] {
      var f := ReadSpec(s, false, max).frame;
      assert f.Oversize? <==> |FirstFrame(s)| > max;
      OversizeCons(f, AllFrames(Rest(s), max));
    }
  }

  lemma OversizeCons(f: Frame, rest: seq<Frame>)
    ensures HasOversize([f] + rest) <==> f.Oversize? || HasOversize(rest)
    ensures LinesBefore([f] + rest) == if f.Oversize? then [] else [f.line] + LinesBefore(rest)
  {
    var all := [f] + rest;
    assert all[0] == f && all[1..] == rest;
    assert forall i :: 0 <= i < |rest| ==> all[i + 1] == rest[i];
    if HasOversize(all) && !f.Oversize? {
      var i :| 0 <= i < |all| && all[i].Oversize?;
      assert rest[i - 1].Oversize?;
    }
  }

  /** Newline-free pieces, each followed by a newline. */
  function Joined(pieces: seq<bytes>): bytes {
    if pieces == [] then [] else pieces[0] + [LF] + Joined(pieces[1..])
  }

  function Classified(pieces: seq<bytes>, max: nat): seq<Frame> {
    if pieces == [] then [] else [Classify(pieces[0], true, max)] + Classified(pieces[1..], max)
  }

  /** An unterminated remainder is a frame of its own unless it is empty. */
  function LastFrame(last: bytes, max: nat): seq<Frame> {
    if last == [] then [] else [Classify(last, false, max)]
  }

  ghost predicate LfFree(pieces: seq<bytes>) { forall i :: 0 <= i < |pieces| ==> LF !in pieces[i] }

  lemma JoinedCons(piece: bytes, more: seq<bytes>, last: bytes)
    ensures Joined([piece] + more) + last == piece + [LF] + (Joined(more) + last)
  {
    assert ([piece] + more)[1..] == more;
  }

  lemma ClassifiedCons(piece: bytes, more: seq<bytes>, max: nat, rest: seq<Frame>)
    ensures Classified([piece] + more, max) + rest == [Classify(piece, true, max)] + (Classified(more, max) + rest)
  {
    assert ([piece] + more)[1..] == more;
  }

  /** Framing undoes joining: the frames of a joined stream are its pieces, each judged on its own. */
  lemma {:induction false} FramesOfJoined(pieces: seq<bytes>, last: bytes, max: nat)
    requires LfFree(pieces) && LF !in last
    ensures AllFrames(Joined(pieces) + last, max) == Classified(pieces, max) + LastFrame(last, max)
  {
    if pieces == [] {
      assert Joined(pieces) + last == last;
      FramesOfLast(last, max);
    } else {
      var p, more := pieces[0], pieces[1..];
      assert pieces == [p] + more && LF !in p && LfFree(more);
      FramesOfJoined(more, last, max);
      JoinedCons(p, more, last);
      ClassifiedCons(p, more, max, LastFrame(last, max));
      FramesOfOne(p, Joined(more) + last, max);
    }
  }

  lemma FramesOfLast(last: bytes, max: nat)
    requires LF !in last
    ensures AllFrames(last, max) == LastFrame(last, max)
  {
    SpecAtEnd(last, false, max);
  }

  lemma FramesOfOne(piece: bytes, back: bytes, max: nat)
    requires LF !in piece
    ensures AllFrames(piece + [LF] + back, max) == [Classify(piece, true, max)] + AllFrames(back, max)
  {
    var s := piece + [LF] + back;
    assert s == piece + ([LF] + back);
    SpecAtLf(s, piece, [LF] + back, false, max);
    assert ([LF] + back)[1..] == back;
  }

  /** Every stream is such a joined stream. */
  lemma {:induction false} EveryStreamIsJoined(s: bytes) returns (pieces: seq<bytes>, last: bytes)
    ensures s == Joined(pieces) + last && LfFree(pieces) && LF !in last
    decreases |s|
  {
    var n := FirstLf(s);
    if n == |s| {
      pieces, last := [], s;
      assert s[..n] == s;
    } else {
      var more;
      more, last := EveryStreamIsJoined(s[n + 1..]);
      pieces := [s[..n]] + more;
      assert s == s[..n] + [LF] + s[n + 1..];
    }
  }
}
