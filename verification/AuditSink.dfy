/**
 The storage side of the audit logger: the buffered writer, the handles it
 appends through, and the four arms of the writer task as functions of the
 outcomes the storage hands back. `FileWriter` runs the same arms in place.

 Every handle keeps the history of the lines accepted by `write_all`, each with
 the position it was given in that handle's byte stream.
 */
module AuditSink {
  import opened Bytes

  const BUF_WRITER_CAPACITY: nat := 65536
  const FLUSH_EVENT_THRESHOLD: nat := 100

  /** What a line is: the record of logging call `id`, or the marker of a reopen request. */
  datatype Tag = Record(id: nat) | Marker(request: nat, swapped: bool)

  datatype Line = Line(tag: Tag, text: bytes, off: nat)

  /**
   One open file. `synced` is the fsynced prefix of the bytes appended through
   this handle, `entryDurable` whether the directory entry naming it survives a
   crash, `whole` how many of `lines` have been handed to the file.
   */
  datatype Handle = Handle(file: bytes, synced: nat, entryDurable: bool, hasDir: bool,
                           lines: seq<Line>, whole: nat)

  /**
   `broke` and `lost` are history: whether any write or flush has failed, and the
   lines whose whole `write_all` has, so that they never reached the buffer.
   */
  datatype Sink = Sink(retired: seq<Handle>, cur: Handle, buf: bytes, dirSynced: bool, events: nat,
                       broke: bool, lost: set<Tag>)

  /** A write either completes or stops with an error after `n` bytes. */
  datatype Write = Wrote | Broke(n: nat)

  /** The storage outcomes one record (or marker) can meet, in the order they are asked for. */
  datatype Outcome = Outcome(spill: Write, direct: Write, flush: Write, sync: bool, dir: bool, visible: bool)

  /** The outcomes of retiring a handle; `open` carries whether the new handle has a directory. */
  datatype Swap = Swap(flush: Write, sync: bool, dir: bool, open: Opened, newDir: bool)

  datatype Opened = Refused | Fresh(hasDir: bool)

  /** An arm's new sink, whether it raised the failure flag, and whether it may acknowledge. */
  datatype Arm = Arm(sink: Sink, fault: bool, ok: bool)

  function FreshHandle(hasDir: bool): Handle {
    Handle([], 0, !hasDir, hasDir, [], 0)
  }

  /** The sink `to_file_with_options` starts the writer with. */
  function OpenSink(hasDir: bool): Sink {
    Sink([], FreshHandle(hasDir), [], !hasDir, 0, false, {})
  }

  // ---- BufWriter and File operations --------------------------------------

  function FlushBuf(k: Sink, o: Write): (r: (Sink, bool)) {
    if k.buf == [] then (k, true)
    else if o.Wrote? then
      (k.(cur := k.cur.(file := k.cur.file + k.buf, whole := |k.cur.lines|), buf := []), true)
    else
      var n := Min(o.n, |k.buf|);
      (k.(cur := k.cur.(file := k.cur.file + k.buf[..n]), buf := k.buf[n..], broke := true), false)
  }

  /** A line that fits is buffered; otherwise the buffer is spilled first, and an oversized line bypasses it. */
  function WriteAll(k: Sink, tag: Tag, text: bytes, spill: Write, direct: Write): (r: (Sink, bool)) {
    if |text| <= BUF_WRITER_CAPACITY - |k.buf| && |text| < BUF_WRITER_CAPACITY then (Buffered(k, tag, text), true)
    else
      var (k1, spilled) := if |text| > BUF_WRITER_CAPACITY - |k.buf| then FlushBuf(k, spill) else (k, true);
      if !spilled then (k1.(lost := k1.lost + {tag}), false)
      else if |text| < BUF_WRITER_CAPACITY then (Buffered(k1, tag, text), true)
      else Direct(k1, tag, text, direct)
  }

  function Accept(h: Handle, tag: Tag, text: bytes, off: nat): Handle {
    h.(lines := h.lines + [Line(tag, text, off)])
  }

  function Buffered(k: Sink, tag: Tag, text: bytes): Sink {
    k.(cur := Accept(k.cur, tag, text, |k.cur.file| + |k.buf|), buf := k.buf + text)
  }

  function Direct(k: Sink, tag: Tag, text: bytes, o: Write): (Sink, bool) {
    if o.Wrote? then
      var h := Accept(k.cur, tag, text, |k.cur.file|);
      (k.(cur := h.(file := h.file + text, whole := |h.lines|)), true)
    else
      var h := k.cur.(file := k.cur.file + text[..Min(o.n, |text|)]);
      (k.(cur := h, broke := true, lost := k.lost + {tag}), false)
  }

  function SyncAll(k: Sink, done: bool): (Sink, bool) {
    if done then (k.(cur := k.cur.(synced := |k.cur.file|)), true) else (k, false)
  }

  /** `None` has nothing to sync: the entry is already durable. */
  function SyncAuditDir(k: Sink, done: bool): (Sink, bool) {
    if !k.cur.hasDir then (k, true)
    else if done then (k.(cur := k.cur.(entryDurable := true)), true)
    else (k, false)
  }

  // ---- The writer's arms --------------------------------------------------

  /** fsync, one-time directory fsync, visible-entry check: the tail of every durable path. */
  function Settle(k: Sink, ok: bool, o: Outcome): (Sink, bool) {
    if !ok then (k, false)
    else
      var (k1, synced) := SyncAll(k, o.sync);
      if !synced then (k1, false)
      else
        var (k2, entry) := if k1.dirSynced then (k1, true) else SyncAuditDir(k1, o.dir);
        if !entry then (k2, false)
        else (k2.(dirSynced := true), o.visible)
  }

  function RecordArm(k: Sink, id: nat, text: bytes, mustSync: bool, o: Outcome): (r: Arm) {
    var (k1, wrote) := WriteAll(k, Record(id), text, o.spill, o.direct);
    if mustSync then SyncArm(k1, wrote, o) else CountArm(k1, wrote, o.flush)
  }

  /** The durable path behind a record. */
  function SyncArm(k: Sink, wrote: bool, o: Outcome): Arm {
    var (k1, flushed) := FlushBuf(k, o.flush);
    var (k2, settled) := Settle(k1.(events := 0), wrote && flushed, o);
    Arm(k2, !settled, settled)
  }

  /** The buffered path: every hundredth record flushes. */
  function CountArm(k: Sink, wrote: bool, o: Write): Arm {
    if k.events + 1 >= FLUSH_EVENT_THRESHOLD then
      var (k1, flushed) := FlushBuf(k, o);
      Arm(k1.(events := 0), !wrote || !flushed, false)
    else
      Arm(k.(events := k.events + 1), !wrote, false)
  }

  /** Everything `reopen_sink` does before it opens the path again. */
  function Retire(k: Sink, o: Swap): (r: (Sink, bool)) {
    var (k1, flushed) := FlushBuf(k, o.flush);
    if !flushed then (k1, false)
    else
      var (k2, synced) := SyncAll(k1, o.sync);
      if !synced then (k2, false)
      else
        var (k3, entry) := if k2.dirSynced then (k2, true) else SyncAuditDir(k2, o.dir);
        if !entry then (k3, false) else (k3.(dirSynced := true), true)
  }

  function ReopenSink(k: Sink, o: Swap): (r: (Sink, bool)) {
    AfterRetire(Retire(k, o), o)
  }

  function AfterRetire(t: (Sink, bool), o: Swap): (Sink, bool) {
    if !t.1 || o.open.Refused? then (t.0, false) else OpenAgain(t.0, o)
  }

  function OpenAgain(k: Sink, o: Swap): (r: (Sink, bool))
    requires o.open.Fresh?
  {
    var k1 := k.(retired := Handles(k), cur := FreshHandle(o.open.hasDir), buf := []);
    var (k2, named) := SyncAuditDir(k1, o.newDir);
    (k2.(dirSynced := named), named)
  }

  function ReopenArm(k: Sink, request: nat, text: bytes, swap: Swap, o: Outcome): (r: Arm) {
    var (k1, swapped) := ReopenSink(k, swap);
    var (k2, wrote) := WriteAll(k1, Marker(request, swapped), text, o.spill, o.direct);
    var (k3, settled) := SettleMarker(k2, wrote, o);
    Arm(k3, !swapped || !settled, swapped && settled)
  }

  /** From the written marker to the reply: flush, fsync, directory and visibility. */
  function SettleMarker(k: Sink, wrote: bool, o: Outcome): (Sink, bool) {
    var k1 := k.(events := 0);
    var (k2, flushed) := if wrote then FlushBuf(k1, o.flush) else (k1, false);
    Settle(k2, flushed, o)
  }

  function FlushTick(k: Sink, o: Write): (r: Arm) {
    if k.events > 0 then
      var (k1, flushed) := FlushBuf(k, o);
      Arm(k1.(events := 0), !flushed, flushed)
    else Arm(k, false, true)
  }

  function FsyncTick(k: Sink, sync: bool, dir: bool): (r: Arm) {
    var (k1, synced) := SyncAll(k, sync);
    if k1.dirSynced then Arm(k1, !synced, synced)
    else
      var (k2, entry) := SyncAuditDir(k1, dir);
      Arm(k2.(dirSynced := entry), !synced || !entry, synced && entry)
  }

  /** The closed-channel arm: every step runs whatever the earlier ones did. */
  function CloseArm(k: Sink, o: Outcome): (r: Arm) {
    var (k1, flushed) := FlushBuf(k, o.flush);
    var (k2, synced) := SyncAll(k1, o.sync);
    var (k3, entry) := if k2.dirSynced then (k2, true) else SyncAuditDir(k2, o.dir);
    Arm(k3, !flushed || !synced || !entry || !o.visible, flushed && synced && entry && o.visible)
  }

  // ---- What the storage holds ---------------------------------------------

  function Handles(k: Sink): seq<Handle> {
    k.retired + [k.cur]
  }

  /** Every accepted line sits where it was placed in the handle's stream `file + tail`. */
  ghost predicate Intact(h: Handle, tail: bytes) {
    && h.synced <= |h.file|
    && forall i :: 0 <= i < |h.lines| ==> LineIn(h.lines[i], h.file + tail)
  }

  ghost predicate LineIn(l: Line, stream: bytes) {
    l.off + |l.text| <= |stream| && stream[l.off..l.off + |l.text|] == l.text
  }

  /** Nothing more to persist: the whole file and its name survive a crash. */
  ghost predicate Settled(h: Handle) {
    h.synced == |h.file| && h.entryDurable && Intact(h, [])
  }

  ghost predicate Room(k: Sink) { |k.buf| <= BUF_WRITER_CAPACITY }

  ghost predicate Entered(k: Sink) { k.dirSynced || !k.cur.hasDir ==> k.cur.entryDurable }

  ghost predicate SettledRetired(k: Sink) { forall i :: 0 <= i < |k.retired| ==> Settled(k.retired[i]) }

  /** Holds through every storage fault. */
  ghost predicate SinkOk(k: Sink) {
    Room(k) && Intact(k.cur, k.buf) && Entered(k) && SettledRetired(k) && Streams(k)
  }

  /** No byte lost, torn or repeated: the file and what waits behind it are the accepted lines. */
  ghost predicate Stream(h: Handle, tail: bytes) { h.file + tail == Flatten(Texts(h.lines)) }

  /**
   Until a `write_all` fails, every handle with its buffer is exactly the lines it
   accepted; until a flush fails too, the file ends between two of them.
   */
  ghost predicate Streams(k: Sink) { (k.lost != {} ==> k.broke) && Streamed(k) && Parted(k) }

  ghost predicate Streamed(k: Sink) {
    k.lost == {} ==> Stream(k.cur, k.buf) && forall i :: 0 <= i < |k.retired| ==> Stream(k.retired[i], [])
  }

  ghost predicate Parted(k: Sink) {
    !k.broke ==> Exact(k.cur, k.buf) && forall i :: 0 <= i < |k.retired| ==> Exact(k.retired[i], [])
  }

  /** Line `i` of handle `h` survives a crash: its bytes are in the fsynced part of a named file. */
  ghost predicate DurableLine(k: Sink, h: nat, i: nat) {
    && h < |Handles(k)|
    && i < |Handles(k)[h].lines|
    && Handles(k)[h].entryDurable
    && Handles(k)[h].synced <= |Handles(k)[h].file|
    && LineIn(Handles(k)[h].lines[i], Handles(k)[h].file[..Handles(k)[h].synced])
  }

  ghost predicate Durable(k: Sink, tag: Tag, text: bytes) {
    exists h: nat, i: nat :: DurableLine(k, h, i)
                             && Handles(k)[h].lines[i].tag == tag && Handles(k)[h].lines[i].text == text
  }

  function Texts(lines: seq<Line>): (r: seq<bytes>)
    ensures |r| == |lines|
    ensures forall i :: 0 <= i < |lines| ==> r[i] == lines[i].text
  {
    seq(|lines|, i requires 0 <= i < |lines| => lines[i].text)
  }

  /** The file is exactly its first `whole` lines and `tail` the remaining ones: no torn, lost or repeated byte. */
  ghost predicate Exact(h: Handle, tail: bytes) {
    && h.whole <= |h.lines|
    && h.file == Flatten(Texts(h.lines[..h.whole]))
    && tail == Flatten(Texts(h.lines[h.whole..]))
  }

  /** The first handle holds records only; a swapped-in one starts with its marker and holds records after it. */
  ghost predicate Marked(lines: seq<Line>, first: bool) {
    && (!first ==> lines != [] && lines[0].tag.Marker? && lines[0].tag.swapped)
    && forall i :: (if first then 0 else 1) <= i < |lines| ==> lines[i].tag.Record?
  }

  /** What holds while no storage operation has failed. */
  ghost predicate Clean(k: Sink) { !k.broke && Marked(k.cur.lines, k.retired == []) && CleanRetired(k) }

  ghost predicate CleanRetired(k: Sink) { forall i :: 0 <= i < |k.retired| ==> Marked(k.retired[i].lines, i == 0) }

  /** Every handle but the first starts with the marker of the reopen that swapped it in. */
  ghost predicate Led(k: Sink) { LedRetired(k) && (k.retired == [] || MarkerFirst(k.cur.lines)) }

  ghost predicate LedRetired(k: Sink) { forall i :: 1 <= i < |k.retired| ==> MarkerFirst(k.retired[i].lines) }

  ghost predicate MarkerFirst(lines: seq<Line>) { lines != [] && lines[0].tag.Marker? }

  /** A record as the queue carries it: the logging call it came from and its serialized line. */
  datatype Entry = Entry(id: nat, text: bytes)

  /** The records among `lines`, in order. */
  function Records(lines: seq<Line>): seq<Entry> {
    if lines == [] then []
    else
      var l := lines[|lines| - 1];
      Records(lines[..|lines| - 1]) + if l.tag.Record? then [Entry(l.tag.id, l.text)] else []
  }

  function Lines(handles: seq<Handle>): seq<Line> {
    if handles == [] then [] else Lines(handles[..|handles| - 1]) + handles[|handles| - 1].lines
  }

  /** Every line of the log, segment after segment. */
  function Journal(k: Sink): seq<Line> { Lines(k.retired) + k.cur.lines }

  /** The records of the log, markers removed. */
  function Recorded(k: Sink): seq<Entry> { Records(Journal(k)) }

  // ---- Later states keep what earlier ones held ----------------------------

  ghost predicate HandleGrows(g: Handle, h: Handle) {
    && g.file <= h.file && g.synced <= h.synced && g.lines <= h.lines
    && (g.entryDurable ==> h.entryDurable) && (g.synced <= |g.file| ==> h.synced <= |h.file|)
  }

  ghost predicate Grows(a: Sink, b: Sink) {
    && |Handles(a)| <= |Handles(b)|
    && forall i :: 0 <= i < |Handles(a)| ==> HandleGrows(Handles(a)[i], Handles(b)[i])
  }

  lemma GrowsTransitive(a: Sink, b: Sink, c: Sink)
    requires Grows(a, b) && Grows(b, c)
    ensures Grows(a, c)
  {
    forall i | 0 <= i < |Handles(a)| ensures HandleGrows(Handles(a)[i], Handles(c)[i]) {
      assert HandleGrows(Handles(a)[i], Handles(b)[i]) && HandleGrows(Handles(b)[i], Handles(c)[i]);
    }
  }

  lemma DurableGrows(a: Sink, b: Sink, tag: Tag, text: bytes)
    requires Grows(a, b) && Durable(a, tag, text)
    ensures Durable(b, tag, text)
  {
    var h: nat, i: nat :| DurableLine(a, h, i)
      && Handles(a)[h].lines[i].tag == tag && Handles(a)[h].lines[i].text == text;
    DurableLineGrows(a, b, h, i);
  }

  lemma DurableLineGrows(a: Sink, b: Sink, h: nat, i: nat)
    requires Grows(a, b) && DurableLine(a, h, i)
    ensures DurableLine(b, h, i) && Handles(b)[h].lines[i] == Handles(a)[h].lines[i]
  {
    var g, f := Handles(a)[h], Handles(b)[h];
    assert HandleGrows(g, f);
    assert f.lines[i] == g.lines[i];
    assert g.file[..g.synced] <= f.file[..f.synced];
    LineInPrefix(g.lines[i], g.file[..g.synced], f.file[..f.synced]);
  }

  /** Replacing the live handle by one that grew from it. */
  lemma GrowsCur(a: Sink, b: Sink)
    requires a.retired == b.retired && HandleGrows(a.cur, b.cur)
    ensures Grows(a, b)
  {
    forall i | 0 <= i < |Handles(a)| ensures HandleGrows(Handles(a)[i], Handles(b)[i]) {
      if i < |a.retired| { assert Handles(a)[i] == a.retired[i] == Handles(b)[i]; }
    }
  }

  // ---- What each operation keeps --------------------------------------------

  /** The parts of the sink an operation on the live handle leaves alone. */
  ghost predicate SameFrame(a: Sink, b: Sink) {
    a.retired == b.retired && a.dirSynced == b.dirSynced && a.cur.hasDir == b.cur.hasDir
    && a.cur.entryDurable == b.cur.entryDurable
  }

  lemma LineInPrefix(l: Line, was: bytes, now: bytes)
    requires LineIn(l, was) && was <= now
    ensures LineIn(l, now)
  {
    assert now[l.off..l.off + |l.text|] == was[l.off..l.off + |l.text|];
  }

  /** The line `write_all` places next. */
  function NextLine(k: Sink, tag: Tag, text: bytes): Line { Line(tag, text, |k.cur.file| + |k.buf|) }

  /** Appending to the stream, and possibly to the history, keeps every placed line. */
  lemma IntactGrows(h: Handle, tail: bytes, h': Handle, tail': bytes)
    requires Intact(h, tail) && h.file + tail <= h'.file + tail'
    requires h.lines <= h'.lines && h'.synced <= |h'.file|
    requires forall i :: |h.lines| <= i < |h'.lines| ==> LineIn(h'.lines[i], h'.file + tail')
    ensures Intact(h', tail')
  {
    forall i | 0 <= i < |h'.lines| ensures LineIn(h'.lines[i], h'.file + tail') {
      if i < |h.lines| {
        assert h'.lines[i] == h.lines[i];
        LineInPrefix(h.lines[i], h.file + tail, h'.file + tail');
      }
    }
  }

  lemma FlattenSnoc(lines: seq<Line>, last: Line)
    ensures Flatten(Texts(lines + [last])) == Flatten(Texts(lines)) + last.text
  {
    assert Texts(lines + [last]) == Texts(lines) + [last.text];
    FlattenAppend(Texts(lines), [last.text]);
    FlattenOne(last.text);
  }

  lemma FlushStream(h: Handle, tail: bytes)
    requires Stream(h, tail)
    ensures var g := h.(file := h.file + tail, whole := |h.lines|); Exact(g, []) && Stream(g, [])
  {
    var lines := h.lines;
    assert lines[..|lines|] == lines && Texts(lines[|lines|..]) == [];
    assert (h.file + tail) + [] == h.file + tail;
  }

  lemma SplitTail(file: bytes, tail: bytes, n: nat)
    requires n <= |tail|
    ensures (file + tail[..n]) + tail[n..] == file + tail
  {
  }

  lemma FlushStreams(k: Sink, o: Write)
    requires Streams(k)
    ensures Streams(FlushBuf(k, o).0)
  {
    if k.buf != [] && k.lost == {} {
      if o.Wrote? { FlushStream(k.cur, k.buf); } else { SplitTail(k.cur.file, k.buf, Min(o.n, |k.buf|)); }
    }
  }

  /** A flush moves bytes from the buffer to the file. */
  ghost predicate Flushed(a: Sink, b: Sink, ok: bool) {
    && b.cur.file + b.buf == a.cur.file + a.buf && a.cur.file <= b.cur.file && |b.buf| <= |a.buf|
    && (ok ==> b.buf == [])
    && b.cur.lines == a.cur.lines && b.cur.synced == a.cur.synced && SameFrame(a, b)
    && b.events == a.events && b.lost == a.lost && b.broke == (a.broke || !ok)
  }

  lemma FlushMoves(k: Sink, o: Write)
    ensures Flushed(k, FlushBuf(k, o).0, FlushBuf(k, o).1)
  {
    if k.buf != [] && !o.Wrote? { SplitTail(k.cur.file, k.buf, Min(o.n, |k.buf|)); }
  }

  lemma FlushedIntact(a: Sink, b: Sink, ok: bool)
    requires Intact(a.cur, a.buf) && Flushed(a, b, ok)
    ensures Intact(b.cur, b.buf)
  {
    IntactGrows(a.cur, a.buf, b.cur, b.buf);
  }

  lemma FlushKeeps(k: Sink, o: Write)
    requires SinkOk(k)
    ensures var r := FlushBuf(k, o); SinkOk(r.0) && Grows(k, r.0) && Flushed(k, r.0, r.1)
  {
    var r := FlushBuf(k, o);
    FlushMoves(k, o);
    FlushedIntact(k, r.0, r.1);
    FlushStreams(k, o);
    GrowsCur(k, r.0);
  }

  lemma BufferedStream(h: Handle, tail: bytes, line: Line)
    requires Stream(h, tail)
    ensures Stream(h.(lines := h.lines + [line]), tail + line.text)
  {
    FlattenSnoc(h.lines, line);
    assert h.file + (tail + line.text) == (h.file + tail) + line.text;
  }

  lemma BufferedExact(h: Handle, tail: bytes, line: Line)
    requires Exact(h, tail)
    ensures Exact(h.(lines := h.lines + [line]), tail + line.text)
  {
    var w, now := h.whole, h.lines + [line];
    assert now[..w] == h.lines[..w] && now[w..] == h.lines[w..] + [line];
    FlattenSnoc(h.lines[w..], line);
  }

  lemma BufferedStreams(k: Sink, tag: Tag, text: bytes)
    requires Streams(k)
    ensures Streams(Buffered(k, tag, text))
  {
    var line := NextLine(k, tag, text);
    if k.lost == {} { BufferedStream(k.cur, k.buf, line); }
    if !k.broke { BufferedExact(k.cur, k.buf, line); }
  }

  lemma BufferedIntact(k: Sink, tag: Tag, text: bytes)
    requires Intact(k.cur, k.buf)
    ensures Intact(Buffered(k, tag, text).cur, Buffered(k, tag, text).buf)
  {
    var r := Buffered(k, tag, text);
    assert r.cur.file + r.buf == (k.cur.file + k.buf) + text;
    IntactGrows(k.cur, k.buf, r.cur, r.buf);
  }

  lemma BufferedKeeps(k: Sink, tag: Tag, text: bytes)
    requires SinkOk(k) && |k.buf| + |text| <= BUF_WRITER_CAPACITY
    ensures WriteKept(k, Buffered(k, tag, text), NextLine(k, tag, text), true)
  {
    GrowsCur(k, Buffered(k, tag, text));
    BufferedIntact(k, tag, text);
    BufferedStreams(k, tag, text);
  }

  lemma DirectStreams(k: Sink, tag: Tag, text: bytes, o: Write)
    requires Streams(k) && k.buf == []
    ensures Streams(Direct(k, tag, text, o).0)
  {
    if o.Wrote? && k.lost == {} {
      var h := Accept(k.cur, tag, text, |k.cur.file|);
      FlattenSnoc(k.cur.lines, h.lines[|k.cur.lines|]);
      assert k.cur.file + [] == k.cur.file;
      assert Stream(h, text);
      FlushStream(h, text);
    }
  }

  lemma DirectIntact(k: Sink, tag: Tag, text: bytes, o: Write)
    requires Intact(k.cur, k.buf) && k.buf == []
    ensures Intact(Direct(k, tag, text, o).0.cur, [])
  {
    var r := Direct(k, tag, text, o).0;
    assert r.cur.file + [] == r.cur.file && k.cur.file + [] == k.cur.file;
    IntactGrows(k.cur, [], r.cur, []);
  }

  lemma DirectKeeps(k: Sink, tag: Tag, text: bytes, o: Write)
    requires SinkOk(k) && k.buf == []
    ensures WriteKept(k, Direct(k, tag, text, o).0, NextLine(k, tag, text), Direct(k, tag, text, o).1)
  {
    GrowsCur(k, Direct(k, tag, text, o).0);
    DirectIntact(k, tag, text, o);
    DirectStreams(k, tag, text, o);
  }

  /** What a `write_all` adds to the history: its line, or the memory of having lost it. */
  function Added(line: Line, ok: bool): seq<Line> { if ok then [line] else [] }

  function Gone(tag: Tag, ok: bool): set<Tag> { if ok then {} else {tag} }

  /** `write_all` from `a` to `b`. */
  ghost predicate WriteKept(a: Sink, b: Sink, line: Line, ok: bool) {
    && SinkOk(b) && Grows(a, b) && SameFrame(a, b) && b.cur.lines == a.cur.lines + Added(line, ok)
    && b.lost == a.lost + Gone(line.tag, ok) && (if ok then b.broke == a.broke else b.broke)
  }

  /** A write behind a spill that went through. */
  lemma SpilledKeeps(k: Sink, spill: Write, b: Sink, tag: Tag, text: bytes, ok: bool)
    requires SinkOk(k) && FlushBuf(k, spill).1
    requires WriteKept(FlushBuf(k, spill).0, b, NextLine(FlushBuf(k, spill).0, tag, text), ok)
    ensures WriteKept(k, b, NextLine(k, tag, text), ok)
  {
    var f := FlushBuf(k, spill).0;
    FlushKeeps(k, spill);
    assert |f.cur.file| + |f.buf| == |f.cur.file + f.buf| == |k.cur.file| + |k.buf|;
    GrowsTransitive(k, f, b);
  }

  lemma SpillFails(k: Sink, spill: Write, tag: Tag, text: bytes)
    requires SinkOk(k) && !FlushBuf(k, spill).1
    ensures WriteKept(k, FlushBuf(k, spill).0.(lost := FlushBuf(k, spill).0.lost + {tag}), NextLine(k, tag, text),
                      false)
  {
    var f := FlushBuf(k, spill).0;
    FlushKeeps(k, spill);
    GrowsCur(k, f.(lost := f.lost + {tag}));
  }

  lemma WriteAllKeeps(k: Sink, tag: Tag, text: bytes, spill: Write, direct: Write)
    requires SinkOk(k)
    ensures var r := WriteAll(k, tag, text, spill, direct); WriteKept(k, r.0, NextLine(k, tag, text), r.1)
  {
    var room := BUF_WRITER_CAPACITY - |k.buf|;
    if |text| <= room && |text| < BUF_WRITER_CAPACITY {
      BufferedKeeps(k, tag, text);
    } else if |text| <= room {
      DirectKeeps(k, tag, text, direct);
    } else if !FlushBuf(k, spill).1 {
      SpillFails(k, spill, tag, text);
    } else {
      FlushKeeps(k, spill);
      var k1 := FlushBuf(k, spill).0;
      if |text| < BUF_WRITER_CAPACITY {
        BufferedKeeps(k1, tag, text);
        SpilledKeeps(k, spill, Buffered(k1, tag, text), tag, text, true);
      } else {
        DirectKeeps(k1, tag, text, direct);
        SpilledKeeps(k, spill, Direct(k1, tag, text, direct).0, tag, text, Direct(k1, tag, text, direct).1);
      }
    }
  }

  /** One more line in the live handle is one more line of the log. */
  lemma JournalWrites(a: Sink, b: Sink, line: Line, ok: bool)
    requires WriteKept(a, b, line, ok)
    ensures Journal(b) == Journal(a) + Added(line, ok)
  {
    assert Lines(a.retired) + (a.cur.lines + Added(line, ok)) == (Lines(a.retired) + a.cur.lines) + Added(line, ok);
  }

  lemma RecordedMore(log: seq<Line>, line: Line)
    ensures Records(log + [line]) == Records(log) + if line.tag.Record? then [Entry(line.tag.id, line.text)] else []
  {
    assert (log + [line])[..|log|] == log;
  }

  lemma MarkedMore(was: seq<Line>, line: Line, first: bool)
    requires if first || was != [] then Marked(was, first) && line.tag.Record? else line.tag.Marker? && line.tag.swapped
    ensures Marked(was + [line], first)
  {
  }

  // ---- What each arm keeps --------------------------------------------------

  /** Nothing buffered and every handle settled. */
  ghost predicate AllSettled(k: Sink) {
    SinkOk(k) && k.buf == [] && Settled(k.cur)
  }

  /** `fsync` and directory syncs move durability only. */
  ghost predicate SameContent(a: Sink, b: Sink) {
    && a.retired == b.retired && a.buf == b.buf && a.broke == b.broke && a.lost == b.lost
    && a.cur.file == b.cur.file && a.cur.lines == b.cur.lines && a.cur.whole == b.cur.whole
    && a.cur.synced <= b.cur.synced && (a.cur.entryDurable ==> b.cur.entryDurable)
  }

  lemma SameContentKeeps(a: Sink, b: Sink)
    requires SinkOk(a) && SameContent(a, b) && b.cur.synced <= |b.cur.file|
    requires Entered(b)
    ensures SinkOk(b) && Grows(a, b) && Journal(a) == Journal(b) && (Clean(a) ==> Clean(b)) && (Led(a) ==> Led(b))
  {
    GrowsCur(a, b);
    IntactGrows(a.cur, a.buf, b.cur, b.buf);
  }

  lemma SettleKeeps(k: Sink, ok: bool, o: Outcome)
    requires SinkOk(k)
    ensures var r := Settle(k, ok, o).0;
            SinkOk(r) && Grows(k, r) && SameContent(k, r)
    ensures Settle(k, ok, o).1 && k.buf == [] ==> AllSettled(Settle(k, ok, o).0)
  {
    SameContentKeeps(k, Settle(k, ok, o).0);
    assert k.cur.file + [] == k.cur.file;
  }

  /**
   One operation's contract: the lines it adds to the log, the lines it loses, what
   it keeps whatever happens, and what it carries over when it did not fail.
   */
  ghost predicate Kept(a: Sink, b: Sink, ok: bool, added: seq<Line>, gone: set<Tag>) {
    && SinkOk(b) && Grows(a, b) && Journal(b) == Journal(a) + added && b.lost == a.lost + gone
    && (b.lost == {} && Led(a) ==> Led(b))
    && (ok ==> (Clean(a) ==> Clean(b)))
  }

  /** An operation that neither adds nor loses a line. */
  ghost predicate Calm(a: Sink, b: Sink, ok: bool) { Kept(a, b, ok, [], {}) }

  lemma KeptTransitive(a: Sink, b: Sink, c: Sink, ok1: bool, ok2: bool, added: seq<Line>, gone: set<Tag>)
    requires Kept(a, b, ok1, added, gone) && Calm(b, c, ok2)
    ensures Kept(a, c, ok1 && ok2, added, gone)
  {
    GrowsTransitive(a, b, c);
    assert Journal(b) + [] == Journal(b);
  }

  lemma FlushKept(k: Sink, o: Write)
    requires SinkOk(k)
    ensures Calm(k, FlushBuf(k, o).0, FlushBuf(k, o).1)
  {
    FlushKeeps(k, o);
    assert Journal(k) + [] == Journal(k);
  }

  lemma CountKept(k: Sink, events: nat)
    requires SinkOk(k)
    ensures Calm(k, k.(events := events), true)
  {
    SameContentKeeps(k, k.(events := events));
    assert Journal(k) + [] == Journal(k);
  }

  lemma SameContentKept(a: Sink, b: Sink)
    requires SinkOk(a) && SameContent(a, b) && b.cur.synced <= |b.cur.file| && Entered(b)
    ensures Calm(a, b, true)
  {
    SameContentKeeps(a, b);
    assert Journal(a) + [] == Journal(a);
  }

  lemma SettleKept(k: Sink, ok: bool, o: Outcome)
    requires SinkOk(k)
    ensures Calm(k, Settle(k, ok, o).0, true)
  {
    SettleKeeps(k, ok, o);
    SameContentKeeps(k, Settle(k, ok, o).0);
    assert Journal(k) + [] == Journal(k);
  }

  /** The record's line, as `k` would place it. */
  function RecordLine(k: Sink, e: Entry): Line { NextLine(k, Record(e.id), e.text) }

  /** A record's `write_all` ended in `w`. */
  ghost predicate Written(k: Sink, e: Entry, w: (Sink, bool)) {
    Kept(k, w.0, w.1, Added(RecordLine(k, e), w.1), Gone(Record(e.id), w.1))
  }

  lemma RecordKept(k: Sink, e: Entry, o: Outcome)
    requires SinkOk(k)
    ensures Written(k, e, WriteAll(k, Record(e.id), e.text, o.spill, o.direct))
  {
    var w := WriteAll(k, Record(e.id), e.text, o.spill, o.direct);
    WriteAllKeeps(k, Record(e.id), e.text, o.spill, o.direct);
    JournalWrites(k, w.0, RecordLine(k, e), w.1);
    if w.1 && Clean(k) { MarkedMore(k.cur.lines, RecordLine(k, e), k.retired == []); }
  }

  /** What the record arm promises, given whether its write was accepted. */
  ghost predicate RecordPromise(k: Sink, e: Entry, mustSync: bool, wrote: bool, r: Arm) {
    && Kept(k, r.sink, !r.fault, Added(RecordLine(k, e), wrote), Gone(Record(e.id), wrote)) && (!wrote ==> r.fault)
    && (r.ok ==> !r.fault && AllSettled(r.sink)) && (mustSync ==> r.ok == !r.fault)
  }

  lemma FlushedKept(k: Sink, e: Entry, w: (Sink, bool), o: Write)
    requires Written(k, e, w)
    ensures var f := FlushBuf(w.0, o);
            && Kept(k, f.0.(events := 0), w.1 && f.1, Added(RecordLine(k, e), w.1), Gone(Record(e.id), w.1))
            && (f.1 ==> f.0.buf == [])
  {
    var added, gone := Added(RecordLine(k, e), w.1), Gone(Record(e.id), w.1);
    FlushKept(w.0, o);
    FlushMoves(w.0, o);
    var f := FlushBuf(w.0, o);
    KeptTransitive(k, w.0, f.0, w.1, f.1, added, gone);
    CountKept(f.0, 0);
    KeptTransitive(k, f.0, f.0.(events := 0), w.1 && f.1, true, added, gone);
  }

  lemma SyncArmKept(k: Sink, e: Entry, w: (Sink, bool), o: Outcome)
    requires Written(k, e, w)
    ensures RecordPromise(k, e, true, w.1, SyncArm(w.0, w.1, o))
  {
    FlushedKept(k, e, w, o.flush);
    var f := FlushBuf(w.0, o.flush);
    var z, ok := f.0.(events := 0), w.1 && f.1;
    SettleKept(z, ok, o);
    SettleKeeps(z, ok, o);
    KeptTransitive(k, z, Settle(z, ok, o).0, ok, true, Added(RecordLine(k, e), w.1), Gone(Record(e.id), w.1));
  }

  lemma CountArmKept(k: Sink, e: Entry, w: (Sink, bool), o: Write)
    requires Written(k, e, w)
    ensures RecordPromise(k, e, false, w.1, CountArm(w.0, w.1, o))
  {
    if w.0.events + 1 >= FLUSH_EVENT_THRESHOLD {
      FlushedKept(k, e, w, o);
    } else {
      var more := w.0.(events := w.0.events + 1);
      CountKept(w.0, w.0.events + 1);
      KeptTransitive(k, w.0, more, w.1, true, Added(RecordLine(k, e), w.1), Gone(Record(e.id), w.1));
    }
  }

  /**
   One record through every storage outcome: it is the log's next line unless its
   own write failed, which is remembered, and an acknowledgement leaves nothing
   unsettled. A record that must be synced is acknowledged or faults.
   */
  lemma RecordArmKept(k: Sink, e: Entry, mustSync: bool, o: Outcome)
    requires SinkOk(k)
    ensures RecordPromise(k, e, mustSync, WriteAll(k, Record(e.id), e.text, o.spill, o.direct).1,
                          RecordArm(k, e.id, e.text, mustSync, o))
  {
    RecordKept(k, e, o);
    var w := WriteAll(k, Record(e.id), e.text, o.spill, o.direct);
    SyncArmKept(k, e, w, o);
    CountArmKept(k, e, w, o.flush);
  }

  lemma FlushTickKept(k: Sink, o: Write)
    requires SinkOk(k)
    ensures Calm(k, FlushTick(k, o).sink, !FlushTick(k, o).fault)
  {
    if k.events > 0 {
      FlushKept(k, o);
      var f := FlushBuf(k, o);
      CountKept(f.0, 0);
      KeptTransitive(k, f.0, f.0.(events := 0), f.1, true, [], {});
    } else {
      CountKept(k, k.events);
    }
  }

  lemma FsyncTickKept(k: Sink, sync: bool, dir: bool)
    requires SinkOk(k)
    ensures Calm(k, FsyncTick(k, sync, dir).sink, true)
  {
    SameContentKeeps(k, FsyncTick(k, sync, dir).sink);
    assert Journal(k) + [] == Journal(k);
  }

  lemma CloseArmKept(k: Sink, o: Outcome)
    requires SinkOk(k)
    ensures var r := CloseArm(k, o); Calm(k, r.sink, !r.fault) && (!r.fault ==> AllSettled(r.sink))
  {
    FlushKept(k, o.flush);
    FlushMoves(k, o.flush);
    var f := FlushBuf(k, o.flush);
    var r := CloseArm(k, o);
    SameContentKept(f.0, r.sink);
    KeptTransitive(k, f.0, r.sink, f.1, true, [], {});
    assert f.0.cur.file + [] == f.0.cur.file;
  }

  // ---- Rotation --------------------------------------------------------------

  /** `b` keeps every handle of `k` and appends through a fresh one. */
  ghost predicate Swaps(k: Sink, b: Sink) {
    && b.retired == Handles(k) && b.buf == [] && b.broke == k.broke && b.lost == k.lost
    && b.cur.file == [] && b.cur.synced == 0 && b.cur.lines == [] && b.cur.whole == 0
    && Entered(b)
  }

  lemma SwapStreams(k: Sink, b: Sink)
    requires Streams(k) && k.buf == [] && Swaps(k, b)
    ensures Streams(b)
  {
    assert Texts(b.cur.lines[..0]) == [] && Texts(b.cur.lines[0..]) == [] && Texts(b.cur.lines) == [];
  }

  lemma SwapGrows(k: Sink, b: Sink)
    requires Swaps(k, b)
    ensures Grows(k, b) && Journal(b) == Journal(k)
  {
    assert Handles(b) == Handles(k) + [b.cur];
    assert b.retired[..|b.retired| - 1] == k.retired;
    assert forall i :: 0 <= i < |Handles(k)| ==> HandleGrows(Handles(k)[i], Handles(b)[i]);
  }

  lemma SwapOk(k: Sink, b: Sink)
    requires AllSettled(k) && Swaps(k, b)
    ensures SinkOk(b)
  {
    SwapStreams(k, b);
    forall i | 0 <= i < |b.retired| ensures Settled(b.retired[i]) {
      if i < |k.retired| { assert b.retired[i] == k.retired[i]; } else { assert b.retired[i] == k.cur; }
    }
  }

  lemma SwapMarks(k: Sink, b: Sink)
    requires Swaps(k, b)
    ensures (Clean(k) ==> CleanRetired(b)) && (Led(k) ==> LedRetired(b))
  {
  }

  lemma RetireKept(k: Sink, o: Swap)
    requires SinkOk(k)
    ensures var r := Retire(k, o);
            Calm(k, r.0, r.1) && (r.1 ==> AllSettled(r.0) && r.0.broke == k.broke) && r.0.lost == k.lost
  {
    FlushKept(k, o.flush);
    FlushKeeps(k, o.flush);
    var f := FlushBuf(k, o.flush);
    var r := Retire(k, o);
    SameContentKeeps(f.0, r.0);
    assert Journal(f.0) + [] == Journal(f.0);
    KeptTransitive(k, f.0, r.0, f.1, true, [], {});
    assert f.0.cur.file + [] == f.0.cur.file;
  }

  /** Nothing written through the live handle yet. */
  ghost predicate Blank(k: Sink) { k.buf == [] && k.cur.lines == [] && k.cur.file == [] && k.cur.whole == 0 }

  /** A sink just swapped in: every older handle settled, nothing written through the new one yet. */
  ghost predicate JustSwapped(k: Sink) { SinkOk(k) && k.retired != [] && Blank(k) && k.cur.entryDurable }

  /** Between the swap and its marker: everything is kept, but the new handle still waits for its first line. */
  ghost predicate Swapping(a: Sink, b: Sink, ok: bool) {
    && SinkOk(b) && Grows(a, b) && Journal(b) == Journal(a) && b.lost == a.lost
    && (b.lost == {} && Led(a) ==> Led(b) || (Blank(b) && b.retired != [] && LedRetired(b)))
    && (ok ==> JustSwapped(b) && b.broke == a.broke && (Clean(a) ==> CleanRetired(b)))
  }

  /** Opening the path again, after the old handle was retired. */
  ghost predicate OpenPromise(t: Sink, r: Sink, ok: bool) {
    && SinkOk(r) && Grows(t, r) && Journal(r) == Journal(t) && Blank(r) && r.retired != []
    && (Clean(t) ==> CleanRetired(r)) && (Led(t) ==> LedRetired(r)) && r.broke == t.broke && r.lost == t.lost
    && (ok ==> JustSwapped(r))
  }

  lemma OpenAgainKeeps(t: Sink, o: Swap)
    requires AllSettled(t) && o.open.Fresh?
    ensures OpenPromise(t, OpenAgain(t, o).0, OpenAgain(t, o).1)
  {
    var r := OpenAgain(t, o).0;
    SwapGrows(t, r);
    SwapOk(t, r);
    SwapMarks(t, r);
  }

  lemma StaysAfterRetire(k: Sink, t: Sink, ok: bool)
    requires Calm(k, t, ok)
    ensures Swapping(k, t, false)
  {
    assert Journal(k) + [] == Journal(k);
  }

  lemma SwapsAfterRetire(k: Sink, t: Sink, r: Sink, ok: bool)
    requires Calm(k, t, true) && t.broke == k.broke && OpenPromise(t, r, ok)
    ensures Swapping(k, r, ok)
  {
    assert Journal(k) + [] == Journal(k);
    GrowsTransitive(k, t, r);
  }

  lemma AfterRetireKeeps(k: Sink, t: (Sink, bool), o: Swap)
    requires Calm(k, t.0, t.1) && (t.1 ==> AllSettled(t.0) && t.0.broke == k.broke)
    ensures Swapping(k, AfterRetire(t, o).0, AfterRetire(t, o).1)
  {
    if t.1 && o.open.Fresh? { FreshAfterRetire(k, t.0, o); } else { StaysAfterRetire(k, t.0, t.1); }
  }

  lemma FreshAfterRetire(k: Sink, t: Sink, o: Swap)
    requires Calm(k, t, true) && AllSettled(t) && t.broke == k.broke && o.open.Fresh?
    ensures Swapping(k, OpenAgain(t, o).0, OpenAgain(t, o).1)
  {
    OpenAgainKeeps(t, o);
    SwapsAfterRetire(k, t, OpenAgain(t, o).0, OpenAgain(t, o).1);
  }

  /**
   A handle is retired only once it is settled, so a reopen, whatever fails in
   it, loses, repeats and moves no record.
   */
  lemma ReopenSinkKeeps(k: Sink, o: Swap)
    requires SinkOk(k)
    ensures Swapping(k, ReopenSink(k, o).0, ReopenSink(k, o).1)
  {
    RetireKept(k, o);
    AfterRetireKeeps(k, Retire(k, o), o);
  }

  /** A marker, written to the new handle or to the one that stayed. */
  lemma MarkerKept(a: Sink, k: Sink, request: nat, swapped: bool, text: bytes, o: Outcome)
    requires Swapping(a, k, swapped)
    ensures var w := WriteAll(k, Marker(request, swapped), text, o.spill, o.direct);
            var line := NextLine(k, Marker(request, swapped), text);
            && Kept(a, w.0, swapped && w.1, Added(line, w.1), Gone(line.tag, w.1))
            && (swapped && w.1 ==> w.0.cur.lines == [line] && w.0.retired != [])
  {
    var tag := Marker(request, swapped);
    var w := WriteAll(k, tag, text, o.spill, o.direct);
    WriteAllKeeps(k, tag, text, o.spill, o.direct);
    GrowsTransitive(a, k, w.0);
    JournalWrites(k, w.0, NextLine(k, tag, text), w.1);
  }

  /** The new handle of an acknowledged reopen: settled, holding its marker and nothing else. */
  ghost predicate Rotated(k: Sink, request: nat, text: bytes) {
    && AllSettled(k) && k.retired != []
    && |k.cur.lines| == 1 && k.cur.lines[0].tag == Marker(request, true) && k.cur.lines[0].text == text
  }

  /** What settling a marker promises. */
  ghost predicate MarkerPromise(m: Sink, wrote: bool, r: (Sink, bool)) {
    && Calm(m, r.0, wrote ==> r.1) && r.0.cur.lines == m.cur.lines && r.0.retired == m.retired
    && (r.1 ==> wrote && AllSettled(r.0))
  }

  lemma SettleMarkerKept(m: Sink, wrote: bool, o: Outcome)
    requires SinkOk(m)
    ensures MarkerPromise(m, wrote, SettleMarker(m, wrote, o))
  {
    var z := m.(events := 0);
    CountKept(m, 0);
    FlushKept(z, o.flush);
    FlushMoves(z, o.flush);
    var fb := FlushBuf(z, o.flush);
    KeptTransitive(m, z, fb.0, true, fb.1, [], {});
    var f := if wrote then fb.0 else z;
    var flushed := wrote && fb.1;
    SettleKept(f, flushed, o);
    SettleKeeps(f, flushed, o);
    KeptTransitive(m, f, Settle(f, flushed, o).0, wrote ==> flushed, true, [], {});
  }

  /** What the reopen arm promises, given the marker's line and whether its write was accepted. */
  ghost predicate ReopenPromise(k: Sink, request: nat, text: bytes, line: Line, wrote: bool, r: Arm) {
    && Kept(k, r.sink, !r.fault, Added(line, wrote), Gone(line.tag, wrote)) && Recorded(r.sink) == Recorded(k)
    && line.tag.Marker? && line.tag.request == request && line.text == text
    && r.ok == !r.fault && (r.ok ==> Rotated(r.sink, request, text))
  }

  lemma MarkersAreNoRecords(log: seq<Line>, line: Line, wrote: bool)
    requires line.tag.Marker?
    ensures Records(log + Added(line, wrote)) == Records(log)
  {
    if wrote { RecordedMore(log, line); } else { assert log + [] == log; }
  }

  lemma MarkerSettles(k: Sink, m: Sink, swapped: bool, wrote: bool, line: Line, r: (Sink, bool))
    requires line.tag.Marker? && line.tag.swapped == swapped
    requires Kept(k, m, swapped && wrote, Added(line, wrote), Gone(line.tag, wrote)) && MarkerPromise(m, wrote, r)
    requires swapped && wrote ==> m.retired != [] && m.cur.lines == [line]
    ensures ReopenPromise(k, line.tag.request, line.text, line, wrote, Arm(r.0, !swapped || !r.1, swapped && r.1))
  {
    KeptTransitive(k, m, r.0, swapped && wrote, wrote ==> r.1, Added(line, wrote), Gone(line.tag, wrote));
    MarkersAreNoRecords(Journal(k), line, wrote);
  }

  /** The marker a reopen writes, where it writes it. */
  function MarkerLine(k: Sink, request: nat, text: bytes, swap: Swap): Line {
    var s := ReopenSink(k, swap);
    NextLine(s.0, Marker(request, s.1), text)
  }

  predicate MarkerWritten(k: Sink, request: nat, text: bytes, swap: Swap, o: Outcome) {
    var s := ReopenSink(k, swap);
    WriteAll(s.0, Marker(request, s.1), text, o.spill, o.direct).1
  }

  /**
   Rotation through every storage outcome: all handles survive, no record is
   lost, repeated or moved whatever fails, the marker is the log's next line unless
   its own write failed, and an acknowledgement means it is durably the new
   handle's only line.
   */
  lemma ReopenArmKept(k: Sink, request: nat, text: bytes, swap: Swap, o: Outcome)
    requires SinkOk(k)
    ensures ReopenPromise(k, request, text, MarkerLine(k, request, text, swap),
                          MarkerWritten(k, request, text, swap, o),
                          ReopenArm(k, request, text, swap, o))
  {
    ReopenSinkKeeps(k, swap);
    var s := ReopenSink(k, swap);
    var w := WriteAll(s.0, Marker(request, s.1), text, o.spill, o.direct);
    MarkerKept(k, s.0, request, s.1, text, o);
    SettleMarkerKept(w.0, w.1, o);
    MarkerSettles(k, w.0, s.1, w.1, MarkerLine(k, request, text, swap), SettleMarker(w.0, w.1, o));
  }

  // ---- Settled sinks are durable ---------------------------------------------

  lemma {:induction false} RecordedLine(lines: seq<Line>, e: Entry) returns (i: nat)
    requires e in Records(lines)
    ensures i < |lines| && lines[i].tag == Record(e.id) && lines[i].text == e.text
  {
    var n := |lines| - 1;
    if lines[n].tag == Record(e.id) && lines[n].text == e.text {
      i := n;
    } else {
      i := RecordedLine(lines[..n], e);
    }
  }

  lemma {:induction false} LineOf(handles: seq<Handle>, p: nat) returns (h: nat, i: nat)
    requires p < |Lines(handles)|
    ensures h < |handles| && i < |handles[h].lines| && handles[h].lines[i] == Lines(handles)[p]
  {
    var n := |handles| - 1;
    var before := |Lines(handles[..n])|;
    if p >= before {
      h, i := n, p - before;
    } else {
      h, i := LineOf(handles[..n], p);
    }
  }

  lemma JournalIsLines(k: Sink)
    ensures Journal(k) == Lines(Handles(k))
  {
    assert Handles(k)[..|Handles(k)| - 1] == k.retired;
  }

  lemma {:induction false} LinesAppend(a: seq<Handle>, b: seq<Handle>)
    ensures Lines(a + b) == Lines(a) + Lines(b)
  {
    if b == [] {
      assert a + b == a;
    } else {
      var n := |b| - 1;
      assert (a + b)[..|a| + n] == a + b[..n];
      LinesAppend(a, b[..n]);
    }
  }

  lemma JournalSplits(k: Sink, h: nat)
    requires h <= |Handles(k)|
    ensures Journal(k) == Lines(Handles(k)[..h]) + Lines(Handles(k)[h..])
  {
    JournalIsLines(k);
    assert Handles(k)[..h] + Handles(k)[h..] == Handles(k);
    LinesAppend(Handles(k)[..h], Handles(k)[h..]);
  }

  lemma LinesHead(handles: seq<Handle>)
    requires handles != [] && handles[0].lines != []
    ensures Lines(handles) != [] && Lines(handles)[0] == handles[0].lines[0]
  {
    assert handles == handles[..1] + handles[1..] && handles[..1] == [handles[0]] && handles[..1][..0] == [];
    LinesAppend(handles[..1], handles[1..]);
  }

  lemma {:induction false} RecordsAppend(a: seq<Line>, b: seq<Line>)
    ensures Records(a + b) == Records(a) + Records(b)
  {
    if b == [] {
      assert a + b == a;
    } else {
      var n := |b| - 1;
      assert (a + b)[..|a| + n] == a + b[..n];
      RecordsAppend(a, b[..n]);
    }
  }

  lemma SettledLine(k: Sink, h: nat, i: nat)
    requires AllSettled(k) && h < |Handles(k)| && i < |Handles(k)[h].lines|
    ensures DurableLine(k, h, i)
  {
    assert Settled(Handles(k)[h]) by { if h < |k.retired| { assert Handles(k)[h] == k.retired[h]; } }
    assert LineIn(Handles(k)[h].lines[i], Handles(k)[h].file + []);
    assert Handles(k)[h].file + [] == Handles(k)[h].file == Handles(k)[h].file[..Handles(k)[h].synced];
  }

  /** Once all handles are settled, every record of the log survives a crash. */
  lemma SettledRecords(k: Sink, e: Entry)
    requires AllSettled(k) && e in Recorded(k)
    ensures Durable(k, Record(e.id), e.text)
  {
    JournalIsLines(k);
    var p := RecordedLine(Journal(k), e);
    var h, i := LineOf(Handles(k), p);
    SettledLine(k, h, i);
  }
}
