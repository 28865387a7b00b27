/**
 What every run of the logger keeps, step by step, and what its return values
 therefore promise.
 */
module AuditRuns {
  import opened Options
  import opened Bytes
  import opened AuditSink
  import opened AuditLogger

  // ---- Byte budget and queue slots --------------------------------------------

  /** Every permit is free, or pinned by a caller, a queued record or the record in the writer's hand. */
  ghost predicate Budget(s: State) {
    && 0 <= s.gate.permits
    && s.gate.permits + Shares(s.calls) + Needs(s.chan.queue) + HandNeed(s.chan.hand) == QUEUE_BYTE_BUDGET
    && (forall c :: 0 <= c < |s.calls| ==> Capped(s.calls[c]))
    && (forall i :: 0 <= i < |s.chan.queue| ==> 0 <= s.chan.queue[i].need) && 0 <= HandNeed(s.chan.hand)
  }

  ghost predicate Capped(k: Call) {
    0 <= k.need <= QUEUE_BYTE_BUDGET && (k.phase.Acquiring? ==> 0 <= k.phase.granted <= k.need)
  }

  ghost predicate Slots(s: State) {
    s.writer.Running? ==> 0 <= s.gate.slots && s.gate.slots + |s.chan.queue| + SlotsHeld(s.calls) == CHANNEL_CAPACITY
  }

  lemma {:induction false} SharesUpdate(calls: seq<Call>, c: nat, k: Call)
    requires c < |calls|
    ensures Shares(calls[c := k]) == Shares(calls) - Share(calls[c]) + Share(k)
    ensures SlotsHeld(calls[c := k]) == SlotsHeld(calls) - Slot(calls[c]) + Slot(k)
  {
    var n := |calls| - 1;
    if c == n {
      assert calls[c := k][..n] == calls[..n];
    } else {
      assert calls[c := k][..n] == calls[..n][c := k];
      SharesUpdate(calls[..n], c, k);
    }
  }

  lemma {:induction false} NeedsFirst(items: seq<Item>)
    requires items != []
    ensures Needs(items) == items[0].need + Needs(items[1..])
  {
    var n := |items| - 1;
    if n > 0 {
      assert items[..n][1..] == items[1..][..n - 1];
      NeedsFirst(items[..n]);
    }
  }

  lemma {:induction false} NeedsNonNegative(items: seq<Item>)
    requires forall i :: 0 <= i < |items| ==> 0 <= items[i].need
    ensures 0 <= Needs(items)
  {
    if items != [] { NeedsNonNegative(items[..|items| - 1]); }
  }

  lemma NeedsSnoc(items: seq<Item>, i: Item)
    ensures Needs(items + [i]) == Needs(items) + i.need
  {
    assert (items + [i])[..|items|] == items;
  }

  // ---- Queue order ----------------------------------------------------------------

  function HandEntries(h: Option<Item>): seq<Entry> { if h.Some? then [h.value.entry] else [] }

  function Entries(items: seq<Item>): (r: seq<Entry>)
    ensures |r| == |items| && forall i :: 0 <= i < |items| ==> r[i] == items[i].entry
  {
    seq(|items|, i requires 0 <= i < |items| => items[i].entry)
  }

  ghost predicate InPushed(s: State, c: nat) {
    exists i :: 0 <= i < |s.chan.pushed| && s.chan.pushed[i].id == c
  }

  /** A queued record belongs to a logging call past its send, and is that call's line. */
  ghost predicate Owned(s: State, e: Entry) {
    Is(s, e.id) && Logging(s.calls[e.id].kind) && !PrePush(s.calls[e.id].phase) && s.calls[e.id].text == e.text
  }

  /** A queued item carries its call's urgency. */
  ghost predicate ItemOk(s: State, i: Item) { Is(s, i.entry.id) && i.urgent == s.calls[i.entry.id].urgent }

  ghost predicate Items(s: State) {
    && (s.chan.hand.Some? ==> ItemOk(s, s.chan.hand.value))
    && forall i :: 0 <= i < |s.chan.queue| ==> ItemOk(s, s.chan.queue[i])
  }

  ghost predicate AllOwned(s: State) { forall i :: 0 <= i < |s.chan.pushed| ==> Owned(s, s.chan.pushed[i]) }

  ghost predicate DistinctIds(entries: seq<Entry>) {
    forall i, j :: 0 <= i < j < |entries| ==> entries[i].id != entries[j].id
  }

  ghost predicate Fifo(s: State) {
    && s.chan.done <= |s.chan.pushed|
    && (if s.writer.Running? then s.chan.pushed[s.chan.done..] == HandEntries(s.chan.hand) + Entries(s.chan.queue)
        else s.chan.queue == [] && s.chan.hand == None)
  }

  /** The queue is FIFO, and no call queues twice. */
  ghost predicate Order(s: State) { Items(s) && AllOwned(s) && DistinctIds(s.chan.pushed) && Fifo(s) }

  // ---- Storage and acknowledgements -------------------------------------------------

  /** The entries of `taken` that are not lost, in order. */
  function Survivors(taken: seq<Entry>, lost: set<Tag>): seq<Entry> {
    if taken == [] then []
    else
      var e := taken[|taken| - 1];
      Survivors(taken[..|taken| - 1], lost) + if Record(e.id) in lost then [] else [e]
  }

  ghost predicate HasId(entries: seq<Entry>, id: nat) { exists i :: 0 <= i < |entries| && entries[i].id == id }

  ghost predicate LostAmong(lost: set<Tag>, taken: seq<Entry>) {
    forall id: nat :: Record(id) in lost ==> HasId(taken, id)
  }

  /** Whatever fails, the log is what the writer took off the queue, in that order, but for the lost records. */
  ghost predicate Tells(k: Sink, taken: seq<Entry>) {
    && SinkOk(k) && Recorded(k) == Survivors(taken, k.lost) && LostAmong(k.lost, taken)
    && (k.lost == {} ==> Led(k) && Recorded(k) == taken)
  }

  ghost predicate Storage(s: State) {
    && s.chan.done <= |s.chan.pushed| && Tells(s.sink, s.chan.pushed[..s.chan.done])
    && (!s.gate.failed ==> Clean(s.sink))
  }

  lemma SurvivorsSnoc(taken: seq<Entry>, e: Entry, lost: set<Tag>)
    ensures Survivors(taken + [e], lost) == Survivors(taken, lost) + if Record(e.id) in lost then [] else [e]
  {
    assert (taken + [e])[..|taken|] == taken;
  }

  /** Losing something else changes nothing. */
  lemma {:induction false} SurvivorsSame(taken: seq<Entry>, lost: set<Tag>, gone: set<Tag>)
    requires forall i :: 0 <= i < |taken| ==> Record(taken[i].id) !in gone
    ensures Survivors(taken, lost + gone) == Survivors(taken, lost)
  {
    if taken != [] { SurvivorsSame(taken[..|taken| - 1], lost, gone); }
  }

  ghost predicate DurableTo(s: State, i: nat) {
    && i < |s.chan.pushed|
    && forall j :: 0 <= j <= i ==> Durable(s.sink, Record(s.chan.pushed[j].id), s.chan.pushed[j].text)
  }

  ghost predicate AckedAt(s: State, c: nat, i: nat) {
    i < s.chan.done <= |s.chan.pushed| && s.chan.pushed[i].id == c && (!s.gate.failed ==> DurableTo(s, i))
  }

  /** Record `i` was to be synced at once: every record is, or its severity asks for it. */
  ghost predicate Pressing(s: State, i: nat)
    requires i < |s.chan.pushed|
  {
    s.cfg.everyEvent || (Is(s, s.chan.pushed[i].id) && s.calls[s.chan.pushed[i].id].urgent)
  }

  /** A pressing record the writer has finished with is durable with all before it, unless the flag is up. */
  ghost predicate Synced(s: State) {
    s.chan.done <= |s.chan.pushed|
    && (!s.gate.failed ==> forall i :: 0 <= i < s.chan.done && Pressing(s, i) ==> DurableTo(s, i))
  }

  /** An acknowledged record, and every record queued before it, is durable unless the flag is up. */
  ghost predicate Acks(s: State) {
    Synced(s) && forall c :: c in s.chan.acked ==> exists i :: AckedAt(s, c, i)
  }

  // ---- Refusals raise the flag --------------------------------------------------------

  /** What the phase of logging call `c` says about its record. */
  ghost predicate Accounted(s: State, c: nat)
    requires Is(s, c)
  {
    var p := s.calls[c].phase;
    && (p.AwaitingAck? || p.Checking? || p.Checked? ==> InPushed(s, c) && s.cfg.failClosed)
    && (p.Acquiring? || p.Sending? ==> s.cfg.failClosed)
    && (p.Returned? && s.cfg.failClosed ==> s.gate.failed || InPushed(s, c))
    && ((p.Checking? || p.Checked?) && s.calls[c].kind.LogCommitted? ==> c in s.chan.acked)
  }

  ghost predicate Flags(s: State) {
    forall c :: 0 <= c < |s.calls| && Logging(s.calls[c].kind) ==> Accounted(s, c)
  }

  /** Calls returned before `c` started were queued before it, unless the flag is up. */
  ghost predicate Follows(s: State, c: nat)
    requires Is(s, c)
  {
    var k := s.calls[c];
    && k.base <= |s.chan.pushed|
    && (forall i :: 0 <= i < |s.chan.pushed| && s.chan.pushed[i].id == c ==> k.base <= i)
    && (s.cfg.failClosed && !s.gate.failed ==> forall p :: p in k.prior ==> QueuedBefore(s, p, k.base))
  }

  ghost predicate QueuedBefore(s: State, p: nat, n: nat) {
    exists j :: 0 <= j < n && j < |s.chan.pushed| && s.chan.pushed[j].id == p
  }

  ghost predicate Prior(s: State) {
    forall c :: 0 <= c < |s.calls| ==> Follows(s, c)
  }

  // ---- Shutdown and rotation -------------------------------------------------------------

  ghost predicate Ended(s: State) { s.writer.Exited? || (s.writer.Dead? && s.gate.failed) }

  ghost predicate JoinPhase(p: Phase) { p.Joining? || p.Verdict? }

  /** The join handle is taken once, and given up only to an ended writer or a cancelled call. */
  ghost predicate Joins(s: State) {
    && (forall c :: 0 <= c < |s.calls| && JoinPhase(s.calls[c].phase) ==> s.join.joinLock == Some(c) && !s.join.handle)
    && (!s.join.handle && !s.join.detached && !Ended(s) ==>
          && s.join.joinLock.Some? && Is(s, s.join.joinLock.value)
          && s.calls[s.join.joinLock.value].phase == Joining(true))
    && (forall c :: 0 <= c < |s.calls| && s.calls[c].phase.Verdict? ==> Ended(s) || s.join.detached)
  }

  /** A writer that returned has drained the queue, and settled everything unless the flag is up. */
  ghost predicate Drained(s: State) {
    s.writer.Exited? ==>
      && !s.gate.tx && s.chan.done == |s.chan.pushed|
      && (forall c :: 0 <= c < |s.calls| ==> !s.calls[c].phase.Sending?)
      && (!s.gate.failed ==> AllSettled(s.sink))
  }

  /** Request `c`'s marker is durably the first line of a handle swapped in for it. */
  ghost predicate RotatedBy(k: Sink, c: nat, text: bytes) {
    exists h: nat :: 1 <= h && MarkerAt(k, h, c, text)
  }

  ghost predicate MarkerAt(k: Sink, h: nat, c: nat, text: bytes) {
    DurableLine(k, h, 0) && Handles(k)[h].lines[0].tag == Marker(c, true) && Handles(k)[h].lines[0].text == text
  }

  ghost predicate Replies(s: State) {
    && (forall c :: c in s.rot.replies ==> Is(s, c) && (s.rot.replies[c] ==> RotatedBy(s.sink, c, s.calls[c].text)))
    && (forall c :: 0 <= c < |s.calls| && s.calls[c].kind.Reopen? && s.calls[c].phase == Returned(true) ==>
          RotatedBy(s.sink, c, s.calls[c].text))
    && (forall i :: 0 <= i < |s.rot.requests| ==> Is(s, s.rot.requests[i]))
    && (s.rot.serving.Some? ==> Is(s, s.rot.serving.value))
  }

  ghost predicate Kinds(s: State) {
    forall c :: 0 <= c < |s.calls| ==> KindOk(s.calls[c])
  }

  ghost predicate KindOk(k: Call) {
    var p := k.phase;
    && (PrePush(p) || p.AwaitingAck? || p.Checking? || p.Checked? ==> Logging(k.kind))
    && (p.Requesting? || p.Posting? || p.AwaitingReply? ==> k.kind.Reopen?)
    && (p.ClosingTx? || p.ClosingReopen? || p.Locking? || JoinPhase(p) ==> k.kind.Shutdown?)
  }

  // ---- Where a reopen splits the log -----------------------------------------------------

  /** `before` holds the records the writer had finished with when it took request `c`. */
  ghost predicate SplitsAt(s: State, before: seq<Line>, c: nat) {
    && c in s.rot.served && s.rot.served[c] <= s.chan.done <= |s.chan.pushed|
    && Records(before) == Survivors(s.chan.pushed[..s.rot.served[c]], s.sink.lost)
  }

  ghost predicate PlacedAt(s: State, p: nat) {
    p < |Journal(s.sink)| && Journal(s.sink)[p].tag.Marker? ==>
      SplitsAt(s, Journal(s.sink)[..p], Journal(s.sink)[p].tag.request)
  }

  /** Every marker stands where its request was taken. */
  ghost predicate Placed(s: State) { forall p: nat :: p < |Journal(s.sink)| ==> PlacedAt(s, p) }

  ghost predicate Serving(s: State) {
    s.rot.serving.Some? ==> s.rot.serving.value in s.rot.served && s.rot.served[s.rot.serving.value] == s.chan.done
  }

  predicate Posted(k: Call) { k.kind.Reopen? && (k.phase.AwaitingReply? || k.phase.Returned?) }

  ghost predicate PostedCall(s: State, c: nat) { Is(s, c) && Posted(s.calls[c]) }

  /** A request waits once and is taken once. */
  ghost predicate Asked(s: State) {
    && (forall i :: 0 <= i < |s.rot.requests| ==>
        PostedCall(s, s.rot.requests[i]) && s.rot.requests[i] !in s.rot.served)
    && (forall i, j :: 0 <= i < j < |s.rot.requests| ==> s.rot.requests[i] != s.rot.requests[j])
    && (forall c :: c in s.rot.served ==> PostedCall(s, c))
  }

  ghost predicate OnTime(s: State, c: nat)
    requires Is(s, c)
  {
    s.calls[c].prompt ==>
      if c in s.rot.served then s.calls[c].base <= s.rot.served[c]
      else s.rot.idle ==> s.calls[c].base <= s.chan.done || (s.rot.requests != [] && s.rot.requests[0] != c)
  }

  /** A prompt request is taken behind every record queued before its call. */
  ghost predicate AllOnTime(s: State) { forall c :: 0 <= c < |s.calls| ==> OnTime(s, c) }

  /** Between its looks at the two queues the writer holds neither a record nor a request. */
  ghost predicate Looking(s: State) { s.rot.idle ==> s.writer.Running? && s.chan.hand.None? && s.rot.serving.None? }

  ghost predicate Rotates(s: State) { Placed(s) && Serving(s) && Asked(s) && AllOnTime(s) && Looking(s) }

  /** `s'` keeps the queue's history and remembers what it served. */
  ghost predicate KeepsHistory(s: State, s': State) {
    && s.chan.pushed <= s'.chan.pushed && s.chan.done <= s'.chan.done <= |s'.chan.pushed|
    && forall c :: c in s.rot.served ==> c in s'.rot.served && s'.rot.served[c] == s.rot.served[c]
  }

  lemma PlacedStays(s: State, s': State, gone: set<Tag>, p: nat)
    requires KeepsHistory(s, s') && s'.sink.lost == s.sink.lost + gone && Journal(s.sink) <= Journal(s'.sink)
    requires forall i :: 0 <= i < s.chan.done && i < |s.chan.pushed| ==> Record(s.chan.pushed[i].id) !in gone
    requires p < |Journal(s.sink)| && PlacedAt(s, p)
    ensures PlacedAt(s', p)
  {
    assert Journal(s'.sink)[p] == Journal(s.sink)[p] && Journal(s'.sink)[..p] == Journal(s.sink)[..p];
    if Journal(s.sink)[p].tag.Marker? {
      var n := s.rot.served[Journal(s.sink)[p].tag.request];
      assert s'.chan.pushed[..n] == s.chan.pushed[..n];
      SurvivorsSame(s.chan.pushed[..n], s.sink.lost, gone);
    }
  }

  /** The log is left alone. */
  lemma PlacedFrame(s: State, s': State)
    requires Placed(s) && KeepsHistory(s, s') && s'.sink == s.sink
    ensures Placed(s')
  {
    forall p: nat | p < |Journal(s'.sink)| ensures PlacedAt(s', p) { PlacedStays(s, s', {}, p); }
  }

  ghost predicate Inv(s: State) {
    && Budget(s) && Slots(s) && Kinds(s) && Order(s) && Storage(s) && Acks(s) && Flags(s) && Prior(s)
    && Joins(s) && Drained(s) && Replies(s) && Rotates(s)
  }

  // ---- A caller's own step ------------------------------------------------------------------

  /** Only call `c`'s phase changes; queue, log and writer are left alone, and the flag is not cleared. */
  ghost predicate Quiet(s: State, s': State, c: nat) {
    && Is(s, c) && |s'.calls| == |s.calls|
    && s'.calls == s.calls[c := s.calls[c].(phase := s'.calls[c].phase)]
    && s'.cfg == s.cfg && s'.chan == s.chan && s'.writer == s.writer && s'.sink == s.sink
    && (s.gate.failed ==> s'.gate.failed)
  }

  ghost predicate SameJoin(s: State, s': State, c: nat) {
    && s'.join == s.join
    && Is(s, c) && Is(s', c) && !JoinPhase(s.calls[c].phase) && !JoinPhase(s'.calls[c].phase)
  }

  lemma QuietBudget(s: State, s': State, c: nat)
    requires Budget(s) && Slots(s) && Quiet(s, s', c) && Capped(s'.calls[c])
    requires 0 <= s'.gate.permits && s'.gate.permits + Share(s'.calls[c]) == s.gate.permits + Share(s.calls[c])
    requires s.writer.Running? ==>
               0 <= s'.gate.slots && s'.gate.slots + Slot(s'.calls[c]) == s.gate.slots + Slot(s.calls[c])
    ensures Budget(s') && Slots(s')
  {
    SharesUpdate(s.calls, c, s'.calls[c]);
  }

  lemma QuietOrder(s: State, s': State, c: nat)
    requires Order(s) && Quiet(s, s', c) && (PrePush(s'.calls[c].phase) ==> PrePush(s.calls[c].phase))
    ensures Order(s')
  {
    forall i | 0 <= i < |s'.chan.queue| ensures ItemOk(s', s'.chan.queue[i]) { assert ItemOk(s, s.chan.queue[i]); }
    forall i | 0 <= i < |s'.chan.pushed| ensures Owned(s', s'.chan.pushed[i]) {
      assert Owned(s, s.chan.pushed[i]);
    }
  }

  lemma QuietAcks(s: State, s': State, c: nat)
    requires Acks(s) && Quiet(s, s', c)
    ensures Acks(s')
  {
    forall i | 0 <= i < s'.chan.done && Pressing(s', i) && !s'.gate.failed ensures DurableTo(s', i) {
      assert Pressing(s, i) && DurableTo(s, i);
    }
    forall d | d in s'.chan.acked ensures exists i :: AckedAt(s', d, i) {
      var i :| AckedAt(s, d, i);
      assert !s'.gate.failed ==> DurableTo(s, i);
      assert AckedAt(s', d, i);
    }
  }

  lemma QuietFlags(s: State, s': State, c: nat)
    requires Flags(s) && Quiet(s, s', c) && (Logging(s.calls[c].kind) ==> Accounted(s', c))
    ensures Flags(s')
  {
    forall d | 0 <= d < |s'.calls| && Logging(s'.calls[d].kind) ensures Accounted(s', d) {
      if d != c {
        assert Accounted(s, d);
        assert InPushed(s, d) ==> InPushed(s', d);
      }
    }
  }

  lemma QuietPrior(s: State, s': State, c: nat)
    requires Prior(s) && Quiet(s, s', c)
    ensures Prior(s')
  {
    forall d | 0 <= d < |s'.calls| ensures Follows(s', d) {
      assert Follows(s, d);
      forall p | p in s'.calls[d].prior && s'.cfg.failClosed && !s'.gate.failed
        ensures QueuedBefore(s', p, s'.calls[d].base)
      {
        assert QueuedBefore(s, p, s.calls[d].base);
      }
    }
  }

  lemma QuietDrained(s: State, s': State, c: nat)
    requires Drained(s) && Quiet(s, s', c) && (s'.gate.tx ==> s.gate.tx)
    requires s'.calls[c].phase.Sending? ==> s.calls[c].phase.Sending? || s.gate.tx
    ensures Drained(s')
  {
  }

  lemma QuietJoins(s: State, s': State, c: nat)
    requires Joins(s) && Quiet(s, s', c) && SameJoin(s, s', c)
    ensures Joins(s')
  {
    forall d | 0 <= d < |s'.calls| && JoinPhase(s'.calls[d].phase)
      ensures s'.join.joinLock == Some(d) && !s'.join.handle
    {
      assert JoinPhase(s.calls[d].phase);
    }
  }

  lemma QuietReplies(s: State, s': State, c: nat)
    requires Replies(s) && Quiet(s, s', c)
    requires s'.rot.serving == s.rot.serving && s'.rot.replies == s.rot.replies
    requires s'.rot.requests == s.rot.requests || s'.rot.requests == s.rot.requests + [c]
    requires s'.calls[c].kind.Reopen? && s'.calls[c].phase == Returned(true) ==> c in s.rot.replies && s.rot.replies[c]
    ensures Replies(s')
  {
  }

  /** What a caller's step may do to the reopen channel: at most post its own request. */
  ghost predicate Posts(s: State, s': State, c: nat) {
    && Is(s, c) && Is(s', c) && s'.rot == s.rot.(requests := s'.rot.requests)
    && (Posted(s.calls[c]) ==> Posted(s'.calls[c]))
    && (|| s'.rot.requests == s.rot.requests
        || (s'.rot.requests == s.rot.requests + [c] && !Posted(s.calls[c]) && Posted(s'.calls[c])))
  }

  lemma QuietAsked(s: State, s': State, c: nat)
    requires Asked(s) && Quiet(s, s', c) && Posts(s, s', c)
    ensures Asked(s')
  {
    forall d | PostedCall(s, d) ensures PostedCall(s', d) { }
    forall i | 0 <= i < |s'.rot.requests|
      ensures PostedCall(s', s'.rot.requests[i]) && s'.rot.requests[i] !in s'.rot.served
    {
      if i < |s.rot.requests| { assert PostedCall(s, s.rot.requests[i]); } else { assert !PostedCall(s, c); }
    }
    forall i, j | 0 <= i < j < |s'.rot.requests| ensures s'.rot.requests[i] != s'.rot.requests[j] {
      if j == |s.rot.requests| { assert PostedCall(s, s.rot.requests[i]); }
    }
  }

  lemma QuietRotates(s: State, s': State, c: nat)
    requires Rotates(s) && s.chan.done <= |s.chan.pushed| && Quiet(s, s', c) && Posts(s, s', c)
    ensures Rotates(s')
  {
    PlacedFrame(s, s');
    QuietAsked(s, s', c);
    forall d | 0 <= d < |s'.calls| ensures OnTime(s', d) { assert OnTime(s, d); }
  }

  /** What the invariants say about one call. */
  ghost predicate Facts(s: State, c: nat) {
    && Is(s, c) && Capped(s.calls[c]) && KindOk(s.calls[c]) && (Logging(s.calls[c].kind) ==> Accounted(s, c))
    && 0 <= s.gate.permits && (s.writer.Running? ==> 0 <= s.gate.slots)
  }

  lemma InvFacts(s: State, c: nat)
    requires Inv(s) && Is(s, c)
    ensures Facts(s, c)
  {
  }

  /** The local obligations of a caller's step that queues nothing. */
  ghost predicate Lawful(s: State, s': State, c: nat) {
    && Quiet(s, s', c) && SameJoin(s, s', c) && KindOk(s'.calls[c]) && Capped(s'.calls[c])
    && 0 <= s'.gate.permits && s'.gate.permits + Share(s'.calls[c]) == s.gate.permits + Share(s.calls[c])
    && (s.writer.Running? ==> 0 <= s'.gate.slots
                              && s'.gate.slots + Slot(s'.calls[c]) == s.gate.slots + Slot(s.calls[c]))
    && (PrePush(s'.calls[c].phase) ==> PrePush(s.calls[c].phase))
    && (Logging(s.calls[c].kind) ==> Accounted(s', c))
    && (s'.gate.tx ==> s.gate.tx)
    && (s'.calls[c].phase.Sending? ==> s.calls[c].phase.Sending? || s.gate.tx)
    && Posts(s, s', c)
    && (s'.calls[c].kind.Reopen? && s'.calls[c].phase == Returned(true) ==> c in s.rot.replies && s.rot.replies[c])
  }

  /** A caller's step that queues nothing keeps every invariant. */
  lemma QuietStep(s: State, s': State, c: nat)
    requires Inv(s) && Lawful(s, s', c)
    ensures Inv(s')
  {
    QuietBudget(s, s', c);
    QuietOrder(s, s', c);
    QuietAcks(s, s', c);
    QuietFlags(s, s', c);
    QuietPrior(s, s', c);
    QuietDrained(s, s', c);
    QuietJoins(s, s', c);
    QuietReplies(s, s', c);
    QuietRotates(s, s', c);
  }

  lemma TryAcquireLawful(s: State, c: nat)
    requires Facts(s, c) && s.calls[c].phase.Trying?
    ensures Lawful(s, DoTryAcquire(s, c), c)
  {
    if s.gate.permits >= s.calls[c].need {
      AcquiresLawful(s, c);
    } else {
      DropsLawful(s, c, FailIf(Drop(s), s.cfg.failClosed));
    }
  }

  lemma AcquiresLawful(s: State, c: nat)
    requires Facts(s, c) && s.calls[c].phase.Trying? && s.gate.permits >= s.calls[c].need
    ensures Lawful(s, At(Release(s, -s.calls[c].need), c, Holding), c)
  {
  }

  /** A record dropped for want of budget. */
  lemma DropsLawful(s: State, c: nat, f: State)
    requires Facts(s, c) && s.calls[c].phase.Trying? && f == FailIf(Drop(s), s.cfg.failClosed)
    ensures Lawful(s, At(f, c, Returned(true)), c)
  {
  }

  lemma FetchTxLawful(s: State, c: nat)
    requires Facts(s, c) && Enabled(s, FetchTx(c))
    ensures Lawful(s, DoFetchTx(s, c), c)
  {
  }

  lemma SendRefusedLawful(s: State, c: nat)
    requires Facts(s, c) && s.calls[c].phase == Sending(false) && !s.writer.Running?
    ensures Lawful(s, At(Fail(Release(s, s.calls[c].need)), c, Returned(false)), c)
  {
  }

  lemma AckWaitLawful(s: State, c: nat)
    requires Facts(s, c) && s.calls[c].phase.AwaitingAck?
    ensures Lawful(s, DoAckWait(s, c), c)
  {
    assert InPushed(s, c) ==> InPushed(DoAckWait(s, c), c);
  }

  lemma CheckTxLawful(s: State, c: nat)
    requires Facts(s, c) && s.calls[c].phase.Checking?
    ensures Lawful(s, At(s, c, Checked(s.cfg.failClosed && !s.gate.tx)), c)
  {
    assert InPushed(s, c) ==> InPushed(At(s, c, Checked(s.cfg.failClosed && !s.gate.tx)), c);
  }

  lemma CheckFlagLawful(s: State, c: nat)
    requires Facts(s, c) && s.calls[c].phase.Checked?
    ensures Lawful(s, DoCheckFlag(s, c), c)
  {
    assert InPushed(s, c) ==> InPushed(DoCheckFlag(s, c), c);
  }

  lemma CancelLawful(s: State, c: nat)
    requires Facts(s, c) && Waiting(s.calls[c].phase)
    ensures Lawful(s, DoCancel(s, c), c)
  {
  }

  lemma RequestReopenLawful(s: State, c: nat)
    requires Facts(s, c) && s.calls[c].phase.Requesting?
    ensures Lawful(s, DoRequestReopen(s, c), c)
  {
  }

  lemma PostReopenLawful(s: State, c: nat)
    requires Facts(s, c) && s.calls[c].phase.Posting?
    ensures Lawful(s, DoPostReopen(s, c), c)
  {
  }

  lemma ReplyWaitLawful(s: State, c: nat)
    requires Facts(s, c) && s.calls[c].phase.AwaitingReply?
    ensures Lawful(s, DoReplyWait(s, c), c)
  {
  }

  lemma GrantLawful(s: State, c: nat, n: int)
    requires Facts(s, c) && Enabled(s, Grant(c, n))
    ensures Lawful(s, Apply(s, Grant(c, n)), c)
  {
  }

  lemma AcquiredLawful(s: State, c: nat)
    requires Facts(s, c) && Enabled(s, Acquired(c))
    ensures Lawful(s, Apply(s, Acquired(c)), c)
  {
  }

  lemma TakeSlotLawful(s: State, c: nat)
    requires Facts(s, c) && Enabled(s, TakeSlot(c))
    ensures Lawful(s, Apply(s, TakeSlot(c)), c)
  {
  }

  lemma CloseTxLawful(s: State, c: nat)
    requires Facts(s, c) && Enabled(s, CloseTx(c))
    ensures Lawful(s, Apply(s, CloseTx(c)), c)
  {
  }

  lemma CloseReopenLawful(s: State, c: nat)
    requires Facts(s, c) && Enabled(s, CloseReopen(c))
    ensures Lawful(s, Apply(s, CloseReopen(c)), c)
  {
  }

  // ---- Queueing a record -----------------------------------------------------------------------

  /** Call `c`'s record enters the channel, and with it the queue unless the receiver is gone. */
  ghost predicate Queues(s: State, s': State, c: nat) {
    && Is(s, c) && |s'.calls| == |s.calls|
    && s'.calls == s.calls[c := s.calls[c].(phase := s'.calls[c].phase)]
    && s'.cfg == s.cfg && s'.writer == s.writer && s'.sink == s.sink && s'.join == s.join && s'.rot == s.rot
    && s'.gate.failed == s.gate.failed && s'.gate.tx == s.gate.tx
    && s'.chan == s.chan.(pushed := s.chan.pushed + [Entry(c, s.calls[c].text)],
                          queue := if s.writer.Running? then s.chan.queue + [ItemOf(s, c)] else s.chan.queue)
    && PrePush(s.calls[c].phase) && !PrePush(s'.calls[c].phase)
    && Logging(s.calls[c].kind)
    && (s.gate.tx || s.calls[c].phase.Sending?)
  }

  lemma QueuesOwned(s: State, s': State, c: nat)
    requires Queues(s, s', c) && AllOwned(s)
    ensures AllOwned(s')
  {
    forall i | 0 <= i < |s'.chan.pushed| ensures Owned(s', s'.chan.pushed[i]) {
      if i < |s.chan.pushed| { assert Owned(s, s.chan.pushed[i]); }
    }
  }

  lemma QueuesDistinct(s: State, s': State, c: nat)
    requires Queues(s, s', c) && AllOwned(s) && DistinctIds(s.chan.pushed)
    ensures DistinctIds(s'.chan.pushed)
  {
    forall i | 0 <= i < |s.chan.pushed| ensures s.chan.pushed[i].id != c { assert Owned(s, s.chan.pushed[i]); }
  }

  lemma EntriesSnoc(items: seq<Item>, i: Item)
    ensures Entries(items + [i]) == Entries(items) + [i.entry]
  {
  }

  /** The records still to be written, one longer. */
  lemma QueuesSuffix(pushed: seq<Entry>, done: nat, hand: Option<Item>, queue: seq<Item>, i: Item)
    requires done <= |pushed| && pushed[done..] == HandEntries(hand) + Entries(queue)
    ensures (pushed + [i.entry])[done..] == HandEntries(hand) + Entries(queue + [i])
  {
    assert (pushed + [i.entry])[done..] == pushed[done..] + [i.entry];
    EntriesSnoc(queue, i);
  }

  lemma QueuesItems(s: State, s': State, c: nat)
    requires Items(s) && Queues(s, s', c)
    ensures Items(s')
  {
    forall i | 0 <= i < |s'.chan.queue| ensures ItemOk(s', s'.chan.queue[i]) {
      if i < |s.chan.queue| { assert ItemOk(s, s.chan.queue[i]); }
    }
  }

  lemma QueuesFifo(s: State, s': State, c: nat)
    requires Queues(s, s', c) && Fifo(s)
    ensures Fifo(s')
  {
    if s.writer.Running? { QueuesSuffix(s.chan.pushed, s.chan.done, s.chan.hand, s.chan.queue, ItemOf(s, c)); }
  }

  lemma QueuesOrder(s: State, s': State, c: nat)
    requires Order(s) && Queues(s, s', c)
    ensures Order(s')
  {
    QueuesOwned(s, s', c);
    QueuesDistinct(s, s', c);
    QueuesItems(s, s', c);
    QueuesFifo(s, s', c);
  }

  lemma QueuesStorage(s: State, s': State, c: nat)
    requires Storage(s) && Queues(s, s', c)
    ensures Storage(s')
  {
    assert s'.chan.pushed[..s.chan.done] == s.chan.pushed[..s.chan.done];
  }

  lemma QueuesAcks(s: State, s': State, c: nat)
    requires Acks(s) && Queues(s, s', c)
    ensures Acks(s')
  {
    forall i | 0 <= i < s'.chan.done && Pressing(s', i) && !s'.gate.failed ensures DurableTo(s', i) {
      assert Pressing(s, i) && DurableTo(s, i);
    }
    forall d | d in s'.chan.acked ensures exists i :: AckedAt(s', d, i) {
      var i :| AckedAt(s, d, i);
      assert AckedAt(s', d, i);
    }
  }

  lemma QueuesFlags(s: State, s': State, c: nat)
    requires Flags(s) && Queues(s, s', c) && !s'.calls[c].phase.Checked?
    requires s'.calls[c].phase.Returned? || s.cfg.failClosed
    requires s'.calls[c].phase.Checking? ==> !s'.calls[c].kind.LogCommitted?
    ensures Flags(s')
  {
    assert s'.chan.pushed[|s.chan.pushed|].id == c;
    forall d | 0 <= d < |s'.calls| && Logging(s'.calls[d].kind) ensures Accounted(s', d) {
      if d != c {
        assert Accounted(s, d);
        if InPushed(s, d) { PushedStays(s, s', c, d); }
      }
    }
  }

  lemma PushedStays(s: State, s': State, c: nat, d: nat)
    requires Queues(s, s', c) && InPushed(s, d)
    ensures InPushed(s', d)
  {
    var i :| 0 <= i < |s.chan.pushed| && s.chan.pushed[i].id == d;
    assert s'.chan.pushed[i].id == d;
  }

  lemma QueuesPrior(s: State, s': State, c: nat)
    requires Prior(s) && Queues(s, s', c)
    ensures Prior(s')
  {
    forall d | 0 <= d < |s'.calls| ensures Follows(s', d) {
      assert Follows(s, d);
      forall p | p in s'.calls[d].prior && s'.cfg.failClosed && !s'.gate.failed
        ensures QueuedBefore(s', p, s'.calls[d].base)
      {
        assert QueuedBefore(s, p, s.calls[d].base);
        var j :| 0 <= j < s.calls[d].base && j < |s.chan.pushed| && s.chan.pushed[j].id == p;
        assert s'.chan.pushed[j].id == p;
      }
    }
  }

  lemma QueuesRest(s: State, s': State, c: nat)
    requires Drained(s) && Joins(s) && Replies(s) && Queues(s, s', c) && !JoinPhase(s'.calls[c].phase)
    ensures Drained(s') && Joins(s') && Replies(s')
  {
    assert !s.writer.Exited?;
    assert !JoinPhase(s.calls[c].phase);
    forall d | 0 <= d < |s'.calls| && JoinPhase(s'.calls[d].phase)
      ensures s'.join.joinLock == Some(d) && !s'.join.handle
    {
      assert JoinPhase(s.calls[d].phase);
    }
    assert forall d :: 0 <= d < |s.calls| && d != c ==> s'.calls[d] == s.calls[d];
    assert s'.calls[c].text == s.calls[c].text && s'.calls[c].kind == s.calls[c].kind;
  }

  lemma QueuesRotates(s: State, s': State, c: nat)
    requires Rotates(s) && Fifo(s) && Queues(s, s', c)
    ensures Rotates(s')
  {
    PlacedFrame(s, s');
    forall d | PostedCall(s, d) ensures PostedCall(s', d) { }
    forall d | 0 <= d < |s'.calls| ensures OnTime(s', d) { assert OnTime(s, d); }
  }

  /** Queueing keeps every invariant. */
  lemma QueuesStep(s: State, s': State, c: nat)
    requires Inv(s) && Queues(s, s', c) && KindOk(s'.calls[c]) && Budget(s') && Slots(s')
    requires s'.calls[c].phase.Returned? || (s.cfg.failClosed && s'.calls[c].phase == AfterPush(s.calls[c].kind))
    ensures Inv(s')
  {
    QueuesOrder(s, s', c);
    QueuesStorage(s, s', c);
    QueuesAcks(s, s', c);
    QueuesFlags(s, s', c);
    QueuesPrior(s, s', c);
    QueuesRest(s, s', c);
    QueuesRotates(s, s', c);
  }

  predicate CanSend(s: State) { s.gate.tx && s.writer.Running? && s.gate.slots > 0 }

  lemma TrySendBudget(s: State, c: nat)
    requires Budget(s) && Slots(s) && Enabled(s, TrySend(c)) && CanSend(s)
    ensures Budget(DoTrySend(s, c)) && Slots(DoTrySend(s, c))
  {
    var s' := DoTrySend(s, c);
    assert Capped(s.calls[c]);
    SharesUpdate(s.calls, c, s'.calls[c]);
    NeedsSnoc(s.chan.queue, ItemOf(s, c));
  }

  lemma TrySendQueues(s: State, c: nat)
    requires Inv(s) && Enabled(s, TrySend(c)) && CanSend(s)
    ensures Inv(DoTrySend(s, c))
  {
    InvFacts(s, c);
    TrySendBudget(s, c);
    TrySendEnters(s, c);
    QueuesStep(s, DoTrySend(s, c), c);
  }

  lemma TrySendEnters(s: State, c: nat)
    requires Facts(s, c) && Enabled(s, TrySend(c)) && CanSend(s)
    ensures Queues(s, DoTrySend(s, c), c) && KindOk(DoTrySend(s, c).calls[c])
    ensures DoTrySend(s, c).calls[c].phase.Returned?
  {
  }

  lemma TrySendStep(s: State, c: nat)
    requires Inv(s) && Enabled(s, TrySend(c))
    ensures Inv(DoTrySend(s, c))
  {
    if CanSend(s) {
      TrySendQueues(s, c);
    } else {
      InvFacts(s, c);
      TrySendLawful(s, c);
      QuietStep(s, DoTrySend(s, c), c);
    }
  }

  lemma TrySendLawful(s: State, c: nat)
    requires Facts(s, c) && Enabled(s, TrySend(c)) && !CanSend(s)
    ensures Lawful(s, DoTrySend(s, c), c)
  {
  }

  lemma PushBudget(s: State, c: nat)
    requires Budget(s) && Slots(s) && Enabled(s, Push(c))
    ensures Budget(DoPush(s, c)) && Slots(DoPush(s, c))
  {
    var s' := DoPush(s, c);
    assert Capped(s.calls[c]);
    SharesUpdate(s.calls, c, s'.calls[c]);
    NeedsSnoc(s.chan.queue, ItemOf(s, c));
  }

  lemma PushStep(s: State, c: nat)
    requires Inv(s) && Enabled(s, Push(c))
    ensures Inv(DoPush(s, c))
  {
    InvFacts(s, c);
    PushBudget(s, c);
    PushQueues(s, c);
    QueuesStep(s, DoPush(s, c), c);
  }

  lemma PushQueues(s: State, c: nat)
    requires Facts(s, c) && Enabled(s, Push(c))
    ensures Queues(s, DoPush(s, c), c) && KindOk(DoPush(s, c).calls[c])
    ensures s.cfg.failClosed && DoPush(s, c).calls[c].phase == AfterPush(s.calls[c].kind)
  {
  }

  // ---- Starting a call -----------------------------------------------------------------------------

  lemma StartBudget(s: State, a: Action)
    requires Budget(s) && Slots(s) && a.Start?
    ensures Budget(Apply(s, a)) && Slots(Apply(s, a))
  {
    var s' := Apply(s, a);
    assert s'.calls[..|s.calls|] == s.calls;
    assert forall c :: 0 <= c < |s.calls| ==> s'.calls[c] == s.calls[c];
  }

  lemma StartFlags(s: State, a: Action)
    requires Flags(s) && Kinds(s) && a.Start?
    ensures Flags(Apply(s, a)) && Kinds(Apply(s, a))
  {
    var s' := Apply(s, a);
    forall d | 0 <= d < |s'.calls| && Logging(s'.calls[d].kind) ensures Accounted(s', d) {
      if d < |s.calls| {
        assert Accounted(s, d);
        assert InPushed(s, d) ==> InPushed(s', d);
      }
    }
    assert forall c :: 0 <= c < |s.calls| ==> s'.calls[c] == s.calls[c] && KindOk(s.calls[c]);
  }

  /** Every call that has returned is already queued, or the flag is up: the new call's history is sound. */
  lemma StartPrior(s: State, a: Action)
    requires Prior(s) && Flags(s) && Order(s) && a.Start?
    ensures Prior(Apply(s, a))
  {
    var s' := Apply(s, a);
    var n := |s.calls|;
    forall d | 0 <= d < |s'.calls| ensures Follows(s', d) {
      if d < n {
        assert Follows(s, d);
        forall p | p in s'.calls[d].prior && s'.cfg.failClosed && !s'.gate.failed
          ensures QueuedBefore(s', p, s'.calls[d].base)
        {
          assert QueuedBefore(s, p, s.calls[d].base);
        }
      } else {
        forall i | 0 <= i < |s.chan.pushed| ensures s.chan.pushed[i].id != n { assert Owned(s, s.chan.pushed[i]); }
        forall p | p in s'.calls[n].prior && s'.cfg.failClosed && !s'.gate.failed
          ensures QueuedBefore(s', p, s'.calls[n].base)
        {
          assert Accounted(s, p) && InPushed(s, p);
        }
      }
    }
  }

  lemma StartRest(s: State, a: Action)
    requires Order(s) && Storage(s) && Acks(s) && a.Start?
    ensures Order(Apply(s, a)) && Storage(Apply(s, a)) && Acks(Apply(s, a))
  {
    var s' := Apply(s, a);
    forall i | 0 <= i < |s'.chan.pushed| ensures Owned(s', s'.chan.pushed[i]) {
      assert Owned(s, s.chan.pushed[i]);
    }
    forall i | 0 <= i < |s'.chan.queue| ensures ItemOk(s', s'.chan.queue[i]) { assert ItemOk(s, s.chan.queue[i]); }
    forall i | 0 <= i < s'.chan.done && Pressing(s', i) && !s'.gate.failed ensures DurableTo(s', i) {
      assert Owned(s, s.chan.pushed[i]) && Pressing(s, i) && DurableTo(s, i);
    }
    forall d | d in s'.chan.acked ensures exists i :: AckedAt(s', d, i) {
      var i :| AckedAt(s, d, i);
      assert AckedAt(s', d, i);
    }
  }

  lemma StartEnds(s: State, a: Action)
    requires Joins(s) && Drained(s) && Replies(s) && a.Start?
    ensures Joins(Apply(s, a)) && Drained(Apply(s, a)) && Replies(Apply(s, a))
  {
    var s' := Apply(s, a);
    assert forall c :: 0 <= c < |s.calls| ==> s'.calls[c] == s.calls[c];
    assert !JoinPhase(s'.calls[|s.calls|].phase);
  }

  lemma StartRotates(s: State, a: Action)
    requires Rotates(s) && Fifo(s) && a.Start?
    ensures Rotates(Apply(s, a))
  {
    var s' := Apply(s, a);
    PlacedFrame(s, s');
    forall d | PostedCall(s, d) ensures PostedCall(s', d) { }
    forall d | 0 <= d < |s'.calls| ensures OnTime(s', d) {
      if d < |s.calls| { assert OnTime(s, d); } else { assert !PostedCall(s, d); }
    }
  }

  lemma StartStep(s: State, a: Action)
    requires Inv(s) && a.Start?
    ensures Inv(Apply(s, a))
  {
    StartBudget(s, a);
    StartFlags(s, a);
    StartPrior(s, a);
    StartRest(s, a);
    StartEnds(s, a);
    StartRotates(s, a);
  }

  // ---- Shutdown ---------------------------------------------------------------------------------------

  /** A shutdown step: only its own phase, the join state and the flag move. */
  ghost predicate JoinMove(s: State, s': State, c: nat) {
    && Quiet(s, s', c) && s'.rot == s.rot && s'.gate == s.gate.(failed := s'.gate.failed)
    && s.calls[c].kind.Shutdown? && !PrePush(s'.calls[c].phase) && KindOk(s'.calls[c])
    && !s.calls[c].phase.Sending? && Share(s.calls[c]) == 0
  }

  lemma JoinMoveStep(s: State, s': State, c: nat)
    requires Inv(s) && JoinMove(s, s', c) && Joins(s')
    ensures Inv(s')
  {
    InvFacts(s, c);
    QuietBudget(s, s', c);
    QuietOrder(s, s', c);
    QuietAcks(s, s', c);
    QuietFlags(s, s', c);
    QuietPrior(s, s', c);
    QuietDrained(s, s', c);
    QuietReplies(s, s', c);
    QuietRotates(s, s', c);
  }

  lemma LockJoinJoins(s: State, c: nat)
    requires Joins(s) && Enabled(s, LockJoin(c))
    ensures Joins(DoLockJoin(s, c))
  {
    var s' := DoLockJoin(s, c);
    assert forall d :: 0 <= d < |s.calls| ==> !JoinPhase(s.calls[d].phase);
  }

  lemma JoinJoins(s: State, c: nat)
    requires Joins(s) && Enabled(s, Join(c))
    ensures Joins(DoJoin(s, c))
  {
    var s' := DoJoin(s, c);
    assert JoinPhase(s.calls[c].phase);
    assert forall d :: 0 <= d < |s.calls| && d != c ==> !JoinPhase(s.calls[d].phase);
  }

  lemma ConcludeJoins(s: State, c: nat)
    requires Joins(s) && Enabled(s, Conclude(c))
    ensures Joins(DoConclude(s, c))
  {
    assert JoinPhase(s.calls[c].phase);
    assert forall d :: 0 <= d < |s.calls| && d != c ==> !JoinPhase(s.calls[d].phase);
  }

  lemma CancelJoins(s: State, c: nat)
    requires Joins(s) && Is(s, c) && s.calls[c].phase == Joining(true)
    ensures Joins(DoCancel(s, c))
  {
    assert JoinPhase(s.calls[c].phase);
    assert forall d :: 0 <= d < |s.calls| && d != c ==> !JoinPhase(s.calls[d].phase);
  }

  lemma LockJoinMoves(s: State, c: nat)
    requires Facts(s, c) && Enabled(s, LockJoin(c))
    ensures JoinMove(s, DoLockJoin(s, c), c)
  {
  }

  lemma JoinMoves(s: State, c: nat)
    requires Facts(s, c) && Enabled(s, Join(c))
    ensures JoinMove(s, DoJoin(s, c), c)
  {
  }

  lemma ConcludeMoves(s: State, c: nat)
    requires Facts(s, c) && Enabled(s, Conclude(c))
    ensures JoinMove(s, DoConclude(s, c), c)
  {
  }

  lemma LockJoinStep(s: State, c: nat)
    requires Inv(s) && Enabled(s, LockJoin(c))
    ensures Inv(DoLockJoin(s, c))
  {
    InvFacts(s, c);
    LockJoinJoins(s, c);
    LockJoinMoves(s, c);
    JoinMoveStep(s, DoLockJoin(s, c), c);
  }

  lemma JoinStep(s: State, c: nat)
    requires Inv(s) && Enabled(s, Join(c))
    ensures Inv(DoJoin(s, c))
  {
    InvFacts(s, c);
    JoinJoins(s, c);
    JoinMoves(s, c);
    JoinMoveStep(s, DoJoin(s, c), c);
  }

  lemma ConcludeStep(s: State, c: nat)
    requires Inv(s) && Enabled(s, Conclude(c))
    ensures Inv(DoConclude(s, c))
  {
    InvFacts(s, c);
    ConcludeJoins(s, c);
    ConcludeMoves(s, c);
    JoinMoveStep(s, DoConclude(s, c), c);
  }

  lemma CancelJoinStep(s: State, c: nat)
    requires Inv(s) && Is(s, c) && s.calls[c].phase == Joining(true)
    ensures Inv(DoCancel(s, c))
  {
    InvFacts(s, c);
    CancelJoins(s, c);
    JoinMoveStep(s, DoCancel(s, c), c);
  }

  lemma CancelStep(s: State, c: nat)
    requires Inv(s) && Enabled(s, Cancel(c))
    ensures Inv(DoCancel(s, c))
  {
    if s.calls[c].phase.Joining? {
      CancelJoinStep(s, c);
    } else {
      InvFacts(s, c);
      CancelLawful(s, c);
      QuietStep(s, DoCancel(s, c), c);
    }
  }

  // ---- The writer -----------------------------------------------------------------------------------------

  lemma RotatedGrows(a: Sink, b: Sink, c: nat, text: bytes)
    requires Grows(a, b) && RotatedBy(a, c, text)
    ensures RotatedBy(b, c, text)
  {
    var h: nat :| 1 <= h && MarkerAt(a, h, c, text);
    DurableLineGrows(a, b, h, 0);
    assert MarkerAt(b, h, c, text);
  }

  /** A writer step: no call moves, no record is queued, the log only grows, the flag is not cleared. */
  ghost predicate WriterMove(s: State, s': State) {
    && s'.cfg == s.cfg && s'.calls == s.calls && s'.join == s.join && s'.chan.pushed == s.chan.pushed
    && s'.gate.tx == s.gate.tx && (s.gate.failed ==> s'.gate.failed)
    && Grows(s.sink, s'.sink) && s.chan.done <= s'.chan.done && s.chan.acked <= s'.chan.acked
    && s.writer.Running?
  }

  lemma MoveDurable(s: State, s': State, i: nat)
    requires WriterMove(s, s') && DurableTo(s, i)
    ensures DurableTo(s', i)
  {
    forall j | 0 <= j <= i ensures Durable(s'.sink, Record(s'.chan.pushed[j].id), s'.chan.pushed[j].text) {
      DurableGrows(s.sink, s'.sink, Record(s.chan.pushed[j].id), s.chan.pushed[j].text);
    }
  }

  /** What the writer newly acknowledges or syncs is durable. */
  ghost predicate NewlyDurable(s: State, s': State) {
    && s'.chan.done <= |s'.chan.pushed|
    && (forall c :: c in s'.chan.acked && c !in s.chan.acked ==> exists i :: AckedAt(s', c, i))
    && (!s'.gate.failed ==> forall i :: s.chan.done <= i < s'.chan.done && Pressing(s', i) ==> DurableTo(s', i))
  }

  lemma MoveAcks(s: State, s': State)
    requires Acks(s) && WriterMove(s, s') && NewlyDurable(s, s')
    ensures Acks(s')
  {
    forall c | c in s'.chan.acked ensures exists i :: AckedAt(s', c, i) {
      if c in s.chan.acked {
        var i :| AckedAt(s, c, i);
        if !s'.gate.failed { MoveDurable(s, s', i); }
        assert AckedAt(s', c, i);
      }
    }
    forall i | 0 <= i < s'.chan.done && Pressing(s', i) && !s'.gate.failed ensures DurableTo(s', i) {
      if i < s.chan.done {
        assert Pressing(s, i);
        MoveDurable(s, s', i);
      }
    }
  }

  lemma MoveFlags(s: State, s': State)
    requires Flags(s) && Prior(s) && WriterMove(s, s')
    ensures Flags(s') && Prior(s')
  {
    forall d | 0 <= d < |s'.calls| && Logging(s'.calls[d].kind) ensures Accounted(s', d) {
      assert Accounted(s, d);
      assert InPushed(s, d) ==> InPushed(s', d);
    }
    forall d | 0 <= d < |s'.calls| ensures Follows(s', d) {
      assert Follows(s, d);
      forall p | p in s'.calls[d].prior && s'.cfg.failClosed && !s'.gate.failed
        ensures QueuedBefore(s', p, s'.calls[d].base)
      {
        assert QueuedBefore(s, p, s.calls[d].base);
      }
    }
  }

  lemma MoveReplies(s: State, s': State)
    requires Replies(s) && WriterMove(s, s')
    requires forall c :: c in s'.rot.replies ==>
               (c in s.rot.replies && s'.rot.replies[c] == s.rot.replies[c])
               || (Is(s, c) && (s'.rot.replies[c] ==> RotatedBy(s'.sink, c, s.calls[c].text)))
    requires forall i :: 0 <= i < |s'.rot.requests| ==> s'.rot.requests[i] in s.rot.requests
    requires s'.rot.serving.Some? ==> s'.rot.serving == s.rot.serving || s'.rot.serving.value in s.rot.requests
    ensures Replies(s')
  {
    forall c | c in s'.rot.replies
      ensures Is(s', c) && (s'.rot.replies[c] ==> RotatedBy(s'.sink, c, s'.calls[c].text))
    {
      if c in s.rot.replies && s'.rot.replies[c] == s.rot.replies[c] && s.rot.replies[c] {
        RotatedGrows(s.sink, s'.sink, c, s.calls[c].text);
      }
    }
    forall c | 0 <= c < |s'.calls| && s'.calls[c].kind.Reopen? && s'.calls[c].phase == Returned(true)
      ensures RotatedBy(s'.sink, c, s'.calls[c].text)
    {
      RotatedGrows(s.sink, s'.sink, c, s.calls[c].text);
    }
  }

  lemma MoveJoins(s: State, s': State)
    requires Joins(s) && WriterMove(s, s')
    ensures Joins(s')
  {
    assert !Ended(s);
    assert forall c :: 0 <= c < |s.calls| && s.calls[c].phase.Verdict? ==> s.join.detached;
  }

  /** The writer's shared part of every step. */
  lemma MoveStep(s: State, s': State)
    requires Inv(s) && WriterMove(s, s') && Budget(s') && Slots(s') && Order(s') && Storage(s') && Acks(s')
    requires Replies(s') && Drained(s') && Rotates(s')
    ensures Inv(s')
  {
    MoveFlags(s, s');
    MoveJoins(s, s');
  }

  /** No call moved and nothing was queued: records stay owned, and items that stay keep their urgency. */
  lemma OwnedStays(s: State, s': State)
    requires Order(s) && s'.calls == s.calls && s'.chan.pushed == s.chan.pushed && s'.chan.queue <= s.chan.queue
    requires s'.chan.hand == s.chan.hand || s'.chan.hand.None?
    ensures Items(s') && AllOwned(s')
  {
    forall i | 0 <= i < |s'.chan.queue| ensures ItemOk(s', s'.chan.queue[i]) { assert ItemOk(s, s.chan.queue[i]); }
    forall i | 0 <= i < |s'.chan.pushed| ensures Owned(s', s'.chan.pushed[i]) { assert Owned(s, s.chan.pushed[i]); }
  }

  /** What a writer step leaves of the reopen channel when it takes no request. */
  ghost predicate SameServed(s: State, s': State) {
    && s'.calls == s.calls && s'.rot.served == s.rot.served && (s'.rot.idle ==> s.rot.idle)
    && (s'.rot.requests == s.rot.requests || (s'.rot.requests == [] && !s'.rot.idle))
  }

  lemma MoveOnTime(s: State, s': State)
    requires Asked(s) && AllOnTime(s) && SameServed(s, s') && s.chan.done <= s'.chan.done
    ensures Asked(s') && AllOnTime(s')
  {
    forall c | PostedCall(s, c) ensures PostedCall(s', c) { }
    forall c | 0 <= c < |s'.calls| ensures OnTime(s', c) { assert OnTime(s, c); }
  }

  /** No line is added or lost. */
  lemma CalmPlaced(s: State, s': State, ok: bool)
    requires Placed(s) && KeepsHistory(s, s') && Calm(s.sink, s'.sink, ok)
    ensures Placed(s')
  {
    assert Journal(s.sink) + [] == Journal(s.sink);
    forall p: nat | p < |Journal(s'.sink)| ensures PlacedAt(s', p) { PlacedStays(s, s', {}, p); }
  }

  lemma CalmRotates(s: State, s': State, ok: bool)
    requires Rotates(s) && SameServed(s, s') && KeepsHistory(s, s') && Calm(s.sink, s'.sink, ok)
    requires s'.rot.serving.None? || (s'.rot.serving == s.rot.serving && s'.chan.done == s.chan.done)
    requires !s'.rot.idle
    ensures Rotates(s')
  {
    CalmPlaced(s, s', ok);
    MoveOnTime(s, s');
  }

  lemma CalmSelf(k: Sink)
    requires SinkOk(k)
    ensures Calm(k, k, true)
  {
    CountKept(k, k.events);
  }

  lemma SameOrder(s: State, s': State)
    requires Order(s) && s'.calls == s.calls && s'.writer == s.writer && s'.chan == s.chan
    ensures Order(s')
  {
    OwnedStays(s, s');
  }

  /** An arm that handles no record leaves the log's tale as it was. */
  lemma CalmTells(k: Sink, b: Sink, ok: bool, added: seq<Line>, gone: set<Tag>, taken: seq<Entry>)
    requires Tells(k, taken) && Kept(k, b, ok, added, gone) && Recorded(b) == Recorded(k)
    requires forall id: nat :: Record(id) !in gone
    ensures Tells(b, taken)
  {
    SurvivorsSame(taken, k.lost, gone);
  }

  lemma ArmStep(s: State, r: Arm, s': State, added: seq<Line>, gone: set<Tag>)
    requires Inv(s) && s.writer.Running? && Kept(s.sink, r.sink, !r.fault, added, gone)
    requires Recorded(r.sink) == Recorded(s.sink) && forall id: nat :: Record(id) !in gone
    requires s' == WithArm(s, r).(rot := s'.rot) && Replies(s') && Rotates(s')
    ensures Inv(s')
  {
    CalmTells(s.sink, r.sink, !r.fault, added, gone, s.chan.pushed[..s.chan.done]);
    SameOrder(s, s');
    MoveAcks(s, s');
    MoveStep(s, s');
  }

  lemma TickStep(s: State, r: Arm)
    requires Inv(s) && s.writer.Running? && Calm(s.sink, r.sink, !r.fault)
    ensures Inv(AfterTick(s, r))
  {
    var s' := AfterTick(s, r);
    assert Journal(s.sink) + [] == Journal(s.sink);
    MoveReplies(s, s');
    CalmRotates(s, s', !r.fault);
    ArmStep(s, r, s', [], {});
  }

  /** A reopen that replies ok has its marker durably at the head of the new handle. */
  lemma ReopenMarks(k: Sink, c: nat, text: bytes, line: Line, wrote: bool, r: Arm)
    requires ReopenPromise(k, c, text, line, wrote, r) && r.ok
    ensures RotatedBy(r.sink, c, text)
  {
    var h := |r.sink.retired|;
    assert Handles(r.sink)[h] == r.sink.cur;
    SettledLine(r.sink, h, 0);
    assert MarkerAt(r.sink, h, c, text);
  }

  /** A marker goes behind all that has been recorded. */
  lemma MarkerPlaced(s: State, c: nat, line: Line, wrote: bool, r: Arm)
    requires Placed(s) && Serving(s) && Storage(s) && s.rot.serving == Some(c)
    requires ReopenPromise(s.sink, c, line.text, line, wrote, r)
    ensures Placed(AfterReopen(s, r))
  {
    var s' := AfterReopen(s, r);
    var n := |Journal(s.sink)|;
    forall p: nat | p < |Journal(s'.sink)| ensures PlacedAt(s', p) {
      if p < n {
        PlacedStays(s, s', Gone(line.tag, wrote), p);
      } else {
        assert p == n && Journal(s'.sink)[..n] == Journal(s.sink);
        SurvivorsSame(s.chan.pushed[..s.chan.done], s.sink.lost, Gone(line.tag, wrote));
      }
    }
  }

  lemma AfterReopenRotates(s: State, c: nat, line: Line, wrote: bool, r: Arm)
    requires Rotates(s) && Storage(s) && s.rot.serving == Some(c) && ReopenPromise(s.sink, c, line.text, line, wrote, r)
    ensures Rotates(AfterReopen(s, r))
  {
    MarkerPlaced(s, c, line, wrote, r);
    MoveOnTime(s, AfterReopen(s, r));
  }

  lemma AfterReopenReplies(s: State, c: nat, line: Line, wrote: bool, r: Arm)
    requires Replies(s) && s.writer.Running? && s.rot.serving == Some(c) && Is(s, c)
    requires ReopenPromise(s.sink, c, s.calls[c].text, line, wrote, r)
    ensures Replies(AfterReopen(s, r))
  {
    if r.ok { ReopenMarks(s.sink, c, s.calls[c].text, line, wrote, r); }
    MoveReplies(s, AfterReopen(s, r));
  }

  lemma AfterReopenStep(s: State, c: nat, line: Line, wrote: bool, r: Arm)
    requires Inv(s) && s.writer.Running? && s.rot.serving == Some(c) && Is(s, c)
    requires ReopenPromise(s.sink, c, s.calls[c].text, line, wrote, r)
    ensures Inv(AfterReopen(s, r))
  {
    AfterReopenReplies(s, c, line, wrote, r);
    AfterReopenRotates(s, c, line, wrote, r);
    ArmStep(s, r, AfterReopen(s, r), Added(line, wrote), Gone(line.tag, wrote));
  }

  lemma ServeReopenStep(s: State, swap: Swap, o: Outcome)
    requires Inv(s) && Enabled(s, ServeReopen(swap, o))
    ensures Inv(DoServeReopen(s, swap, o))
  {
    var c := s.rot.serving.value;
    var text := s.calls[c].text;
    ReopenArmKept(s.sink, c, text, swap, o);
    AfterReopenStep(s, c, MarkerLine(s.sink, c, text, swap), MarkerWritten(s.sink, c, text, swap, o),
                    ReopenArm(s.sink, c, text, swap, o));
  }

  /** Only the reopen channel moves. */
  lemma RequestStep(s: State, s': State)
    requires Inv(s) && s.writer.Running? && s' == s.(rot := s'.rot) && Replies(s') && Rotates(s')
    ensures Inv(s')
  {
    GrowsCur(s.sink, s.sink);
    SameOrder(s, s');
    MoveAcks(s, s');
    MoveStep(s, s');
  }

  /** Finding no record means that all queued ones are finished. */
  lemma PollEmptyStep(s: State)
    requires Inv(s) && Enabled(s, PollEmpty)
    ensures Inv(Apply(s, PollEmpty))
  {
    var s' := Apply(s, PollEmpty);
    assert |s.chan.pushed[s.chan.done..]| == 0;
    GrowsCur(s.sink, s.sink);
    MoveReplies(s, s');
    PlacedFrame(s, s');
    forall c | PostedCall(s, c) ensures PostedCall(s', c) { }
    forall c | 0 <= c < |s'.calls| ensures OnTime(s', c) { assert OnTime(s, c) && Follows(s, c); }
    RequestStep(s, s');
  }

  /** The reopen queue is empty too: the writer sleeps, and looks at the record queue first when it wakes. */
  lemma ParkStep(s: State)
    requires Inv(s) && Enabled(s, Park)
    ensures Inv(Stir(s))
  {
    var s' := Stir(s);
    GrowsCur(s.sink, s.sink);
    MoveReplies(s, s');
    CalmSelf(s.sink);
    CalmRotates(s, s', true);
    RequestStep(s, s');
  }

  lemma TakeReopenAsked(s: State)
    requires Asked(s) && s.rot.requests != []
    ensures Asked(DoTakeReopen(s))
  {
    var s' := DoTakeReopen(s);
    forall c | PostedCall(s, c) ensures PostedCall(s', c) { }
    forall i | 0 <= i < |s'.rot.requests|
      ensures PostedCall(s', s'.rot.requests[i]) && s'.rot.requests[i] !in s'.rot.served
    {
      assert s'.rot.requests[i] == s.rot.requests[i + 1] && PostedCall(s, s.rot.requests[i + 1]);
      assert s.rot.requests[0] != s.rot.requests[i + 1];
    }
  }

  lemma TakeReopenRotates(s: State)
    requires Rotates(s) && Fifo(s) && Enabled(s, TakeReopen)
    ensures Rotates(DoTakeReopen(s))
  {
    var s' := DoTakeReopen(s);
    assert PostedCall(s, s.rot.requests[0]) && s.rot.requests[0] !in s.rot.served;
    PlacedFrame(s, s');
    TakeReopenAsked(s);
    forall c | 0 <= c < |s'.calls| ensures OnTime(s', c) { assert OnTime(s, c); }
  }

  lemma TakeReopenStep(s: State)
    requires Inv(s) && Enabled(s, TakeReopen)
    ensures Inv(DoTakeReopen(s))
  {
    TakeReopenReplies(s);
    TakeReopenRotates(s);
    RequestStep(s, DoTakeReopen(s));
  }

  lemma TakeReopenReplies(s: State)
    requires Replies(s) && Enabled(s, TakeReopen)
    ensures Replies(DoTakeReopen(s))
  {
    GrowsCur(s.sink, s.sink);
    MoveReplies(s, DoTakeReopen(s));
  }

  lemma DequeueOrder(s: State)
    requires Order(s) && Enabled(s, Dequeue)
    ensures Order(DoDequeue(s))
  {
    var s' := DoDequeue(s);
    forall i | 0 <= i < |s'.chan.pushed| ensures Owned(s', s'.chan.pushed[i]) { assert Owned(s, s.chan.pushed[i]); }
    forall i | 0 <= i < |s'.chan.queue| ensures ItemOk(s', s'.chan.queue[i]) { assert ItemOk(s, s.chan.queue[i + 1]); }
    assert ItemOk(s, s.chan.queue[0]);
    assert Entries(s.chan.queue) == [s.chan.queue[0].entry] + Entries(s'.chan.queue);
  }

  lemma DequeueBudget(s: State)
    requires Budget(s) && Slots(s) && Enabled(s, Dequeue)
    ensures Budget(DoDequeue(s)) && Slots(DoDequeue(s))
  {
    NeedsFirst(s.chan.queue);
  }

  lemma DequeueStep(s: State)
    requires Inv(s) && Enabled(s, Dequeue)
    ensures Inv(DoDequeue(s))
  {
    var s' := DoDequeue(s);
    GrowsCur(s.sink, s.sink);
    DequeueBudget(s);
    DequeueOrder(s);
    MoveReplies(s, s');
    CalmSelf(s.sink);
    CalmRotates(s, s', true);
    MoveAcks(s, s');
    MoveStep(s, s');
  }

  /** The record in hand is the next one to be written. */
  ghost predicate InHand(s: State) {
    s.chan.hand.Some? && s.chan.done < |s.chan.pushed| && s.chan.pushed[s.chan.done] == s.chan.hand.value.entry
  }

  lemma HandIsNext(s: State)
    requires Order(s) && s.writer.Running? && s.chan.hand.Some?
    ensures InHand(s) && s.chan.pushed[s.chan.done + 1..] == Entries(s.chan.queue)
  {
    var rest := s.chan.pushed[s.chan.done..];
    assert rest[0] == s.chan.hand.value.entry && rest[1..] == Entries(s.chan.queue);
  }

  lemma WriteOrder(s: State, r: Arm)
    requires Order(s) && s.writer.Running? && s.chan.hand.Some?
    ensures Order(AfterWrite(s, r))
  {
    var s' := AfterWrite(s, r);
    HandIsNext(s);
    OwnedStays(s, s');
    assert HandEntries(s'.chan.hand) + Entries(s'.chan.queue) == Entries(s.chan.queue);
  }

  /** What the record arm promises (`RecordArmKept`). */
  ghost predicate RecordResult(s: State, wrote: bool, r: Arm)
    requires s.chan.hand.Some?
  {
    RecordPromise(s.sink, s.chan.hand.value.entry, MustSync(s, s.chan.hand.value), wrote, r)
  }

  lemma WriteTells(k: Sink, taken: seq<Entry>, e: Entry, mustSync: bool, wrote: bool, r: Arm)
    requires Tells(k, taken) && !HasId(taken, e.id) && RecordPromise(k, e, mustSync, wrote, r)
    ensures Tells(r.sink, taken + [e])
  {
    WriteRecorded(k, taken, e, wrote);
    LostStaysAmong(k.lost, taken, e, wrote);
  }

  lemma LostStaysAmong(lost: set<Tag>, taken: seq<Entry>, e: Entry, wrote: bool)
    requires LostAmong(lost, taken)
    ensures LostAmong(lost + Gone(Record(e.id), wrote), taken + [e])
  {
    forall id: nat | Record(id) in lost + Gone(Record(e.id), wrote) ensures HasId(taken + [e], id) {
      if Record(id) in lost {
        var i :| 0 <= i < |taken| && taken[i].id == id;
        assert (taken + [e])[i].id == id;
      } else {
        assert (taken + [e])[|taken|].id == id;
      }
    }
  }

  lemma WriteRecorded(k: Sink, taken: seq<Entry>, e: Entry, wrote: bool)
    requires Tells(k, taken) && !HasId(taken, e.id)
    ensures Records(Journal(k) + Added(RecordLine(k, e), wrote))
         == Survivors(taken + [e], k.lost + Gone(Record(e.id), wrote))
    ensures wrote ==> Records(Journal(k) + Added(RecordLine(k, e), wrote)) == Recorded(k) + [e]
  {
    var gone := Gone(Record(e.id), wrote);
    SurvivorsSnoc(taken, e, k.lost + gone);
    SurvivorsSame(taken, k.lost, gone);
    if wrote { RecordedMore(Journal(k), RecordLine(k, e)); } else { assert Journal(k) + [] == Journal(k); }
  }

  lemma InHandFresh(s: State)
    requires InHand(s) && DistinctIds(s.chan.pushed)
    ensures !HasId(s.chan.pushed[..s.chan.done], s.chan.hand.value.entry.id)
  {
  }

  lemma WritePlaced(s: State, wrote: bool, r: Arm)
    requires Placed(s) && InHand(s) && DistinctIds(s.chan.pushed) && RecordResult(s, wrote, r)
    ensures Placed(AfterWrite(s, r))
  {
    var s', e := AfterWrite(s, r), s.chan.hand.value.entry;
    forall p: nat | p < |Journal(s'.sink)| ensures PlacedAt(s', p) {
      if p < |Journal(s.sink)| {
        PlacedStays(s, s', Gone(Record(e.id), wrote), p);
      } else {
        assert Journal(s'.sink)[p] == RecordLine(s.sink, e);
      }
    }
  }

  lemma WriteStorage(s: State, wrote: bool, r: Arm)
    requires Storage(s) && InHand(s) && DistinctIds(s.chan.pushed) && RecordResult(s, wrote, r)
    ensures Storage(AfterWrite(s, r))
  {
    var e := s.chan.hand.value.entry;
    assert s.chan.pushed[..s.chan.done + 1] == s.chan.pushed[..s.chan.done] + [e];
    InHandFresh(s);
    WriteTells(s.sink, s.chan.pushed[..s.chan.done], e, MustSync(s, s.chan.hand.value), wrote, r);
  }

  /** A record the writer acknowledged is durable, and so is every record queued before it. */
  lemma WriteDurable(s: State, wrote: bool, r: Arm)
    requires Storage(s) && InHand(s) && DistinctIds(s.chan.pushed) && RecordResult(s, wrote, r) && r.ok
    requires !AfterWrite(s, r).gate.failed
    ensures DurableTo(AfterWrite(s, r), s.chan.done)
  {
    var s' := AfterWrite(s, r);
    WriteStorage(s, wrote, r);
    forall j | 0 <= j <= s.chan.done ensures Durable(s'.sink, Record(s'.chan.pushed[j].id), s'.chan.pushed[j].text) {
      assert s'.chan.pushed[..s'.chan.done][j] == s.chan.pushed[j];
      SettledRecords(r.sink, s.chan.pushed[j]);
    }
  }

  lemma WriteAcked(s: State, wrote: bool, r: Arm)
    requires Storage(s) && InHand(s) && DistinctIds(s.chan.pushed) && RecordResult(s, wrote, r) && r.ok
    ensures AckedAt(AfterWrite(s, r), s.chan.hand.value.entry.id, s.chan.done)
  {
    if !AfterWrite(s, r).gate.failed { WriteDurable(s, wrote, r); }
  }

  lemma WritePressing(s: State, wrote: bool, r: Arm)
    requires Storage(s) && InHand(s) && DistinctIds(s.chan.pushed) && ItemOk(s, s.chan.hand.value)
    requires RecordResult(s, wrote, r)
    requires !AfterWrite(s, r).gate.failed && Pressing(s, s.chan.done)
    ensures DurableTo(AfterWrite(s, r), s.chan.done)
  {
    assert MustSync(s, s.chan.hand.value);
    WriteDurable(s, wrote, r);
  }

  lemma WriteNewlyDurable(s: State, wrote: bool, r: Arm)
    requires Storage(s) && Items(s) && InHand(s) && DistinctIds(s.chan.pushed) && RecordResult(s, wrote, r)
    ensures NewlyDurable(s, AfterWrite(s, r))
  {
    var s', n := AfterWrite(s, r), s.chan.done;
    forall c | c in s'.chan.acked && c !in s.chan.acked ensures exists i :: AckedAt(s', c, i) {
      WriteAcked(s, wrote, r);
      assert AckedAt(s', c, n);
    }
    forall i | n <= i < s'.chan.done && Pressing(s', i) && !s'.gate.failed ensures DurableTo(s', i) {
      assert i == n && Pressing(s, n);
      WritePressing(s, wrote, r);
    }
  }

  lemma AfterWriteRotates(s: State, wrote: bool, r: Arm)
    requires Rotates(s) && Order(s) && InHand(s) && s.rot.serving.None? && RecordResult(s, wrote, r)
    ensures Rotates(AfterWrite(s, r))
  {
    WritePlaced(s, wrote, r);
    MoveOnTime(s, AfterWrite(s, r));
  }

  lemma AfterWriteAcks(s: State, wrote: bool, r: Arm)
    requires Storage(s) && Order(s) && Acks(s) && InHand(s) && s.writer.Running? && RecordResult(s, wrote, r)
    ensures Acks(AfterWrite(s, r)) && WriterMove(s, AfterWrite(s, r))
  {
    WriteNewlyDurable(s, wrote, r);
    MoveAcks(s, AfterWrite(s, r));
  }

  lemma AfterWriteStep(s: State, wrote: bool, r: Arm)
    requires Inv(s) && s.writer.Running? && s.chan.hand.Some? && s.rot.serving.None? && RecordResult(s, wrote, r)
    ensures Inv(AfterWrite(s, r))
  {
    var s' := AfterWrite(s, r);
    HandIsNext(s);
    WriteOrder(s, r);
    WriteStorage(s, wrote, r);
    AfterWriteAcks(s, wrote, r);
    AfterWriteRotates(s, wrote, r);
    AfterWriteReplies(s, r);
    MoveStep(s, s');
  }

  lemma AfterWriteReplies(s: State, r: Arm)
    requires Replies(s) && s.chan.hand.Some? && WriterMove(s, AfterWrite(s, r))
    ensures Replies(AfterWrite(s, r))
  {
    MoveReplies(s, AfterWrite(s, r));
  }

  lemma WriteStep(s: State, o: Outcome)
    requires Inv(s) && Enabled(s, Write(o))
    ensures Inv(DoWrite(s, o))
  {
    var i := s.chan.hand.value;
    RecordArmKept(s.sink, i.entry, MustSync(s, i), o);
    AfterWriteStep(s, AuditSink.WriteAll(s.sink, Record(i.entry.id), i.entry.text, o.spill, o.direct).1,
                   RecordArm(s.sink, i.entry.id, i.entry.text, MustSync(s, i), o));
  }

  lemma CloseOrder(s: State, r: Arm)
    requires Order(s) && s.writer.Running? && s.chan.queue == [] && s.chan.hand.None?
    ensures Order(AfterClose(s, r)) && s.chan.done == |s.chan.pushed|
  {
    assert |s.chan.pushed[s.chan.done..]| == 0;
    OwnedStays(s, AfterClose(s, r));
  }

  lemma CloseStorage(s: State, r: Arm)
    requires Storage(s) && Calm(s.sink, r.sink, !r.fault)
    ensures Storage(AfterClose(s, r))
  {
    assert Journal(s.sink) + [] == Journal(s.sink);
    CalmTells(s.sink, r.sink, !r.fault, [], {}, s.chan.pushed[..s.chan.done]);
  }

  lemma CloseRest(s: State, r: Arm)
    requires Acks(s) && Replies(s) && Rotates(s) && s.chan.done <= |s.chan.pushed|
    requires s.writer.Running? && s.rot.serving.None? && Calm(s.sink, r.sink, !r.fault)
    ensures Acks(AfterClose(s, r)) && Replies(AfterClose(s, r)) && Rotates(AfterClose(s, r))
  {
    var s' := AfterClose(s, r);
    CalmRotates(s, s', !r.fault);
    MoveReplies(s, s');
    MoveAcks(s, s');
  }

  lemma AfterCloseStep(s: State, r: Arm)
    requires Inv(s) && s.writer.Running? && s.chan.queue == [] && s.chan.hand.None? && !s.gate.tx
    requires forall c :: 0 <= c < |s.calls| ==> !s.calls[c].phase.Sending?
    requires Calm(s.sink, r.sink, !r.fault) && s.rot.serving.None? && (!r.fault ==> AllSettled(r.sink))
    ensures Inv(AfterClose(s, r))
  {
    CloseOrder(s, r);
    CloseStorage(s, r);
    CloseRest(s, r);
    MoveStep(s, AfterClose(s, r));
  }

  lemma NoSender(s: State)
    requires !SenderAlive(s)
    ensures !s.gate.tx && forall c :: 0 <= c < |s.calls| ==> !s.calls[c].phase.Sending?
  {
    forall c | 0 <= c < |s.calls| ensures !s.calls[c].phase.Sending? { assert !HoldsSender(s.calls[c].phase); }
  }

  lemma CloseStep(s: State, o: Outcome)
    requires Inv(s) && Enabled(s, Close(o))
    ensures Inv(AfterClose(s, CloseArm(s.sink, o)))
  {
    NoSender(s);
    CloseArmKept(s.sink, o);
    AfterCloseStep(s, CloseArm(s.sink, o));
  }

  lemma DieBudget(s: State)
    requires Budget(s)
    ensures Budget(DoDie(s)) && Slots(DoDie(s))
  {
    NeedsNonNegative(s.chan.queue);
  }

  lemma DieRest(s: State)
    requires Acks(s) && Replies(s) && Rotates(s) && s.chan.done <= |s.chan.pushed| && s.writer.Running?
    requires SinkOk(s.sink)
    ensures Acks(DoDie(s)) && Replies(DoDie(s)) && Rotates(DoDie(s)) && WriterMove(s, DoDie(s))
  {
    var s' := DoDie(s);
    CalmSelf(s.sink);
    CalmRotates(s, s', true);
    MoveReplies(s, s');
    MoveAcks(s, s');
  }

  lemma DieStep(s: State)
    requires Inv(s) && s.writer.Running?
    ensures Inv(DoDie(s))
  {
    DieBudget(s);
    OwnedStays(s, DoDie(s));
    DieRest(s);
    MoveStep(s, DoDie(s));
  }

  // ---- Every step, every run ------------------------------------------------------------------------------------

  predicate Sends(a: Action) {
    a.TryAcquire? || a.Grant? || a.Acquired? || a.FetchTx? || a.TakeSlot? || a.SendRefused?
  }

  predicate Returns(a: Action) { a.AckWait? || a.CheckTx? || a.CheckFlag? }

  predicate Closes(a: Action) {
    a.RequestReopen? || a.PostReopen? || a.ReplyWait? || a.CloseTx? || a.CloseReopen?
  }

  predicate Reopens(a: Action) { a.PollEmpty? || a.Park? || a.TakeReopen? || a.ServeReopen? }

  predicate Writes(a: Action) {
    a.Dequeue? || a.Write? || a.TickFlush? || a.TickFsync? || Reopens(a) || a.Close? || a.Die?
  }

  lemma SendLawful(s: State, a: Action)
    requires Sends(a) && Enabled(s, a) && Facts(s, a.c)
    ensures Lawful(s, Apply(s, a), a.c)
  {
    match a {
      case TryAcquire(c) => TryAcquireLawful(s, c);
      case Grant(c, n) => GrantLawful(s, c, n);
      case Acquired(c) => AcquiredLawful(s, c);
      case FetchTx(c) => FetchTxLawful(s, c);
      case TakeSlot(c) => TakeSlotLawful(s, c);
      case SendRefused(c) => SendRefusedLawful(s, c);
    }
  }

  lemma ReturnLawful(s: State, a: Action)
    requires Returns(a) && Enabled(s, a) && Facts(s, a.c)
    ensures Lawful(s, Apply(s, a), a.c)
  {
    match a {
      case AckWait(c) => AckWaitLawful(s, c);
      case CheckTx(c) => CheckTxLawful(s, c);
      case CheckFlag(c) => CheckFlagLawful(s, c);
    }
  }

  lemma ReopenLawful(s: State, a: Action)
    requires Closes(a) && Enabled(s, a) && Facts(s, a.c)
    ensures Lawful(s, Apply(s, a), a.c)
  {
    match a {
      case RequestReopen(c) => RequestReopenLawful(s, c);
      case PostReopen(c) => PostReopenLawful(s, c);
      case ReplyWait(c) => ReplyWaitLawful(s, c);
      case CloseTx(c) => CloseTxLawful(s, c);
      case CloseReopen(c) => CloseReopenLawful(s, c);
    }
  }

  lemma ActsLawful(s: State, a: Action)
    requires (Sends(a) || Returns(a) || Closes(a)) && Enabled(s, a) && Facts(s, a.c)
    ensures Lawful(s, Apply(s, a), a.c)
  {
    if Sends(a) { SendLawful(s, a); } else if Returns(a) { ReturnLawful(s, a); } else { ReopenLawful(s, a); }
  }

  lemma LawfulStep(s: State, a: Action)
    requires Inv(s) && Enabled(s, a) && (Sends(a) || Returns(a) || Closes(a))
    ensures Inv(Apply(s, a))
  {
    InvFacts(s, a.c);
    ActsLawful(s, a);
    QuietStep(s, Apply(s, a), a.c);
  }

  lemma TickApplied(s: State, r: Arm, s': State)
    requires Inv(s) && s.writer.Running? && Calm(s.sink, r.sink, !r.fault) && s' == AfterTick(s, r)
    ensures Inv(s')
  {
    TickStep(s, r);
  }

  lemma FlushTickStep(s: State, a: Action)
    requires Inv(s) && Enabled(s, a) && a.TickFlush?
    ensures Inv(Apply(s, a))
  {
    FlushTickKept(s.sink, a.w);
    TickApplied(s, FlushTick(s.sink, a.w), Apply(s, a));
  }

  lemma FsyncTickStep(s: State, a: Action)
    requires Inv(s) && Enabled(s, a) && a.TickFsync?
    ensures Inv(Apply(s, a))
  {
    FsyncTickKept(s.sink, a.sync, a.dir);
    TickApplied(s, FsyncTick(s.sink, a.sync, a.dir), Apply(s, a));
  }

  lemma RecordStep(s: State, a: Action)
    requires Inv(s) && Enabled(s, a) && (a.Dequeue? || a.Write?)
    ensures Inv(Apply(s, a))
  {
    match a {
      case Dequeue => DequeueStep(s);
      case Write(o) => WriteStep(s, o);
    }
  }

  lemma PollingStep(s: State, a: Action)
    requires Inv(s) && Enabled(s, a) && (a.PollEmpty? || a.Park?)
    ensures Inv(Apply(s, a))
  {
    match a {
      case PollEmpty => PollEmptyStep(s);
      case Park => ParkStep(s);
    }
  }

  lemma TakingStep(s: State, a: Action)
    requires Inv(s) && Enabled(s, a) && a.TakeReopen?
    ensures Inv(Apply(s, a))
  {
    TakeReopenStep(s);
  }

  lemma ServingStep(s: State, a: Action)
    requires Inv(s) && Enabled(s, a) && a.ServeReopen?
    ensures Inv(Apply(s, a))
  {
    ServeReopenStep(s, a.swap, a.o);
  }

  lemma EndStep(s: State, a: Action)
    requires Inv(s) && Enabled(s, a) && (a.Close? || a.Die?)
    ensures Inv(Apply(s, a))
  {
    match a {
      case Close(o) => CloseStep(s, o);
      case Die => DieStep(s);
    }
  }

  lemma CallerStep(s: State, a: Action)
    requires Inv(s) && Enabled(s, a) && !Sends(a) && !Returns(a) && !Closes(a) && !Writes(a)
    ensures Inv(Apply(s, a))
  {
    match a {
      case Start(_, _, _, _) => StartStep(s, a);
      case TrySend(c) => TrySendStep(s, c);
      case Push(c) => PushStep(s, c);
      case LockJoin(c) => LockJoinStep(s, c);
      case Join(c) => JoinStep(s, c);
      case Conclude(c) => ConcludeStep(s, c);
      case Cancel(c) => CancelStep(s, c);
    }
  }

  /** Every step of every caller and of the writer keeps the invariants. */
  lemma StepKeeps(s: State, a: Action)
    requires Inv(s) && Enabled(s, a)
    ensures Inv(Apply(s, a))
  {
    if Sends(a) || Returns(a) || Closes(a) {
      LawfulStep(s, a);
    } else if a.TickFlush? {
      FlushTickStep(s, a);
    } else if a.TickFsync? {
      FsyncTickStep(s, a);
    } else if a.Dequeue? || a.Write? {
      RecordStep(s, a);
    } else if a.PollEmpty? || a.Park? {
      PollingStep(s, a);
    } else if a.TakeReopen? {
      TakingStep(s, a);
    } else if a.ServeReopen? {
      ServingStep(s, a);
    } else if a.Close? || a.Die? {
      EndStep(s, a);
    } else {
      CallerStep(s, a);
    }
  }

  lemma OthersLeaveLog(s: State, a: Action)
    requires Enabled(s, a) && !(a.Write? || a.ServeReopen? || a.TickFlush? || a.TickFsync? || a.Close?)
    ensures Apply(s, a).sink == s.sink && Apply(s, a).cfg == s.cfg
  {
  }

  lemma ArmGrows(s: State, a: Action)
    requires SinkOk(s.sink) && Enabled(s, a) && (a.Write? || a.ServeReopen?)
    ensures Grows(s.sink, Apply(s, a).sink) && Apply(s, a).cfg == s.cfg
  {
    match a {
      case Write(o) => RecordArmKept(s.sink, s.chan.hand.value.entry, MustSync(s, s.chan.hand.value), o);
      case ServeReopen(swap, o) =>
        ReopenArmKept(s.sink, s.rot.serving.value, s.calls[s.rot.serving.value].text, swap, o);
    }
  }

  lemma QuietArmGrows(s: State, a: Action)
    requires SinkOk(s.sink) && Enabled(s, a) && (a.TickFlush? || a.TickFsync?)
    ensures Grows(s.sink, Apply(s, a).sink) && Apply(s, a).cfg == s.cfg
  {
    match a {
      case TickFlush(w) => FlushTickKept(s.sink, w);
      case TickFsync(sync, dir) => FsyncTickKept(s.sink, sync, dir);
    }
  }

  lemma CloseGrows(s: State, o: Outcome)
    requires SinkOk(s.sink) && Enabled(s, Close(o))
    ensures Grows(s.sink, Apply(s, Close(o)).sink) && Apply(s, Close(o)).cfg == s.cfg
  {
    CloseArmKept(s.sink, o);
  }

  lemma StepGrows(s: State, a: Action)
    requires SinkOk(s.sink) && Enabled(s, a)
    ensures Grows(s.sink, Apply(s, a).sink) && Apply(s, a).cfg == s.cfg
  {
    if a.Write? || a.ServeReopen? {
      ArmGrows(s, a);
    } else if a.TickFlush? || a.TickFsync? {
      QuietArmGrows(s, a);
    } else if a.Close? {
      CloseGrows(s, a.o);
    } else {
      OthersLeaveLog(s, a);
      GrowsCur(s.sink, s.sink);
    }
  }

  lemma OpenSinkOk(hasDir: bool)
    ensures SinkOk(OpenSink(hasDir)) && Clean(OpenSink(hasDir)) && Led(OpenSink(hasDir))
    ensures Journal(OpenSink(hasDir)) == []
  {
    var lines := OpenSink(hasDir).cur.lines;
    assert Texts(lines) == [] && Texts(lines[..0]) == [] && Texts(lines[0..]) == [];
  }

  lemma InitialInv(failClosed: bool, everyEvent: bool, hasDir: bool)
    ensures Inv(Initial(failClosed, everyEvent, hasDir))
  {
    OpenSinkOk(hasDir);
  }

  lemma {:induction false} RunKeeps(s: State, acts: seq<Action>)
    requires Inv(s) && Run(s, acts).Some?
    ensures Inv(Run(s, acts).value) && Grows(s.sink, Run(s, acts).value.sink) && Run(s, acts).value.cfg == s.cfg
    decreases |acts|
  {
    if acts == [] {
      GrowsCur(s.sink, s.sink);
    } else {
      var s1 := Apply(s, acts[0]);
      StepKeeps(s, acts[0]);
      StepGrows(s, acts[0]);
      RunKeeps(s1, acts[1..]);
      GrowsTransitive(s.sink, s1.sink, Run(s, acts).value.sink);
    }
  }

  lemma RunInv(s: State, failClosed: bool, everyEvent: bool, hasDir: bool, acts: seq<Action>)
    requires Run(Initial(failClosed, everyEvent, hasDir), acts) == Some(s)
    ensures Inv(s) && s.cfg == Config(failClosed, everyEvent)
  {
    InitialInv(failClosed, everyEvent, hasDir);
    RunKeeps(Initial(failClosed, everyEvent, hasDir), acts);
  }

  /** `s` is reached by some run of a fail-closed file logger. */
  ghost predicate Reached(s: State, everyEvent: bool, hasDir: bool, acts: seq<Action>) {
    Run(Initial(true, everyEvent, hasDir), acts) == Some(s)
  }

  lemma ReachedInv(s: State, everyEvent: bool, hasDir: bool, acts: seq<Action>)
    requires Reached(s, everyEvent, hasDir, acts)
    ensures Inv(s) && s.cfg.failClosed
  {
    RunInv(s, true, everyEvent, hasDir, acts);
  }

  ghost predicate DurableCall(s: State, k: Sink, c: nat) {
    Is(s, c) && Durable(k, Record(c), s.calls[c].text)
  }

  // ---- What the return values promise ------------------------------------------------------------------------------

  lemma CommitFacts(s: State, c: nat) returns (i: nat)
    requires Inv(s) && s.cfg.failClosed && !s.gate.failed && Is(s, c)
    requires s.calls[c].kind.LogCommitted? && s.calls[c].phase.Checked?
    ensures i < |s.chan.pushed| && s.chan.pushed[i].id == c && DurableTo(s, i) && s.calls[c].base <= i
  {
    assert Accounted(s, c) && Follows(s, c);
    i :| AckedAt(s, c, i);
  }

  /** Records `0..i` of the queue's history survive a crash of `k`. */
  ghost predicate Persisted(s: State, k: Sink, i: nat) {
    i < |s.chan.pushed| && forall j :: 0 <= j <= i ==> Durable(k, Record(s.chan.pushed[j].id), s.chan.pushed[j].text)
  }

  lemma DurableStays(s: State, k: Sink, i: nat)
    requires DurableTo(s, i) && Grows(s.sink, k)
    ensures Persisted(s, k, i)
  {
    forall j | 0 <= j <= i ensures Durable(k, Record(s.chan.pushed[j].id), s.chan.pushed[j].text) {
      DurableGrows(s.sink, k, Record(s.chan.pushed[j].id), s.chan.pushed[j].text);
    }
  }

  lemma PriorPersisted(s: State, k: Sink, c: nat, i: nat, p: nat)
    requires Order(s) && Is(s, c) && Follows(s, c) && s.cfg.failClosed && !s.gate.failed
    requires Persisted(s, k, i) && s.calls[c].base <= i && p in s.calls[c].prior
    ensures DurableCall(s, k, p)
  {
    assert QueuedBefore(s, p, s.calls[c].base);
    var j :| 0 <= j < s.calls[c].base && j < |s.chan.pushed| && s.chan.pushed[j].id == p;
    assert Owned(s, s.chan.pushed[j]);
  }

  /**
   When `log_committed` returns Ok, its record, every record queued before it and
   every record of a logging call that had returned before it started are in the
   fsynced part of a named file, and stay there whatever happens later.
   */
  lemma CommittedIsDurable(s: State, everyEvent: bool, hasDir: bool, acts: seq<Action>, c: nat, later: seq<Action>)
    requires Reached(s, everyEvent, hasDir, acts) && Enabled(s, CheckFlag(c)) && s.calls[c].kind.LogCommitted?
    requires Apply(s, CheckFlag(c)).calls[c].phase == Returned(true)
    requires Run(s, later).Some?
    ensures var k := Run(s, later).value.sink;
            && DurableCall(s, k, c)
            && (forall p :: p in s.calls[c].prior ==> DurableCall(s, k, p))
            && (forall i, j :: 0 <= j <= i < |s.chan.pushed| && s.chan.pushed[i].id == c ==>
                  Durable(k, Record(s.chan.pushed[j].id), s.chan.pushed[j].text))
  {
    ReachedInv(s, everyEvent, hasDir, acts);
    RunKeeps(s, later);
    CommitPersists(s, Run(s, later).value.sink, c);
  }

  lemma CommitPersists(s: State, k: Sink, c: nat)
    requires Inv(s) && s.cfg.failClosed && !s.gate.failed && Is(s, c) && Grows(s.sink, k)
    requires s.calls[c].kind.LogCommitted? && s.calls[c].phase.Checked?
    ensures DurableCall(s, k, c) && forall p :: p in s.calls[c].prior ==> DurableCall(s, k, p)
    ensures forall i, j :: 0 <= j <= i < |s.chan.pushed| && s.chan.pushed[i].id == c ==>
                  Durable(k, Record(s.chan.pushed[j].id), s.chan.pushed[j].text)
  {
    var n := CommitFacts(s, c);
    DurableStays(s, k, n);
    assert Owned(s, s.chan.pushed[n]);
    forall p | p in s.calls[c].prior ensures DurableCall(s, k, p) {
      PriorPersisted(s, k, c, n, p);
    }
  }

  /**
   A record that had to be synced at once, because every record is or because its
   severity asks for it, is durable with all before it from the moment the writer
   is done with it, for good, unless the flag is up.
   */
  lemma PressingIsDurable(s: State, failClosed: bool, everyEvent: bool, hasDir: bool, acts: seq<Action>, i: nat,
                          later: seq<Action>)
    requires Run(Initial(failClosed, everyEvent, hasDir), acts) == Some(s) && !s.gate.failed
    requires i < s.chan.done <= |s.chan.pushed|
    requires everyEvent || (Is(s, s.chan.pushed[i].id) && s.calls[s.chan.pushed[i].id].urgent)
    requires Run(s, later).Some?
    ensures Persisted(s, Run(s, later).value.sink, i)
  {
    RunInv(s, failClosed, everyEvent, hasDir, acts);
    RunKeeps(s, later);
    assert Pressing(s, i);
    DurableStays(s, Run(s, later).value.sink, i);
  }

  lemma ShutdownFacts(s: State, c: nat)
    requires Inv(s) && s.cfg.failClosed && !s.gate.failed && Is(s, c) && s.calls[c].phase.Verdict?
    requires !s.join.detached || s.writer.Exited?
    ensures AllSettled(s.sink) && Recorded(s.sink) == s.chan.pushed
  {
    assert s.writer.Exited?;
    assert s.chan.pushed[..s.chan.done] == s.chan.pushed;
  }

  lemma SettledPersists(s: State, k: Sink, i: nat)
    requires AllSettled(s.sink) && Recorded(s.sink) == s.chan.pushed && Grows(s.sink, k) && i < |s.chan.pushed|
    ensures Durable(k, Record(s.chan.pushed[i].id), s.chan.pushed[i].text)
  {
    SettledRecords(s.sink, s.chan.pushed[i]);
    DurableGrows(s.sink, k, Record(s.chan.pushed[i].id), s.chan.pushed[i].text);
  }

  lemma ReturnedQueued(s: State, p: nat) returns (i: nat)
    requires Order(s) && Flags(s) && s.cfg.failClosed && !s.gate.failed && p in ReturnedLogs(s)
    ensures i < |s.chan.pushed| && s.chan.pushed[i] == Entry(p, s.calls[p].text)
  {
    assert Accounted(s, p) && InPushed(s, p);
    i :| 0 <= i < |s.chan.pushed| && s.chan.pushed[i].id == p;
    assert Owned(s, s.chan.pushed[i]);
  }

  lemma ShutdownPersists(s: State, k: Sink, c: nat)
    requires Inv(s) && s.cfg.failClosed && !s.gate.failed && Is(s, c) && s.calls[c].phase.Verdict? && Grows(s.sink, k)
    requires !s.join.detached || s.writer.Exited?
    ensures forall p :: p in ReturnedLogs(s) ==> DurableCall(s, k, p)
    ensures forall i :: 0 <= i < |s.chan.pushed| ==> Durable(k, Record(s.chan.pushed[i].id), s.chan.pushed[i].text)
  {
    ShutdownFacts(s, c);
    forall i | 0 <= i < |s.chan.pushed| ensures Durable(k, Record(s.chan.pushed[i].id), s.chan.pushed[i].text) {
      SettledPersists(s, k, i);
    }
    forall p | p in ReturnedLogs(s) ensures DurableCall(s, k, p) {
      var i := ReturnedQueued(s, p);
    }
  }

  /**
   When `shutdown` returns Ok, every record of a logging call that has returned,
   and every record the queue ever took, is durable for good, provided the writer
   has ended: no other `shutdown` was cancelled while it waited for it, or it
   returned all the same.
   */
  lemma ShutdownIsDurable(s: State, everyEvent: bool, hasDir: bool, acts: seq<Action>, c: nat, later: seq<Action>)
    requires Reached(s, everyEvent, hasDir, acts) && Enabled(s, Conclude(c)) && (!s.join.detached || s.writer.Exited?)
    requires Apply(s, Conclude(c)).calls[c].phase == Returned(true)
    requires Run(s, later).Some?
    ensures var k := Run(s, later).value.sink;
            && (forall p :: p in ReturnedLogs(s) ==> DurableCall(s, k, p))
            && (forall i :: 0 <= i < |s.chan.pushed| ==>
                  Durable(k, Record(s.chan.pushed[i].id), s.chan.pushed[i].text))
  {
    ReachedInv(s, everyEvent, hasDir, acts);
    RunKeeps(s, later);
    ShutdownPersists(s, Run(s, later).value.sink, c);
  }

  /** The lines before segment `h`, when a marker heads it, are those before that marker. */
  lemma HeadPlaced(s: State, h: nat)
    requires Placed(s) && h < |Handles(s.sink)| && MarkerFirst(Handles(s.sink)[h].lines)
    ensures SplitsAt(s, Lines(Handles(s.sink)[..h]), Handles(s.sink)[h].lines[0].tag.request)
  {
    var older, newer := Handles(s.sink)[..h], Handles(s.sink)[h..];
    var p := |Lines(older)|;
    JournalSplits(s.sink, h);
    LinesHead(newer);
    assert Journal(s.sink)[..p] == Lines(older) && Journal(s.sink)[p] == Lines(newer)[0];
    assert PlacedAt(s, p);
  }

  lemma HeadsPlaced(s: State)
    requires Placed(s)
    ensures forall h :: 0 <= h < |Handles(s.sink)| && MarkerFirst(Handles(s.sink)[h].lines) ==>
              SplitsAt(s, Lines(Handles(s.sink)[..h]), Handles(s.sink)[h].lines[0].tag.request)
  {
    forall h | 0 <= h < |Handles(s.sink)| && MarkerFirst(Handles(s.sink)[h].lines)
      ensures SplitsAt(s, Lines(Handles(s.sink)[..h]), Handles(s.sink)[h].lines[0].tag.request)
    {
      HeadPlaced(s, h);
    }
  }

  /**
   Rotation repeats and reorders nothing and loses nothing of its own, in either
   mode and whatever failed. The log is the records taken off the queue, each of a
   different call, in queue order, without exactly those whose `write_all` failed.
   A segment that starts with a marker has behind it exactly the records finished
   when that request was taken. Until a `write_all` fails every segment is byte for
   byte its lines and every swapped-in one starts with a marker; until a flush fails
   too, no segment ends inside a line. Every segment but the live one is durable.
   */
  lemma RotationKeepsLog(s: State, failClosed: bool, everyEvent: bool, hasDir: bool, acts: seq<Action>)
    requires Run(Initial(failClosed, everyEvent, hasDir), acts) == Some(s)
    ensures Streams(s.sink) && s.chan.done <= |s.chan.pushed|
    ensures Recorded(s.sink) == Survivors(s.chan.pushed[..s.chan.done], s.sink.lost)
    ensures LostAmong(s.sink.lost, s.chan.pushed[..s.chan.done])
    ensures s.sink.lost == {} ==> Led(s.sink) && Recorded(s.sink) == s.chan.pushed[..s.chan.done]
    ensures forall h :: 0 <= h < |Handles(s.sink)| && MarkerFirst(Handles(s.sink)[h].lines) ==>
              SplitsAt(s, Lines(Handles(s.sink)[..h]), Handles(s.sink)[h].lines[0].tag.request)
    ensures !s.gate.failed ==> Clean(s.sink)
    ensures forall i, j :: 0 <= i < j < |s.chan.pushed| ==> s.chan.pushed[i].id != s.chan.pushed[j].id
    ensures s.writer.Running? ==> s.chan.pushed[s.chan.done..] == HandEntries(s.chan.hand) + Entries(s.chan.queue)
    ensures forall i :: 0 <= i < |s.sink.retired| ==> Settled(s.sink.retired[i])
    ensures forall c :: 0 <= c < |s.calls| && s.calls[c].kind.Reopen? && s.calls[c].phase == Returned(true) ==>
              RotatedBy(s.sink, c, s.calls[c].text)
  {
    RunInv(s, failClosed, everyEvent, hasDir, acts);
    HeadsPlaced(s);
  }

  lemma {:induction false} SurvivorsAppend(a: seq<Entry>, b: seq<Entry>, lost: set<Tag>)
    ensures Survivors(a + b, lost) == Survivors(a, lost) + Survivors(b, lost)
  {
    if b == [] {
      assert a + b == a;
    } else {
      var n := |b| - 1;
      assert a + b == (a + b[..n]) + [b[n]];
      SurvivorsSnoc(a + b[..n], b[n], lost);
      SurvivorsAppend(a, b[..n], lost);
    }
  }

  lemma {:induction false} SurvivorsHold(taken: seq<Entry>, lost: set<Tag>, e: Entry)
    requires Record(e.id) !in lost
    ensures e in Survivors(taken, lost) <==> e in taken
  {
    if taken != [] {
      var n := |taken| - 1;
      SurvivorsHold(taken[..n], lost, e);
      assert taken == taken[..n] + [taken[n]];
    }
  }

  lemma NotTwice(entries: seq<Entry>, n: nat, i: nat)
    requires DistinctIds(entries) && n <= |entries| && i < |entries|
    ensures entries[i] in entries[..n] <==> i < n
    ensures entries[i] in entries[n..] <==> i >= n
  {
    if i < n { assert entries[..n][i] == entries[i]; } else { assert entries[n..][i - n] == entries[i]; }
    if entries[i] in entries[..n] {
      var k :| 0 <= k < n && entries[..n][k] == entries[i];
      assert entries[k].id == entries[i].id;
    }
    if entries[i] in entries[n..] {
      var k :| 0 <= k < |entries| - n && entries[n..][k] == entries[i];
      assert entries[n + k].id == entries[i].id;
    }
  }

  /** The records before and after a split. */
  lemma SplitRecords(s: State, before: seq<Line>, after: seq<Line>, c: nat)
    requires SplitsAt(s, before, c) && Journal(s.sink) == before + after
    requires Recorded(s.sink) == Survivors(s.chan.pushed[..s.chan.done], s.sink.lost)
    ensures Records(after) == Survivors(s.chan.pushed[..s.chan.done][s.rot.served[c]..], s.sink.lost)
  {
    var taken, n := s.chan.pushed[..s.chan.done], s.rot.served[c];
    RecordsAppend(before, after);
    SurvivorsAppend(taken[..n], taken[n..], s.sink.lost);
    assert taken[..n] + taken[n..] == taken && taken[..n] == s.chan.pushed[..n];
    var front := Records(before);
    assert Records(after) == (front + Records(after))[|front|..];
  }

  lemma SplitHolds(s: State, before: seq<Line>, after: seq<Line>, c: nat, i: nat)
    requires SplitsAt(s, before, c) && Journal(s.sink) == before + after && DistinctIds(s.chan.pushed)
    requires Recorded(s.sink) == Survivors(s.chan.pushed[..s.chan.done], s.sink.lost)
    requires i < s.chan.done && Record(s.chan.pushed[i].id) !in s.sink.lost
    ensures s.chan.pushed[i] in Records(before) <==> i < s.rot.served[c]
    ensures s.chan.pushed[i] in Records(after) <==> i >= s.rot.served[c]
  {
    var taken, n := s.chan.pushed[..s.chan.done], s.rot.served[c];
    assert taken[i] == s.chan.pushed[i] && taken[..n] == s.chan.pushed[..n] && DistinctIds(taken);
    SplitRecords(s, before, after, c);
    NotTwice(taken, n, i);
    SurvivorsHold(taken[..n], s.sink.lost, taken[i]);
    SurvivorsHold(taken[n..], s.sink.lost, taken[i]);
  }

  /** A marker of request `c` heads segment `h`. */
  ghost predicate Heads(k: Sink, h: nat, c: nat) {
    h < |Handles(k)| && MarkerFirst(Handles(k)[h].lines) && Handles(k)[h].lines[0].tag.request == c
  }

  ghost predicate InOlder(k: Sink, h: nat, e: Entry)
    requires h < |Handles(k)|
  {
    e in Records(Lines(Handles(k)[..h]))
  }

  ghost predicate InNewer(k: Sink, h: nat, e: Entry)
    requires h < |Handles(k)|
  {
    e in Records(Lines(Handles(k)[h..]))
  }

  lemma HeadSplits(s: State, h: nat, c: nat, i: nat)
    requires Placed(s) && Storage(s) && DistinctIds(s.chan.pushed) && Heads(s.sink, h, c)
    requires i < s.chan.done && Record(s.chan.pushed[i].id) !in s.sink.lost
    ensures c in s.rot.served
    ensures InOlder(s.sink, h, s.chan.pushed[i]) <==> i < s.rot.served[c]
    ensures InNewer(s.sink, h, s.chan.pushed[i]) <==> i >= s.rot.served[c]
  {
    HeadPlaced(s, h);
    JournalSplits(s.sink, h);
    SplitHolds(s, Lines(Handles(s.sink)[..h]), Lines(Handles(s.sink)[h..]), c, i);
  }

  /**
   A record lies in a segment older than the one request `c`'s marker heads exactly
   when the writer had finished with it when it took the request, and in that
   segment or a newer one exactly otherwise.
   */
  lemma ReopenSplitsLog(s: State, failClosed: bool, everyEvent: bool, hasDir: bool, acts: seq<Action>,
                        h: nat, c: nat, i: nat)
    requires Run(Initial(failClosed, everyEvent, hasDir), acts) == Some(s) && Heads(s.sink, h, c)
    requires i < s.chan.done <= |s.chan.pushed| && Record(s.chan.pushed[i].id) !in s.sink.lost
    ensures c in s.rot.served
    ensures InOlder(s.sink, h, s.chan.pushed[i]) <==> i < s.rot.served[c]
    ensures InNewer(s.sink, h, s.chan.pushed[i]) <==> i >= s.rot.served[c]
  {
    RunInv(s, failClosed, everyEvent, hasDir, acts);
    HeadSplits(s, h, c, i);
  }

  lemma {:induction false} LostAreMissing(taken: seq<Entry>, lost: set<Tag>, e: Entry)
    requires Record(e.id) in lost
    ensures e !in Survivors(taken, lost)
  {
    if taken != [] { LostAreMissing(taken[..|taken| - 1], lost, e); }
  }

  lemma LostInNoSegment(s: State, h: nat, e: Entry)
    requires Storage(s) && h < |Handles(s.sink)| && Record(e.id) in s.sink.lost
    ensures !InNewer(s.sink, h, e)
  {
    JournalSplits(s.sink, h);
    RecordsAppend(Lines(Handles(s.sink)[..h]), Lines(Handles(s.sink)[h..]));
    LostAreMissing(s.chan.pushed[..s.chan.done], s.sink.lost, e);
  }

  lemma PromptSplits(s: State, h: nat, c: nat, i: nat)
    requires Rotates(s) && Storage(s) && DistinctIds(s.chan.pushed) && Heads(s.sink, h, c)
    requires Is(s, c) && s.calls[c].prompt && i < s.calls[c].base
    ensures i < s.chan.done && !InNewer(s.sink, h, s.chan.pushed[i])
    ensures Record(s.chan.pushed[i].id) in s.sink.lost || InOlder(s.sink, h, s.chan.pushed[i])
  {
    HeadPlaced(s, h);
    assert OnTime(s, c);
    if Record(s.chan.pushed[i].id) in s.sink.lost {
      LostInNoSegment(s, h, s.chan.pushed[i]);
    } else {
      HeadSplits(s, h, c, i);
    }
  }

  /**
   Every record queued before a reopen call began is written to an older segment
   than the one its marker heads, or lost to a failed write, if the call began
   while the order was safe (`Prompt`).
   */
  lemma PromptReopenIsOrdered(s: State, failClosed: bool, everyEvent: bool, hasDir: bool, acts: seq<Action>,
                              h: nat, c: nat, i: nat)
    requires Run(Initial(failClosed, everyEvent, hasDir), acts) == Some(s) && Heads(s.sink, h, c)
    requires Is(s, c) && s.calls[c].prompt && i < s.calls[c].base
    ensures i < s.chan.done <= |s.chan.pushed| && !InNewer(s.sink, h, s.chan.pushed[i])
    ensures Record(s.chan.pushed[i].id) in s.sink.lost || InOlder(s.sink, h, s.chan.pushed[i])
  {
    RunInv(s, failClosed, everyEvent, hasDir, acts);
    PromptSplits(s, h, c, i);
  }

  /** Conservation: permits, callers' shares, queued records and the record in hand always add up to the budget. */
  lemma BudgetIsConserved(s: State, failClosed: bool, everyEvent: bool, hasDir: bool, acts: seq<Action>)
    requires Run(Initial(failClosed, everyEvent, hasDir), acts) == Some(s)
    ensures 0 <= s.gate.permits
    ensures s.gate.permits + Shares(s.calls) + Needs(s.chan.queue) + HandNeed(s.chan.hand) == QUEUE_BYTE_BUDGET
    ensures s.writer.Running? ==>
              0 <= s.gate.slots && s.gate.slots + |s.chan.queue| + SlotsHeld(s.calls) == CHANNEL_CAPACITY
  {
    RunInv(s, failClosed, everyEvent, hasDir, acts);
  }

  lemma {:induction false} SharesAlone(calls: seq<Call>, c: nat)
    requires c < |calls| && forall d :: 0 <= d < |calls| && d != c ==> Share(calls[d]) == 0
    ensures Shares(calls) == Share(calls[c])
  {
    var n := |calls| - 1;
    if c == n {
      SharesNone(calls[..n]);
    } else {
      SharesAlone(calls[..n], c);
    }
  }

  lemma {:induction false} SharesNone(calls: seq<Call>)
    requires forall d :: 0 <= d < |calls| ==> Share(calls[d]) == 0
    ensures Shares(calls) == 0
  {
    if calls != [] { SharesNone(calls[..|calls| - 1]); }
  }

  lemma DrainedAdmits(s: State, c: nat)
    requires Budget(s) && Is(s, c) && s.calls[c].phase.Acquiring? && s.chan.queue == [] && s.chan.hand == None
    requires forall d :: 0 <= d < |s.calls| && d != c ==> Share(s.calls[d]) == 0
    ensures var n := s.calls[c].need - s.calls[c].phase.granted;
            Enabled(s, Grant(c, n)) && Enabled(Apply(s, Grant(c, n)), Acquired(c))
  {
    SharesAlone(s.calls, c);
    assert Capped(s.calls[c]);
  }

  /**
   No record is too large: once the queue has drained and no one else holds
   permits, a waiting caller gets all it needs.
   */
  lemma DrainedQueueAdmits(s: State, failClosed: bool, everyEvent: bool, hasDir: bool, acts: seq<Action>, c: nat)
    requires Run(Initial(failClosed, everyEvent, hasDir), acts) == Some(s)
    requires Is(s, c) && s.calls[c].phase.Acquiring? && s.chan.queue == [] && s.chan.hand == None
    requires forall d :: 0 <= d < |s.calls| && d != c ==> Share(s.calls[d]) == 0
    ensures var n := s.calls[c].need - s.calls[c].phase.granted;
            Enabled(s, Grant(c, n)) && Enabled(Apply(s, Grant(c, n)), Acquired(c))
  {
    RunInv(s, failClosed, everyEvent, hasDir, acts);
    DrainedAdmits(s, c);
  }
}
