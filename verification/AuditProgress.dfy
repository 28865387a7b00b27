/**
 What the logger does with a record when nothing stands in its way: which calls reach
 the queue and which are refused, when a call may return an error, and that a queued
 record reaches the log.
 */
module AuditProgress {
  import opened Options
  import opened Bytes
  import opened AuditSink
  import opened AuditLogger
  import opened AuditRuns
  import opened AuditCorners
  import opened ReopenOrder

  // ---- A call that never waits -------------------------------------------------------------

  /** With bytes free, a call that never waits gets them ... */
  lemma LogAcquires(s: State, k: Kind, size: nat, text: bytes, urgent: bool) returns (t: State)
    requires Logging(k) && NonBlocking(s, k) && Need(size) <= s.gate.permits
    ensures Run(s, [Start(k, size, text, urgent), TryAcquire(|s.calls|)]) == Some(t)
    ensures |t.calls| == |s.calls| + 1 && t.calls[..|s.calls|] == s.calls
    ensures var k' := t.calls[|s.calls|]; k'.phase == Holding && k'.kind == k && k'.text == text
    ensures t == s.(calls := t.calls, gate := s.gate.(permits := s.gate.permits - Need(size)))
  {
    var acts;
    acts, t := Then(s, [], s, Start(k, size, text, urgent));
    acts, t := Then(s, acts, t, TryAcquire(|s.calls|));
    assert acts == [Start(k, size, text, urgent), TryAcquire(|s.calls|)];
  }

  /** ... and with a slot free too, it queues its record and counts nothing as dropped. */
  lemma LogIsAccepted(s: State, k: Kind, size: nat, text: bytes, urgent: bool) returns (t: State)
    requires Logging(k) && NonBlocking(s, k) && Need(size) <= s.gate.permits && CanSend(s)
    ensures Run(s, [Start(k, size, text, urgent), TryAcquire(|s.calls|), TrySend(|s.calls|)]) == Some(t)
    ensures |t.calls| == |s.calls| + 1 && t.calls[..|s.calls|] == s.calls
    ensures t.calls[|s.calls|].phase == Returned(true)
    ensures t.chan.pushed == s.chan.pushed + [Entry(|s.calls|, text)] && t.chan.done == s.chan.done
    ensures t.gate == s.gate.(permits := s.gate.permits - Need(size), slots := s.gate.slots - 1)
    ensures t.sink == s.sink && t.writer == s.writer && t.cfg == s.cfg
  {
    var acts := [Start(k, size, text, urgent), TryAcquire(|s.calls|)];
    var u := LogAcquires(s, k, size, text, urgent);
    acts, t := Then(s, acts, u, TrySend(|s.calls|));
    assert acts == [Start(k, size, text, urgent), TryAcquire(|s.calls|), TrySend(|s.calls|)];
  }

  /** The two steps at which a call that never waits can be turned away. */
  ghost predicate Refuses(s: State, a: Action) {
    || (a.TryAcquire? && Is(s, a.c) && s.gate.permits < s.calls[a.c].need)
    || (a.TrySend? && !CanSend(s))
  }

  ghost predicate RefusedIn(s: State, acts: seq<Action>, c: nat)
    decreases |acts|
  {
    acts != [] && Enabled(s, acts[0])
    && (((acts[0] == TryAcquire(c) || acts[0] == TrySend(c)) && Refuses(s, acts[0]))
        || RefusedIn(Apply(s, acts[0]), acts[1..], c))
  }

  predicate ActsOn(a: Action, c: nat) { !Writes(a) && !a.Start? && a.c == c }

  lemma OtherCall(s: State, a: Action, c: nat)
    requires Enabled(s, a) && Is(s, c) && !ActsOn(a, c)
    ensures Is(Apply(s, a), c) && Apply(s, a).calls[c] == s.calls[c]
  {
    if Writes(a) {
      WriterSameCalls(s, a);
    } else if Closes(a) {
      ChannelMoves(s, a);
    } else if !a.Start? {
      CallerMoves(s, a);
    }
  }

  predicate Queueing(a: Action) { a.TrySend? || a.Push? }

  /** The flag is never cleared, nor the sender stored again. */
  ghost predicate Wears(s: State, t: State) {
    t.cfg == s.cfg && (s.gate.failed ==> t.gate.failed) && (t.gate.tx ==> s.gate.tx)
  }

  ghost predicate Frame(s: State, t: State) { t.chan.pushed == s.chan.pushed && Wears(s, t) }

  lemma RecordFrame(s: State, a: Action)
    requires Enabled(s, a) && Writes(a) && !Reopens(a)
    ensures Frame(s, Apply(s, a)) && Apply(s, a).gate.dropped == s.gate.dropped
  {
  }

  lemma ReopenFrame(s: State, a: Action)
    requires Enabled(s, a) && Reopens(a)
    ensures Frame(s, Apply(s, a)) && Apply(s, a).gate.dropped == s.gate.dropped
  {
  }

  lemma SendFrame(s: State, a: Action)
    requires Enabled(s, a) && Sends(a)
    ensures Frame(s, Apply(s, a)) && (!a.TryAcquire? ==> Apply(s, a).gate.dropped == s.gate.dropped)
  {
  }

  lemma ReturnFrame(s: State, a: Action)
    requires Enabled(s, a) && (Returns(a) || a.Start? || a.Cancel?)
    ensures Frame(s, Apply(s, a)) && Apply(s, a).gate.dropped == s.gate.dropped
  {
  }

  lemma CloseFrame(s: State, a: Action)
    requires Enabled(s, a) && Closes(a)
    ensures Frame(s, Apply(s, a)) && Apply(s, a).gate.dropped == s.gate.dropped
  {
  }

  lemma JoinFrame(s: State, a: Action)
    requires Enabled(s, a) && (a.LockJoin? || a.Join? || a.Conclude?)
    ensures Frame(s, Apply(s, a)) && Apply(s, a).gate.dropped == s.gate.dropped
  {
  }

  lemma StepFrame(s: State, a: Action)
    requires Enabled(s, a) && !Queueing(a)
    ensures Frame(s, Apply(s, a)) && (!a.TryAcquire? ==> Apply(s, a).gate.dropped == s.gate.dropped)
  {
    if Reopens(a) {
      ReopenFrame(s, a);
    } else if Writes(a) {
      RecordFrame(s, a);
    } else if Sends(a) {
      SendFrame(s, a);
    } else if Closes(a) {
      CloseFrame(s, a);
    } else if Returns(a) || a.Start? || a.Cancel? {
      ReturnFrame(s, a);
    } else {
      JoinFrame(s, a);
    }
  }

  /** Only a send adds to the queue's history, and it adds its own call's record. */
  lemma OthersPush(s: State, a: Action, c: nat)
    requires Enabled(s, a) && !ActsOn(a, c)
    ensures InPushed(Apply(s, a), c) == InPushed(s, c) && Apply(s, a).cfg == s.cfg
  {
    if !Queueing(a) {
      StepFrame(s, a);
    } else {
      var t := Apply(s, a);
      if t.chan.pushed != s.chan.pushed {
        assert t.chan.pushed == s.chan.pushed + [Entry(a.c, s.calls[a.c].text)];
        assert forall i :: 0 <= i < |s.chan.pushed| ==> t.chan.pushed[i] == s.chan.pushed[i];
      }
    }
  }

  /** Call `c` never waits and has not been decided yet. */
  ghost predicate Undecided(s: State, c: nat) {
    && Is(s, c) && NonBlocking(s, s.calls[c].kind) && (s.calls[c].phase.Trying? || s.calls[c].phase.Holding?)
    && !InPushed(s, c)
  }

  /** A call that has returned takes no further step. */
  lemma ReturnedRests(s: State, a: Action, c: nat)
    requires Enabled(s, a) && Is(s, c) && s.calls[c].phase.Returned?
    ensures !ActsOn(a, c)
  {
  }

  lemma {:induction false} ReturnedStays(s: State, acts: seq<Action>, c: nat)
    requires Run(s, acts).Some? && Is(s, c) && s.calls[c].phase.Returned?
    ensures Is(Run(s, acts).value, c) && Run(s, acts).value.calls[c] == s.calls[c]
    ensures InPushed(Run(s, acts).value, c) == InPushed(s, c) && !RefusedIn(s, acts, c)
    decreases |acts|
  {
    if acts != [] {
      ReturnedRests(s, acts[0], c);
      OtherCall(s, acts[0], c);
      OthersPush(s, acts[0], c);
      ReturnedStays(Apply(s, acts[0]), acts[1..], c);
    }
  }

  lemma UndecidedActs(s: State, a: Action, c: nat)
    requires Undecided(s, c) && Enabled(s, a) && ActsOn(a, c)
    ensures a == TryAcquire(c) || a == TrySend(c)
    ensures Refuses(s, a) ==> Finished(Apply(s, a), c) && !InPushed(Apply(s, a), c)
    ensures !Refuses(s, a) && a.TryAcquire? ==> Undecided(Apply(s, a), c)
    ensures !Refuses(s, a) && a.TrySend? ==> Finished(Apply(s, a), c) && InPushed(Apply(s, a), c)
  {
    var t := Apply(s, a);
    if a.TrySend? && CanSend(s) { assert t.chan.pushed[|s.chan.pushed|].id == c; }
  }

  ghost predicate Finished(s: State, c: nat) { Is(s, c) && s.calls[c].phase.Returned? }

  lemma {:induction false} DecidedBy(s: State, acts: seq<Action>, c: nat)
    requires Undecided(s, c) && Run(s, acts).Some?
    ensures Is(Run(s, acts).value, c)
    ensures Finished(Run(s, acts).value, c) ==> (InPushed(Run(s, acts).value, c) <==> !RefusedIn(s, acts, c))
    decreases |acts|
  {
    if acts != [] {
      var a, s1 := acts[0], Apply(s, acts[0]);
      if ActsOn(a, c) {
        UndecidedActs(s, a, c);
        if Finished(s1, c) { ReturnedStays(s1, acts[1..], c); } else { DecidedBy(s1, acts[1..], c); }
      } else {
        OtherCall(s, a, c);
        OthersPush(s, a, c);
        DecidedBy(s1, acts[1..], c);
      }
    }
  }

  /**
   Whatever else runs, in either mode: a logging call that never waits has its record
   queued by the time it returns exactly if neither of its two steps was refused,
   for want of bytes, of a slot, of the sender or of the writer.
   */
  lemma QueuedUnlessRefused(s: State, failClosed: bool, everyEvent: bool, hasDir: bool, before: seq<Action>, a: Action,
                            acts: seq<Action>)
    requires Run(Initial(failClosed, everyEvent, hasDir), before) == Some(s)
    requires a.Start? && Logging(a.kind) && NonBlocking(s, a.kind) && Run(Apply(s, a), acts).Some?
    ensures var t := Run(Apply(s, a), acts).value;
            Finished(t, |s.calls|) ==> (InPushed(t, |s.calls|) <==> !RefusedIn(Apply(s, a), acts, |s.calls|))
  {
    var c := |s.calls|;
    RunInv(s, failClosed, everyEvent, hasDir, before);
    forall i | 0 <= i < |s.chan.pushed| ensures s.chan.pushed[i].id != c { assert Owned(s, s.chan.pushed[i]); }
    DecidedBy(Apply(s, a), acts, c);
  }

  // ---- The counter of dropped records -------------------------------------------------------

  /** A refusal for want of room, not of a sender or a writer. */
  ghost predicate Overflows(s: State, a: Action) { Refuses(s, a) && (a.TrySend? ==> s.gate.tx && s.writer.Running?) }

  ghost function Overflown(s: State, acts: seq<Action>): nat
    decreases |acts|
  {
    if acts == [] || !Enabled(s, acts[0]) then 0
    else (if Overflows(s, acts[0]) then 1 else 0) + Overflown(Apply(s, acts[0]), acts[1..])
  }

  lemma StepDrops(s: State, a: Action)
    requires Enabled(s, a)
    ensures Apply(s, a).gate.dropped == s.gate.dropped + if Overflows(s, a) then 1 else 0
  {
    if !Queueing(a) { StepFrame(s, a); }
  }

  /** The counter is the number of records turned away for want of room. */
  lemma {:induction false} DroppedIsOverflow(s: State, acts: seq<Action>)
    requires Run(s, acts).Some?
    ensures Run(s, acts).value.gate.dropped == s.gate.dropped + Overflown(s, acts)
    decreases |acts|
  {
    if acts != [] {
      StepDrops(s, acts[0]);
      DroppedIsOverflow(Apply(s, acts[0]), acts[1..]);
    }
  }

  // ---- When a logging call may return an error ------------------------------------------------

  ghost predicate Justified(s: State, c: nat)
    requires Is(s, c)
  {
    var k := s.calls[c];
    && (k.phase == Returned(false) && Logging(k.kind) ==> s.cfg.failClosed && (s.gate.failed || !s.gate.tx))
    && (k.phase == Checked(true) ==> s.cfg.failClosed && !s.gate.tx)
  }

  ghost predicate AllJustified(s: State) { forall c :: 0 <= c < |s.calls| ==> Justified(s, c) }

  lemma QueueingWears(s: State, a: Action)
    requires Enabled(s, a) && Queueing(a)
    ensures Wears(s, Apply(s, a))
  {
  }

  lemma SendJustified(s: State, a: Action)
    requires Enabled(s, a) && Sends(a) && KindOk(s.calls[a.c])
    requires Logging(s.calls[a.c].kind) ==> Accounted(s, a.c)
    ensures Is(Apply(s, a), a.c) && Justified(Apply(s, a), a.c)
  {
  }

  lemma QueueingJustified(s: State, a: Action)
    requires Enabled(s, a) && Queueing(a)
    ensures Is(Apply(s, a), a.c) && Justified(Apply(s, a), a.c)
  {
  }

  lemma ReturnJustified(s: State, a: Action)
    requires Enabled(s, a) && Returns(a) && KindOk(s.calls[a.c]) && Justified(s, a.c)
    requires Logging(s.calls[a.c].kind) ==> Accounted(s, a.c)
    ensures Is(Apply(s, a), a.c) && Justified(Apply(s, a), a.c)
  {
  }

  lemma CloseJustified(s: State, a: Action)
    requires Enabled(s, a) && Closes(a) && KindOk(s.calls[a.c])
    ensures Is(Apply(s, a), a.c) && Justified(Apply(s, a), a.c)
  {
  }

  lemma JoinJustified(s: State, a: Action)
    requires Enabled(s, a) && (a.LockJoin? || a.Join? || a.Conclude? || a.Cancel?) && KindOk(s.calls[a.c])
    ensures Is(Apply(s, a), a.c) && Justified(Apply(s, a), a.c)
  {
  }

  lemma MoverJustified(s: State, a: Action)
    requires Kinds(s) && Flags(s) && AllJustified(s) && Enabled(s, a) && !Writes(a) && !a.Start?
    ensures Is(Apply(s, a), a.c) && Justified(Apply(s, a), a.c)
  {
    assert KindOk(s.calls[a.c]) && Justified(s, a.c);
    assert Logging(s.calls[a.c].kind) ==> Accounted(s, a.c);
    if Sends(a) {
      SendJustified(s, a);
    } else if Queueing(a) {
      QueueingJustified(s, a);
    } else if Returns(a) {
      ReturnJustified(s, a);
    } else if Closes(a) {
      CloseJustified(s, a);
    } else {
      JoinJustified(s, a);
    }
  }

  lemma JustifiedStays(s: State, t: State, c: nat)
    requires Is(s, c) && Is(t, c) && t.calls[c] == s.calls[c] && Wears(s, t) && Justified(s, c)
    ensures Justified(t, c)
  {
  }

  lemma StepJustified(s: State, a: Action)
    requires Kinds(s) && Flags(s) && Enabled(s, a) && AllJustified(s)
    ensures AllJustified(Apply(s, a))
  {
    var t := Apply(s, a);
    if Queueing(a) { QueueingWears(s, a); } else { StepFrame(s, a); }
    forall c | 0 <= c < |t.calls| ensures Justified(t, c) {
      if c < |s.calls| && !ActsOn(a, c) {
        OtherCall(s, a, c);
        JustifiedStays(s, t, c);
      } else if a.Start? || Writes(a) {
        NewCall(s, a, c);
      } else {
        Mover(s, a);
        MoverJustified(s, a);
      }
    }
  }

  lemma NewCall(s: State, a: Action, c: nat)
    requires Enabled(s, a) && (a.Start? || Writes(a)) && |s.calls| <= c < |Apply(s, a).calls|
    ensures a.Start? && c == |s.calls| && Apply(s, a).calls[c].phase == FirstPhase(s, a.kind)
  {
    if Writes(a) { WriterSameCalls(s, a); }
  }

  lemma Mover(s: State, a: Action)
    requires Enabled(s, a) && !Writes(a) && !a.Start?
    ensures Moves(s, Apply(s, a), a.c)
  {
    if Closes(a) { ChannelMoves(s, a); } else { CallerMoves(s, a); }
  }

  lemma {:induction false} RunJustified(s: State, acts: seq<Action>)
    requires Inv(s) && AllJustified(s) && Run(s, acts).Some?
    ensures AllJustified(Run(s, acts).value)
    decreases |acts|
  {
    if acts != [] {
      StepKeeps(s, acts[0]);
      StepJustified(s, acts[0]);
      RunJustified(Apply(s, acts[0]), acts[1..]);
    }
  }

  /** A logging call returns an error only from a fail-closed logger whose flag is up or whose sender is gone. */
  lemma ErrorIsJustified(s: State, failClosed: bool, everyEvent: bool, hasDir: bool, acts: seq<Action>, c: nat)
    requires Run(Initial(failClosed, everyEvent, hasDir), acts) == Some(s)
    requires Is(s, c) && Logging(s.calls[c].kind) && s.calls[c].phase == Returned(false)
    ensures failClosed && (s.gate.failed || !s.gate.tx)
  {
    InitialInv(failClosed, everyEvent, hasDir);
    RunInv(s, failClosed, everyEvent, hasDir, acts);
    RunJustified(Initial(failClosed, everyEvent, hasDir), acts);
    assert Justified(s, c);
  }

  // ---- Storage that never fails -----------------------------------------------------------------

  predicate SoundSwap(w: Swap) { w.flush.Wrote? && w.sync && w.dir && w.open.Fresh? && w.newDir }

  lemma SoundWrites(k: Sink, tag: Tag, text: bytes)
    ensures WriteAll(k, tag, text, Wrote, Wrote).1 && WriteAll(k, tag, text, Wrote, Wrote).0.lost == k.lost
  {
  }

  lemma SoundFlush(k: Sink)
    ensures FlushBuf(k, Wrote).1 && FlushBuf(k, Wrote).0.lost == k.lost
  {
  }

  lemma SoundSettles(k: Sink)
    ensures Settle(k, true, SOUND).1 && Settle(k, true, SOUND).0.lost == k.lost
  {
  }

  lemma SoundRecordArm(k: Sink, id: nat, text: bytes, mustSync: bool)
    ensures var r := RecordArm(k, id, text, mustSync, SOUND); !r.fault && r.ok == mustSync && r.sink.lost == k.lost
  {
    SoundWrites(k, Record(id), text);
    var k1 := WriteAll(k, Record(id), text, Wrote, Wrote).0;
    SoundFlush(k1);
    SoundSettles(FlushBuf(k1, Wrote).0.(events := 0));
  }

  lemma SoundRetire(k: Sink, w: Swap)
    requires SoundSwap(w)
    ensures ReopenSink(k, w).1 && ReopenSink(k, w).0.lost == k.lost
  {
    SoundFlush(k);
  }

  lemma SoundMarker(k: Sink)
    ensures SettleMarker(k, true, SOUND).1 && SettleMarker(k, true, SOUND).0.lost == k.lost
  {
    SoundFlush(k.(events := 0));
    SoundSettles(FlushBuf(k.(events := 0), Wrote).0);
  }

  lemma SoundReopenArm(k: Sink, request: nat, text: bytes, w: Swap)
    requires SoundSwap(w)
    ensures var r := ReopenArm(k, request, text, w, SOUND); !r.fault && r.ok && r.sink.lost == k.lost
  {
    SoundRetire(k, w);
    var k1 := ReopenSink(k, w).0;
    SoundWrites(k1, Marker(request, true), text);
    SoundMarker(WriteAll(k1, Marker(request, true), text, Wrote, Wrote).0);
  }

  lemma SoundTicks(k: Sink)
    ensures !FlushTick(k, Wrote).fault && FlushTick(k, Wrote).sink.lost == k.lost
    ensures !FsyncTick(k, true, true).fault && FsyncTick(k, true, true).sink.lost == k.lost
  {
    SoundFlush(k);
  }

  // ---- A run in which nothing goes wrong ------------------------------------------------------------

  /** Storage does what it is asked, the writer lives, there is room, and no shutdown has begun. */
  ghost predicate Smooth(s: State, a: Action) {
    && !Refuses(s, a) && !a.CloseTx? && !a.Die?
    && (a.Write? ==> a.o == SOUND) && (a.ServeReopen? ==> a.o == SOUND && SoundSwap(a.swap))
    && (a.TickFlush? ==> a.w.Wrote?) && (a.TickFsync? ==> a.sync && a.dir)
  }

  ghost predicate AllSmooth(s: State, acts: seq<Action>)
    decreases |acts|
  {
    acts == [] || (Enabled(s, acts[0]) && Smooth(s, acts[0]) && AllSmooth(Apply(s, acts[0]), acts[1..]))
  }

  ghost predicate Sound(s: State) {
    s.gate.tx && s.writer.Running? && !s.gate.failed && s.gate.dropped == 0 && s.sink.lost == {}
  }

  /** The acknowledgement call `c` waits for is still to come. */
  ghost predicate AckDue(ch: Channel, c: nat) {
    || (ch.hand.Some? && ch.hand.value.entry.id == c && ch.hand.value.ack)
    || exists i :: 0 <= i < |ch.queue| && ch.queue[i].entry.id == c && ch.queue[i].ack
  }

  ghost predicate ReplyDue(r: Rotation, c: nat) { c in r.replies || c in r.requests || r.serving == Some(c) }

  ghost predicate PhaseGood(p: Phase, logging: bool, c: nat, ch: Channel, r: Rotation) {
    match p
    case AwaitingAck => c in ch.acked || AckDue(ch, c)
    case AwaitingReply => ReplyDue(r, c)
    case Checked(closed) => !closed
    case Returned(ok) => logging ==> ok && HasId(ch.pushed, c)
    case _ => true
  }

  ghost predicate CallGood(s: State, c: nat)
    requires Is(s, c)
  {
    PhaseGood(s.calls[c].phase, Logging(s.calls[c].kind), c, s.chan, s.rot)
  }

  ghost predicate Good(s: State) { Sound(s) && forall c :: 0 <= c < |s.calls| ==> CallGood(s, c) }

  /** Where a caller's step leaves queue and requests alone, only that call has anything to show. */
  lemma MoverGood(s: State, t: State, c: nat)
    requires Good(s) && Moves(s, t, c) && t.chan == s.chan && t.rot == s.rot && Sound(t) && CallGood(t, c)
    ensures Good(t)
  {
    forall d | 0 <= d < |t.calls| ensures CallGood(t, d) { assert CallGood(s, d); }
  }

  /** What a caller's step must show (`MoverGood`). */
  ghost predicate Soundly(s: State, t: State, c: nat) {
    t.chan == s.chan && t.rot == s.rot && Sound(t) && Is(t, c) && CallGood(t, c)
  }

  lemma SendSound(s: State, a: Action)
    requires Sound(s) && Enabled(s, a) && Smooth(s, a) && Sends(a)
    ensures Soundly(s, Apply(s, a), a.c)
  {
  }

  lemma AckIsThere(s: State, c: nat)
    requires Good(s) && Enabled(s, AckWait(c))
    ensures c in s.chan.acked
  {
    assert CallGood(s, c);
  }

  lemma ReturnSound(s: State, a: Action)
    requires Sound(s) && Enabled(s, a) && Returns(a) && CallGood(s, a.c) && Accounted(s, a.c)
    requires a.AckWait? ==> a.c in s.chan.acked
    ensures Soundly(s, Apply(s, a), a.c)
  {
  }

  lemma JoinSound(s: State, a: Action)
    requires Sound(s) && Enabled(s, a) && (a.LockJoin? || a.Join? || a.Conclude?) && KindOk(s.calls[a.c])
    ensures Soundly(s, Apply(s, a), a.c)
  {
  }

  lemma CancelSound(s: State, a: Action)
    requires Sound(s) && Enabled(s, a) && a.Cancel?
    ensures Soundly(s, Apply(s, a), a.c)
  {
  }

  lemma ChannelSound(s: State, a: Action)
    requires Sound(s) && Enabled(s, a) && (a.RequestReopen? || a.ReplyWait? || a.CloseReopen?)
    requires KindOk(s.calls[a.c]) && CallGood(s, a.c)
    ensures Soundly(s, Apply(s, a), a.c)
  {
  }

  lemma QuietSound(s: State, a: Action)
    requires Kinds(s) && Flags(s) && Good(s) && Enabled(s, a) && Smooth(s, a)
    requires !Writes(a) && !a.Start? && !Queueing(a) && !a.PostReopen?
    ensures Soundly(s, Apply(s, a), a.c)
  {
    assert KindOk(s.calls[a.c]) && CallGood(s, a.c);
    if Sends(a) {
      SendSound(s, a);
    } else if Returns(a) {
      assert Accounted(s, a.c);
      if a.AckWait? { AckIsThere(s, a.c); }
      ReturnSound(s, a);
    } else if Closes(a) {
      ChannelSound(s, a);
    } else if a.Cancel? {
      CancelSound(s, a);
    } else {
      JoinSound(s, a);
    }
  }

  lemma QuietGood(s: State, a: Action)
    requires Kinds(s) && Flags(s) && Good(s) && Enabled(s, a) && Smooth(s, a)
    requires !Writes(a) && !a.Start? && !Queueing(a) && !a.PostReopen?
    ensures Good(Apply(s, a))
  {
    Mover(s, a);
    QuietSound(s, a);
    MoverGood(s, Apply(s, a), a.c);
  }

  lemma PostGood(s: State, c: nat)
    requires Good(s) && Enabled(s, PostReopen(c))
    ensures Good(Apply(s, PostReopen(c)))
  {
    var t := Apply(s, PostReopen(c));
    assert t.rot.requests[|s.rot.requests|] == c;
    forall d | 0 <= d < |t.calls| ensures CallGood(t, d) {
      assert CallGood(s, d);
      assert d in s.rot.requests ==> d in t.rot.requests;
    }
  }

  // A queue that has grown.

  lemma HasIdStays(a: seq<Entry>, b: seq<Entry>, c: nat)
    requires a <= b && HasId(a, c)
    ensures HasId(b, c)
  {
    var i :| 0 <= i < |a| && a[i].id == c;
    assert b[i] == a[i];
  }

  lemma DueStays(a: Channel, b: Channel, c: nat)
    requires AckDue(a, c) && b.hand == a.hand && a.queue <= b.queue
    ensures AckDue(b, c)
  {
    if !(a.hand.Some? && a.hand.value.entry.id == c && a.hand.value.ack) {
      var i :| 0 <= i < |a.queue| && a.queue[i].entry.id == c && a.queue[i].ack;
      assert b.queue[i] == a.queue[i];
    }
  }

  lemma PhaseStays(p: Phase, logging: bool, c: nat, a: Channel, b: Channel, r: Rotation)
    requires PhaseGood(p, logging, c, a, r) && b.hand == a.hand && a.queue <= b.queue && a.pushed <= b.pushed
    requires b.acked == a.acked
    ensures PhaseGood(p, logging, c, b, r)
  {
    if p.AwaitingAck? && c !in a.acked { DueStays(a, b, c); }
    if p.Returned? && logging { HasIdStays(a.pushed, b.pushed, c); }
  }

  /** Call `c`'s record has joined the queue. */
  ghost predicate Joined(s: State, t: State, c: nat)
    requires Is(s, c)
  {
    && t.rot == s.rot && t.chan.hand == s.chan.hand && t.chan.acked == s.chan.acked
    && t.chan.queue == s.chan.queue + [ItemOf(s, c)]
    && t.chan.pushed == s.chan.pushed + [Entry(c, s.calls[c].text)]
  }

  lemma PusherGood(s: State, a: Action)
    requires Sound(s) && Enabled(s, a) && Smooth(s, a) && Queueing(a) && KindOk(s.calls[a.c]) && Accounted(s, a.c)
    ensures Joined(s, Apply(s, a), a.c) && Sound(Apply(s, a)) && CallGood(Apply(s, a), a.c)
  {
    var t := Apply(s, a);
    assert t.chan.queue[|s.chan.queue|] == ItemOf(s, a.c);
    assert t.chan.pushed[|s.chan.pushed|].id == a.c;
  }

  lemma JoinedGood(s: State, t: State, c: nat, d: nat)
    requires Is(s, c) && Is(s, d) && Is(t, d) && Joined(s, t, c) && t.calls[d] == s.calls[d] && CallGood(s, d)
    ensures CallGood(t, d)
  {
    PhaseStays(s.calls[d].phase, Logging(s.calls[d].kind), d, s.chan, t.chan, s.rot);
  }

  lemma QueueingGood(s: State, a: Action)
    requires Kinds(s) && Flags(s) && Good(s) && Enabled(s, a) && Smooth(s, a) && Queueing(a)
    ensures Good(Apply(s, a))
  {
    var t := Apply(s, a);
    assert KindOk(s.calls[a.c]);
    assert Accounted(s, a.c);
    PusherGood(s, a);
    Mover(s, a);
    forall d | 0 <= d < |t.calls| ensures CallGood(t, d) {
      if d != a.c {
        assert CallGood(s, d);
        JoinedGood(s, t, a.c, d);
      }
    }
  }

  lemma StartGood(s: State, a: Action)
    requires Good(s) && a.Start?
    ensures Good(Apply(s, a))
  {
    var t := Apply(s, a);
    forall d | 0 <= d < |t.calls| ensures CallGood(t, d) { if d < |s.calls| { assert CallGood(s, d); } }
  }

  // The writer's own steps.

  lemma DequeueDue(s: State, c: nat)
    requires Enabled(s, Dequeue) && AckDue(s.chan, c)
    ensures AckDue(DoDequeue(s).chan, c)
  {
    var t := DoDequeue(s);
    var i :| 0 <= i < |s.chan.queue| && s.chan.queue[i].entry.id == c && s.chan.queue[i].ack;
    if i > 0 { assert t.chan.queue[i - 1] == s.chan.queue[i]; }
  }

  lemma DequeueGood(s: State)
    requires Good(s) && Enabled(s, Dequeue)
    ensures Good(Apply(s, Dequeue))
  {
    var t := Apply(s, Dequeue);
    forall d | 0 <= d < |t.calls| ensures CallGood(t, d) {
      assert CallGood(s, d);
      if s.calls[d].phase.AwaitingAck? && d !in s.chan.acked { DequeueDue(s, d); }
    }
  }

  /** A record written without a fault is acknowledged if its caller asked for that. */
  lemma WriteServes(s: State)
    requires s.chan.hand.Some?
    ensures var t := DoWrite(s, SOUND);
            && t.gate == s.gate.(permits := s.gate.permits + s.chan.hand.value.need) && t.sink.lost == s.sink.lost
            && t.calls == s.calls && t.rot == s.rot && t.writer == s.writer && t.cfg == s.cfg
            && t.chan.pushed == s.chan.pushed && t.chan.queue == s.chan.queue && t.chan.hand.None?
            && t.chan.done == s.chan.done + 1
            && forall c :: c in s.chan.acked || AckDue(s.chan, c) ==> c in t.chan.acked || AckDue(t.chan, c)
  {
    var i := s.chan.hand.value;
    SoundRecordArm(s.sink, i.entry.id, i.entry.text, MustSync(s, i));
    var t := DoWrite(s, SOUND);
    forall c | c in s.chan.acked || AckDue(s.chan, c) ensures c in t.chan.acked || AckDue(t.chan, c) {
      if c !in t.chan.acked { AckStillDue(s.chan, t.chan, c); }
    }
  }

  lemma AckStillDue(a: Channel, b: Channel, c: nat)
    requires AckDue(a, c) && b.queue == a.queue && !(a.hand.Some? && a.hand.value.entry.id == c && a.hand.value.ack)
    ensures AckDue(b, c)
  {
  }

  lemma WriteGood(s: State)
    requires Good(s) && Enabled(s, Write(SOUND))
    ensures Good(Apply(s, Write(SOUND)))
  {
    var t := Apply(s, Write(SOUND));
    WriteServes(s);
    forall d | 0 <= d < |t.calls| ensures CallGood(t, d) { assert CallGood(s, d); }
  }

  lemma TicksGood(s: State, a: Action)
    requires Good(s) && Enabled(s, a) && Smooth(s, a) && (a.TickFlush? || a.TickFsync? || a.PollEmpty? || a.Park?)
    ensures Good(Apply(s, a))
  {
    var t := Apply(s, a);
    SoundTicks(s.sink);
    forall d | 0 <= d < |t.calls| ensures CallGood(t, d) { assert CallGood(s, d); }
  }

  lemma TakeGood(s: State)
    requires Good(s) && Enabled(s, TakeReopen)
    ensures Good(Apply(s, TakeReopen))
  {
    var t := Apply(s, TakeReopen);
    assert s.rot.requests == [s.rot.requests[0]] + t.rot.requests;
    forall d | 0 <= d < |t.calls| ensures CallGood(t, d) { assert CallGood(s, d); }
  }

  lemma ServeServes(s: State, w: Swap)
    requires SoundSwap(w) && s.rot.serving.Some? && Is(s, s.rot.serving.value)
    ensures var t := DoServeReopen(s, w, SOUND);
            && t.gate == s.gate && t.chan == s.chan && t.calls == s.calls && t.writer == s.writer && t.cfg == s.cfg
            && t.sink.lost == s.sink.lost && t.rot.serving.None? && t.rot.requests == s.rot.requests
            && t.rot.replies == s.rot.replies[s.rot.serving.value := true]
  {
    SoundReopenArm(s.sink, s.rot.serving.value, s.calls[s.rot.serving.value].text, w);
  }

  lemma ServeGood(s: State, w: Swap)
    requires Good(s) && Enabled(s, ServeReopen(w, SOUND)) && SoundSwap(w)
    ensures Good(Apply(s, ServeReopen(w, SOUND)))
  {
    var t := Apply(s, ServeReopen(w, SOUND));
    ServeServes(s, w);
    forall d | 0 <= d < |t.calls| ensures CallGood(t, d) { assert CallGood(s, d); }
  }

  lemma NeverCloses(s: State, a: Action)
    requires Sound(s) && Enabled(s, a)
    ensures !a.Close?
  {
  }

  lemma WriterGood(s: State, a: Action)
    requires Good(s) && Enabled(s, a) && Smooth(s, a) && Writes(a)
    ensures Good(Apply(s, a))
  {
    NeverCloses(s, a);
    if a.Dequeue? {
      DequeueGood(s);
    } else if a.Write? {
      WriteGood(s);
    } else if a.TakeReopen? {
      TakeGood(s);
    } else if a.ServeReopen? {
      ServeGood(s, a.swap);
    } else {
      TicksGood(s, a);
    }
  }

  lemma StepGood(s: State, a: Action)
    requires Kinds(s) && Flags(s) && Good(s) && Enabled(s, a) && Smooth(s, a)
    ensures Good(Apply(s, a))
  {
    if Writes(a) {
      WriterGood(s, a);
    } else if a.Start? {
      StartGood(s, a);
    } else if Queueing(a) {
      QueueingGood(s, a);
    } else if a.PostReopen? {
      PostGood(s, a.c);
    } else {
      QuietGood(s, a);
    }
  }

  lemma {:induction false} RunGood(s: State, acts: seq<Action>)
    requires Inv(s) && Good(s) && AllSmooth(s, acts)
    ensures Run(s, acts).Some? && Good(Run(s, acts).value) && Inv(Run(s, acts).value)
    decreases |acts|
  {
    if acts != [] {
      StepKeeps(s, acts[0]);
      StepGood(s, acts[0]);
      RunGood(Apply(s, acts[0]), acts[1..]);
    }
  }

  lemma ReturnedIsQueued(t: State, c: nat)
    requires AllOwned(t) && Is(t, c) && CallGood(t, c) && Logging(t.calls[c].kind) && t.calls[c].phase.Returned?
    ensures t.calls[c].phase.ok && Entry(c, t.calls[c].text) in t.chan.pushed
  {
    var i :| 0 <= i < |t.chan.pushed| && t.chan.pushed[i].id == c;
    assert Owned(t, t.chan.pushed[i]);
  }

  lemma GoodLog(t: State)
    requires Storage(t) && AllOwned(t) && Good(t)
    ensures t.chan.done <= |t.chan.pushed| && Recorded(t.sink) == t.chan.pushed[..t.chan.done]
    ensures forall c :: 0 <= c < |t.calls| && Logging(t.calls[c].kind) && t.calls[c].phase.Returned? ==>
              t.calls[c].phase.ok && Entry(c, t.calls[c].text) in t.chan.pushed
  {
    forall c | 0 <= c < |t.calls| && Logging(t.calls[c].kind) && t.calls[c].phase.Returned?
      ensures t.calls[c].phase.ok && Entry(c, t.calls[c].text) in t.chan.pushed
    {
      assert CallGood(t, c);
      ReturnedIsQueued(t, c);
    }
  }

  /**
   In every run without a storage fault, a lack of room, a dead writer or a shutdown,
   the flag stays down and nothing is dropped; every logging call that returns returns
   Ok with its line queued; and the log is the queue's history up to where the writer is.
   */
  lemma SmoothRun(t: State, failClosed: bool, everyEvent: bool, hasDir: bool, acts: seq<Action>)
    requires Run(Initial(failClosed, everyEvent, hasDir), acts) == Some(t)
    requires AllSmooth(Initial(failClosed, everyEvent, hasDir), acts)
    ensures t.gate.tx && t.writer.Running? && !t.gate.failed && t.gate.dropped == 0
    ensures t.chan.done <= |t.chan.pushed| && Recorded(t.sink) == t.chan.pushed[..t.chan.done]
    ensures forall c :: 0 <= c < |t.calls| && Logging(t.calls[c].kind) && t.calls[c].phase.Returned? ==>
              t.calls[c].phase.ok && Entry(c, t.calls[c].text) in t.chan.pushed
  {
    InitialInv(failClosed, everyEvent, hasDir);
    RunGood(Initial(failClosed, everyEvent, hasDir), acts);
    GoodLog(t);
  }

  // ---- A queued record reaches the log ----------------------------------------------------------------

  /** What the writer has left to do. */
  function Backlog(s: State): nat {
    2 * |s.chan.queue| + (if s.chan.hand.Some? then 1 else 0) + (if s.rot.serving.Some? then 1 else 0)
  }

  /** `t` is `s` after more of the writer's work, without a fault. */
  ghost predicate Served(s: State, t: State) {
    && t.calls == s.calls && t.cfg == s.cfg && t.writer.Running? && t.chan.pushed == s.chan.pushed
    && t.sink.lost == s.sink.lost && t.gate.tx == s.gate.tx && t.gate.failed == s.gate.failed
    && t.gate.dropped == s.gate.dropped
    && forall c :: c in s.chan.acked || AckDue(s.chan, c) ==> c in t.chan.acked || AckDue(t.chan, c)
  }

  lemma ServeWorks(s: State)
    requires s.rot.serving.Some? && Is(s, s.rot.serving.value) && s.writer.Running?
    ensures var t := DoServeReopen(s, SWAP, SOUND); Served(s, t) && Backlog(t) < Backlog(s)
  {
    ServeServes(s, SWAP);
  }

  lemma WriteWorks(s: State)
    requires s.chan.hand.Some? && s.writer.Running?
    ensures var t := DoWrite(s, SOUND); Served(s, t) && Backlog(t) < Backlog(s)
  {
    WriteServes(s);
  }

  lemma DequeueWorks(s: State)
    requires Enabled(s, Dequeue)
    ensures var t := DoDequeue(s); Served(s, t) && Backlog(t) < Backlog(s)
  {
    forall c | AckDue(s.chan, c) ensures AckDue(DoDequeue(s).chan, c) { DequeueDue(s, c); }
  }

  lemma WorkStep(s: State) returns (a: Action)
    requires Replies(s) && s.writer.Running? && Backlog(s) > 0
    ensures Enabled(s, a) && Served(s, Apply(s, a)) && Backlog(Apply(s, a)) < Backlog(s)
  {
    if s.rot.serving.Some? {
      a := ServeReopen(SWAP, SOUND);
      ServeWorks(s);
    } else if s.chan.hand.Some? {
      a := Write(SOUND);
      WriteWorks(s);
    } else {
      a := Dequeue;
      DequeueWorks(s);
    }
  }

  lemma RunAppend(s: State, acts: seq<Action>, t: State, more: seq<Action>, u: State)
    requires Run(s, acts) == Some(t) && Run(t, more) == Some(u)
    ensures Run(s, acts + more) == Some(u)
    decreases |acts|
  {
    if acts == [] {
      assert acts + more == more;
    } else {
      assert (acts + more)[1..] == acts[1..] + more;
      RunAppend(Apply(s, acts[0]), acts[1..], t, more, u);
    }
  }

  lemma {:induction false} Drain(s: State) returns (acts: seq<Action>, t: State)
    requires Inv(s) && s.writer.Running?
    ensures Run(s, acts) == Some(t) && Inv(t) && Served(s, t) && Backlog(t) == 0
    decreases Backlog(s)
  {
    if Backlog(s) == 0 {
      acts, t := [], s;
    } else {
      var a := WorkStep(s);
      StepKeeps(s, a);
      var rest, u := Drain(Apply(s, a));
      acts, t := [a] + rest, u;
      assert acts[1..] == rest;
    }
  }

  /** Only what the writer has finished with can be lost. */
  lemma UnfinishedNotLost(s: State, i: nat)
    requires Storage(s) && DistinctIds(s.chan.pushed) && s.chan.done <= i < |s.chan.pushed|
    ensures Record(s.chan.pushed[i].id) !in s.sink.lost
  {
    var taken, id := s.chan.pushed[..s.chan.done], s.chan.pushed[i].id;
    assert forall j :: 0 <= j < |taken| ==> taken[j] == s.chan.pushed[j] && taken[j].id != id;
    assert !HasId(taken, id);
  }

  /** Without a fault, an unfinished record is in the log when the queue is empty. */
  lemma DrainedRecords(s: State, t: State, i: nat)
    requires Storage(s) && Order(s) && Storage(t) && Fifo(t) && Served(s, t) && Backlog(t) == 0
    requires s.chan.done <= i < |s.chan.pushed|
    ensures t.chan.done == |t.chan.pushed| && s.chan.pushed[i] in Recorded(t.sink)
  {
    UnfinishedNotLost(s, i);
    assert t.chan.pushed[t.chan.done..] == [];
    assert t.chan.pushed[..t.chan.done] == t.chan.pushed;
    SurvivorsHold(t.chan.pushed, t.sink.lost, s.chan.pushed[i]);
  }

  /** From every state reached with the writer alive, its own steps bring each queued record to the log. */
  lemma QueuedIsRecorded(s: State, failClosed: bool, everyEvent: bool, hasDir: bool, before: seq<Action>, i: nat)
    returns (acts: seq<Action>, t: State)
    requires Run(Initial(failClosed, everyEvent, hasDir), before) == Some(s)
    requires s.writer.Running? && s.chan.done <= i < |s.chan.pushed|
    ensures Run(s, acts) == Some(t) && s.chan.pushed[i] in Recorded(t.sink)
    ensures t.gate.failed == s.gate.failed && t.gate.dropped == s.gate.dropped && t.calls == s.calls
  {
    RunInv(s, failClosed, everyEvent, hasDir, before);
    acts, t := ServedAll(s, i, 0);
  }

  lemma DoneInRange(s: State)
    requires Inv(s)
    ensures s.chan.done <= |s.chan.pushed|
  {
  }

  lemma ServedAll(u: State, i: nat, c: nat) returns (acts: seq<Action>, t: State)
    requires Inv(u) && u.writer.Running? && u.chan.done <= i < |u.chan.pushed|
    ensures Run(u, acts) == Some(t) && t.calls == u.calls && u.chan.pushed[i] in Recorded(t.sink)
    ensures AckDue(u.chan, c) ==> c in t.chan.acked
    ensures t.gate.tx == u.gate.tx && t.gate.failed == u.gate.failed && t.gate.dropped == u.gate.dropped
  {
    acts, t := Drain(u);
    DrainedRecords(u, t, i);
    assert !AckDue(t.chan, c);
  }

  /** A run carried on by the writer until it has served all that is queued. */
  lemma ServedFrom(s: State, first: seq<Action>, u: State, i: nat, c: nat) returns (acts: seq<Action>, t: State)
    requires Inv(s) && Run(s, first) == Some(u) && u.writer.Running? && u.chan.done <= i < |u.chan.pushed|
    ensures Run(s, acts) == Some(t) && t.calls == u.calls && u.chan.pushed[i] in Recorded(t.sink)
    ensures AckDue(u.chan, c) ==> c in t.chan.acked
    ensures t.gate.tx == u.gate.tx && t.gate.failed == u.gate.failed && t.gate.dropped == u.gate.dropped
  {
    RunKeeps(s, first);
    var rest;
    rest, t := ServedAll(u, i, c);
    RunAppend(s, first, u, rest, t);
    acts := first + rest;
  }

  /** `log` from its call to the line in the log, in either mode, from every reached state with room. */
  lemma LogIsRecorded(s: State, failClosed: bool, everyEvent: bool, hasDir: bool, before: seq<Action>, k: Kind,
                      size: nat, text: bytes, urgent: bool) returns (acts: seq<Action>, t: State)
    requires Run(Initial(failClosed, everyEvent, hasDir), before) == Some(s)
    requires Logging(k) && NonBlocking(s, k) && Need(size) <= s.gate.permits && CanSend(s)
    ensures Run(s, acts) == Some(t) && |t.calls| == |s.calls| + 1 && t.calls[|s.calls|].phase == Returned(true)
    ensures Entry(|s.calls|, text) in Recorded(t.sink)
    ensures t.gate.failed == s.gate.failed && t.gate.dropped == s.gate.dropped
  {
    RunInv(s, failClosed, everyEvent, hasDir, before);
    var start := [Start(k, size, text, urgent), TryAcquire(|s.calls|), TrySend(|s.calls|)];
    var u := LogIsAccepted(s, k, size, text, urgent);
    DoneInRange(s);
    acts, t := ServedFrom(s, start, u, |s.chan.pushed|, |s.calls|);
  }

  // ---- Calls that wait ------------------------------------------------------------------------------------

  /** A waiting call from its start until it has its bytes ... */
  lemma WaitsToAcquire(s: State, k: Kind, size: nat, text: bytes, urgent: bool) returns (acts: seq<Action>, t: State)
    requires s.cfg.failClosed && (k.LogOrdered? || k.LogCommitted?) && Need(size) <= s.gate.permits
    ensures Run(s, acts) == Some(t) && |t.calls| == |s.calls| + 1 && t.calls[|s.calls|].kind == k
    ensures t.calls[|s.calls|].phase == Acquiring(t.calls[|s.calls|].need) && t.calls[|s.calls|].text == text
    ensures t == s.(calls := t.calls, gate := s.gate.(permits := s.gate.permits - Need(size)))
  {
    acts, t := Then(s, [], s, Start(k, size, text, urgent));
    acts, t := Then(s, acts, t, Grant(|s.calls|, Need(size)));
  }

  /** ... then a sender ... */
  lemma WaitsToSend(s: State, k: Kind, size: nat, text: bytes, urgent: bool) returns (acts: seq<Action>, t: State)
    requires s.cfg.failClosed && (k.LogOrdered? || k.LogCommitted?) && Need(size) <= s.gate.permits && s.gate.tx
    ensures Run(s, acts) == Some(t) && |t.calls| == |s.calls| + 1 && t.calls[|s.calls|].kind == k
    ensures t.calls[|s.calls|].phase == Sending(false) && t.calls[|s.calls|].text == text
    ensures t == s.(calls := t.calls, gate := s.gate.(permits := s.gate.permits - Need(size)))
  {
    acts, t := WaitsToAcquire(s, k, size, text, urgent);
    acts, t := Then(s, acts, t, Acquired(|s.calls|));
    acts, t := Then(s, acts, t, FetchTx(|s.calls|));
  }

  /** ... and until its record is queued. */
  lemma WaitsToQueue(s: State, k: Kind, size: nat, text: bytes, urgent: bool) returns (acts: seq<Action>, t: State)
    requires s.cfg.failClosed && (k.LogOrdered? || k.LogCommitted?) && Need(size) <= s.gate.permits && CanSend(s)
    ensures Run(s, acts) == Some(t) && |t.calls| == |s.calls| + 1 && t.calls[|s.calls|].kind == k
    ensures t.calls[|s.calls|].phase == AfterPush(k) && t.chan.done == s.chan.done
    ensures t.chan.pushed == s.chan.pushed + [Entry(|s.calls|, text)]
    ensures k.LogCommitted? ==> AckDue(t.chan, |s.calls|)
    ensures t.gate.tx && t.gate.failed == s.gate.failed && t.gate.dropped == s.gate.dropped
    ensures t.cfg == s.cfg && t.writer.Running?
  {
    var c := |s.calls|;
    acts, t := WaitsToSend(s, k, size, text, urgent);
    acts, t := Then(s, acts, t, TakeSlot(c));
    acts, t := Then(s, acts, t, Push(c));
    assert t.chan.queue[|s.chan.queue|].entry.id == c;
  }

  /** ... and from the acknowledgement, if it waits for one, to its return. */
  lemma ReturnsOk(s: State, c: nat) returns (acts: seq<Action>, t: State)
    requires Is(s, c) && s.gate.tx && !s.gate.failed
    requires s.calls[c].phase.Checking? || (s.calls[c].phase.AwaitingAck? && c in s.chan.acked)
    ensures Run(s, acts) == Some(t) && Is(t, c) && t.calls[c].phase == Returned(true) && t.sink == s.sink
    ensures t.gate == s.gate
  {
    acts, t := [], s;
    if s.calls[c].phase.AwaitingAck? { acts, t := Then(s, acts, t, AckWait(c)); }
    acts, t := Then(s, acts, t, CheckTx(c));
    acts, t := Then(s, acts, t, CheckFlag(c));
  }

  /** From its start until the writer has served it. */
  lemma WaitsServed(s: State, k: Kind, size: nat, text: bytes, urgent: bool) returns (acts: seq<Action>, t: State)
    requires Inv(s) && s.cfg.failClosed && (k.LogOrdered? || k.LogCommitted?)
    requires Need(size) <= s.gate.permits && CanSend(s)
    ensures Run(s, acts) == Some(t) && Is(t, |s.calls|) && t.calls[|s.calls|].phase == AfterPush(k)
    ensures k.LogCommitted? ==> |s.calls| in t.chan.acked
    ensures Entry(|s.calls|, text) in Recorded(t.sink)
    ensures t.gate.tx && t.gate.failed == s.gate.failed && t.gate.dropped == s.gate.dropped
  {
    var first, u := WaitsToQueue(s, k, size, text, urgent);
    DoneInRange(s);
    acts, t := ServedFrom(s, first, u, |s.chan.pushed|, |s.calls|);
  }

  /**
   `log_ordered` and `log_committed` of a fail-closed logger return Ok, with the line in
   the log, from every reached state with the sender stored, the flag down, room and a
   writer that serves them.
   */
  lemma WaitingCallSucceeds(s: State, everyEvent: bool, hasDir: bool, before: seq<Action>, k: Kind, size: nat,
                            text: bytes, urgent: bool) returns (acts: seq<Action>, t: State)
    requires Reached(s, everyEvent, hasDir, before) && (k.LogOrdered? || k.LogCommitted?)
    requires Need(size) <= s.gate.permits && CanSend(s) && !s.gate.failed
    ensures Run(s, acts) == Some(t) && Is(t, |s.calls|) && t.calls[|s.calls|].phase == Returned(true)
    ensures Entry(|s.calls|, text) in Recorded(t.sink) && !t.gate.failed && t.gate.dropped == s.gate.dropped
  {
    var c := |s.calls|;
    ReachedInv(s, everyEvent, hasDir, before);
    var first, u := WaitsServed(s, k, size, text, urgent);
    var last;
    last, t := ReturnsOk(u, c);
    RunAppend(s, first, u, last, t);
    acts := first + last;
  }
}
