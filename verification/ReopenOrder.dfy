/**
 Exactly when a reopen keeps its promise: in which states a reopen call may begin so
 that no run lets its marker overtake a record that was already queued.
 */
module ReopenOrder {
  import opened Options
  import opened Bytes
  import opened AuditSink
  import opened AuditLogger
  import opened AuditRuns
  import opened AuditCorners

  /** Record `i`, queued before call `c` began, lies in the segment `c`'s marker heads or in a newer one. */
  ghost predicate OvertakesAt(t: State, c: nat, h: nat, i: nat) {
    && Is(t, c) && Heads(t.sink, h, c) && i < t.calls[c].base <= |t.chan.pushed|
    && InNewer(t.sink, h, t.chan.pushed[i])
  }

  ghost predicate Overtakes(t: State, c: nat) { exists h: nat, i: nat :: OvertakesAt(t, c, h, i) }

  predicate StartsReopen(a: Action) { a.Start? && a.kind.Reopen? }

  /** No run lets the reopen call that `a` starts in `s` overtake a record. */
  ghost predicate Ordered(s: State, a: Action)
    requires Enabled(s, a)
  {
    forall later :: Run(Apply(s, a), later).Some? ==> !Overtakes(Run(Apply(s, a), later).value, |s.calls|)
  }

  // ---- A call's history does not change ----------------------------------------------------

  ghost predicate SameCall(s: State, t: State, c: nat) {
    Is(s, c) && Is(t, c) && t.calls[c] == s.calls[c].(phase := t.calls[c].phase)
  }

  lemma StepSameCall(s: State, a: Action, c: nat)
    requires Enabled(s, a) && Is(s, c)
    ensures SameCall(s, Apply(s, a), c)
  {
    if Writes(a) { WriterSameCalls(s, a); } else { CallerSameCall(s, a, c); }
  }

  lemma WriterSameCalls(s: State, a: Action)
    requires Enabled(s, a) && Writes(a)
    ensures Apply(s, a).calls == s.calls && Apply(s, a).gate.reopenTx == s.gate.reopenTx
  {
    if Reopens(a) { ReopenSameCalls(s, a); } else { RecordSameCalls(s, a); }
  }

  lemma ReopenSameCalls(s: State, a: Action)
    requires Enabled(s, a) && Reopens(a)
    ensures Apply(s, a).calls == s.calls && Apply(s, a).gate.reopenTx == s.gate.reopenTx
  {
  }

  lemma RecordSameCalls(s: State, a: Action)
    requires Enabled(s, a) && Writes(a) && !Reopens(a)
    ensures Apply(s, a).calls == s.calls && Apply(s, a).gate.reopenTx == s.gate.reopenTx
  {
  }

  /** Call `c` moves on, and nothing else about any call. */
  ghost predicate Moves(s: State, t: State, c: nat) {
    Is(s, c) && |t.calls| == |s.calls| && t.calls == s.calls[c := s.calls[c].(phase := t.calls[c].phase)]
  }

  /** ... and it is neither about to ask for a reopen nor done, and leaves the reopen channel alone. */
  ghost predicate MovesAside(s: State, t: State, c: nat) {
    && Moves(s, t, c) && t.rot == s.rot && t.gate.reopenTx == s.gate.reopenTx
    && !s.calls[c].phase.Requesting? && !s.calls[c].phase.Returned?
  }

  lemma SendMoves(s: State, a: Action)
    requires Enabled(s, a) && Sends(a)
    ensures MovesAside(s, Apply(s, a), a.c)
  {
  }

  lemma ReturnMoves(s: State, a: Action)
    requires Enabled(s, a) && Returns(a)
    ensures MovesAside(s, Apply(s, a), a.c)
  {
  }

  lemma QueueMoves(s: State, a: Action)
    requires Enabled(s, a) && (a.TrySend? || a.Push? || a.Cancel?)
    ensures MovesAside(s, Apply(s, a), a.c)
  {
  }

  lemma JoinsMove(s: State, a: Action)
    requires Enabled(s, a) && (a.LockJoin? || a.Join? || a.Conclude?)
    ensures MovesAside(s, Apply(s, a), a.c)
  {
  }

  lemma ChannelMoves(s: State, a: Action)
    requires Enabled(s, a) && Closes(a)
    ensures Moves(s, Apply(s, a), a.c)
  {
  }

  lemma CallerMoves(s: State, a: Action)
    requires Enabled(s, a) && !Writes(a) && !Closes(a) && !a.Start?
    ensures MovesAside(s, Apply(s, a), a.c)
  {
    if Sends(a) {
      SendMoves(s, a);
    } else if Returns(a) {
      ReturnMoves(s, a);
    } else if a.TrySend? || a.Push? || a.Cancel? {
      QueueMoves(s, a);
    } else {
      JoinsMove(s, a);
    }
  }

  lemma CallerSameCall(s: State, a: Action, c: nat)
    requires Enabled(s, a) && !Writes(a) && Is(s, c)
    ensures SameCall(s, Apply(s, a), c)
  {
    if Closes(a) { ChannelMoves(s, a); } else if !a.Start? { CallerMoves(s, a); }
  }

  lemma {:induction false} RunSameCall(s: State, acts: seq<Action>, c: nat)
    requires Run(s, acts).Some? && Is(s, c)
    ensures SameCall(s, Run(s, acts).value, c)
    decreases |acts|
  {
    if acts != [] {
      StepSameCall(s, acts[0], c);
      RunSameCall(Apply(s, acts[0]), acts[1..], c);
    }
  }

  // ---- A safe start is never overtaken ------------------------------------------------------

  lemma PromptOrders(s: State, a: Action, later: seq<Action>)
    requires Inv(s) && StartsReopen(a) && Prompt(s) && Run(Apply(s, a), later).Some?
    ensures !Overtakes(Run(Apply(s, a), later).value, |s.calls|)
  {
    var t, c := Run(Apply(s, a), later).value, |s.calls|;
    StepKeeps(s, a);
    RunKeeps(Apply(s, a), later);
    RunSameCall(Apply(s, a), later, c);
    forall h: nat, i: nat ensures !OvertakesAt(t, c, h, i) {
      if OvertakesAt(t, c, h, i) { PromptSplits(t, h, c, i); }
    }
  }

  /** A call that finds the reopen channel closed never posts a request. */
  ghost predicate Barred(s: State, c: nat) {
    && !s.gate.reopenTx && Is(s, c) && s.calls[c].kind.Reopen?
    && (s.calls[c].phase.Requesting? || s.calls[c].phase.Returned?)
    && c !in s.rot.requests && s.rot.serving != Some(c) && c !in s.rot.served
  }

  lemma StepBarred(s: State, a: Action, c: nat)
    requires Enabled(s, a) && Barred(s, c)
    ensures Barred(Apply(s, a), c)
  {
    if Writes(a) {
      WriterSameCalls(s, a);
      WriterBarred(s, a, c);
    } else if Closes(a) {
      ChannelBarred(s, a, c);
    } else {
      CallerBarred(s, a, c);
    }
  }

  lemma WriterBarred(s: State, a: Action, c: nat)
    requires Enabled(s, a) && Writes(a) && Barred(s, c)
    ensures c !in Apply(s, a).rot.requests && Apply(s, a).rot.serving != Some(c) && c !in Apply(s, a).rot.served
  {
  }

  lemma ChannelBarred(s: State, a: Action, c: nat)
    requires Enabled(s, a) && Closes(a) && Barred(s, c)
    ensures Barred(Apply(s, a), c)
  {
  }

  lemma CallerBarred(s: State, a: Action, c: nat)
    requires Enabled(s, a) && !Writes(a) && !Closes(a) && Barred(s, c)
    ensures Barred(Apply(s, a), c)
  {
    if !a.Start? { CallerMoves(s, a); }
  }

  lemma {:induction false} RunBarred(s: State, acts: seq<Action>, c: nat)
    requires Run(s, acts).Some? && Barred(s, c)
    ensures Barred(Run(s, acts).value, c)
    decreases |acts|
  {
    if acts != [] {
      StepBarred(s, acts[0], c);
      RunBarred(Apply(s, acts[0]), acts[1..], c);
    }
  }

  lemma StartBarred(s: State, a: Action)
    requires Asked(s) && Replies(s) && StartsReopen(a) && !s.gate.reopenTx
    ensures Barred(Apply(s, a), |s.calls|)
  {
    var c := |s.calls|;
    assert !PostedCall(s, c);
  }

  lemma ClosedOrders(s: State, a: Action, later: seq<Action>)
    requires Inv(s) && StartsReopen(a) && !s.gate.reopenTx && Run(Apply(s, a), later).Some?
    ensures !Overtakes(Run(Apply(s, a), later).value, |s.calls|)
  {
    var t, c := Run(Apply(s, a), later).value, |s.calls|;
    StepKeeps(s, a);
    RunKeeps(Apply(s, a), later);
    StartBarred(s, a);
    RunBarred(Apply(s, a), later, c);
    forall h: nat, i: nat ensures !OvertakesAt(t, c, h, i) {
      if OvertakesAt(t, c, h, i) { HeadPlaced(t, h); }
    }
  }

  // ---- Any other start can be overtaken ------------------------------------------------------

  /** With no storage fault, a line is accepted and a reopen succeeds. */
  lemma SoundWrite(k: Sink, tag: Tag, text: bytes)
    ensures WriteAll(k, tag, text, Wrote, Wrote).1
  {
  }

  lemma SoundReopen(k: Sink, request: nat, text: bytes)
    ensures ReopenArm(k, request, text, SWAP, SOUND).ok
  {
    var s := ReopenSink(k, SWAP);
    assert s.1;
    SoundWrite(s.0, Marker(request, true), text);
    SoundSettle(WriteAll(s.0, Marker(request, true), text, Wrote, Wrote).0);
  }

  lemma SoundSettle(k: Sink)
    ensures SettleMarker(k, true, SOUND).1
  {
  }

  /** The new call's request, taken while the writer still believes the queue empty. */
  lemma Taken(s: State, a: Action) returns (later: seq<Action>, t: State)
    requires Looking(s) && StartsReopen(a) && !Prompt(s) && s.gate.reopenTx
    ensures Run(Apply(s, a), later) == Some(t)
    ensures Is(t, |s.calls|) && t.calls[|s.calls|].base == |s.chan.pushed|
    ensures t.rot.serving == Some(|s.calls|) && |s.calls| in t.rot.served && t.rot.served[|s.calls|] == s.chan.done
    ensures t.chan == s.chan && t.writer.Running? && t.chan.hand.None?
  {
    var c, s1 := |s.calls|, Apply(s, a);
    later, t := Then(s1, [], s1, RequestReopen(c));
    later, t := Then(s1, later, t, PostReopen(c));
    later, t := Then(s1, later, t, TakeReopen);
  }

  lemma RunKeepsInv(s: State, a: Action, later: seq<Action>, t: State)
    requires Inv(s) && Enabled(s, a) && Run(Apply(s, a), later) == Some(t)
    ensures Inv(t)
  {
    StepKeeps(s, a);
    RunKeeps(Apply(s, a), later);
  }

  /** Its marker heads a new segment, with a record still queued from before the call. */
  lemma Swapped(s: State, a: Action) returns (later: seq<Action>, t: State)
    requires Inv(s) && StartsReopen(a) && !Prompt(s) && s.gate.reopenTx
    ensures Run(Apply(s, a), later) == Some(t) && Inv(t)
    ensures Is(t, |s.calls|) && t.calls[|s.calls|].base == |s.chan.pushed|
    ensures |s.calls| in t.rot.served && t.rot.served[|s.calls|] == s.chan.done && t.rot.serving.None?
    ensures t.chan == s.chan && t.writer.Running? && t.chan.hand.None? && Heads(t.sink, |t.sink.retired|, |s.calls|)
  {
    var c, u := |s.calls|, s;
    later, u := Taken(s, a);
    RunKeepsInv(s, a, later, u);
    SoundReopen(u.sink, c, u.calls[c].text);
    ReopenArmKept(u.sink, c, u.calls[c].text, SWAP, SOUND);
    later, t := Then(Apply(s, a), later, u, ServeReopen(SWAP, SOUND));
    RunKeepsInv(s, a, later, t);
    assert Handles(t.sink)[|t.sink.retired|] == t.sink.cur;
  }

  /** The log grows, so a marker that heads a segment goes on heading it. */
  lemma HeadsStays(a: Sink, b: Sink, h: nat, c: nat)
    requires Grows(a, b) && Heads(a, h, c)
    ensures Heads(b, h, c)
  {
    assert HandleGrows(Handles(a)[h], Handles(b)[h]);
  }

  /** Writing the record in hand without a fault loses nothing. */
  lemma SoundRecord(u: State, t: State)
    requires Inv(u) && Enabled(u, Write(SOUND)) && t == Apply(u, Write(SOUND))
    ensures Grows(u.sink, t.sink) && t.rot == u.rot && t.calls == u.calls && t.chan.pushed == u.chan.pushed
    ensures t.chan.done == u.chan.done + 1 <= |t.chan.pushed|
    ensures Record(t.chan.pushed[u.chan.done].id) !in t.sink.lost
  {
    var i := u.chan.hand.value;
    HandIsNext(u);
    InHandFresh(u);
    RecordArmKept(u.sink, i.entry, MustSync(u, i), SOUND);
    SoundWrite(u.sink, Record(i.entry.id), i.entry.text);
  }

  lemma QueueHolds(s: State)
    requires Fifo(s) && s.writer.Running? && s.chan.hand.None? && s.chan.done < |s.chan.pushed|
    ensures s.chan.queue != []
  {
    assert |s.chan.pushed[s.chan.done..]| > 0;
  }

  lemma OvertakingRun(s: State, a: Action) returns (later: seq<Action>, t: State)
    requires Inv(s) && StartsReopen(a) && !Prompt(s) && s.gate.reopenTx
    ensures Run(Apply(s, a), later) == Some(t) && Overtakes(t, |s.calls|)
  {
    var c, u := |s.calls|, s;
    later, u := Swapped(s, a);
    var h := |u.sink.retired|;
    later, u := RecordTaken(Apply(s, a), later, u);
    RunKeepsInv(s, a, later, u);
    later, t := Then(Apply(s, a), later, u, Write(SOUND));
    RunKeepsInv(s, a, later, t);
    RecordLands(u, t, h, c);
  }

  lemma RecordTaken(s: State, acts: seq<Action>, u: State) returns (later: seq<Action>, t: State)
    requires Run(s, acts) == Some(u) && Fifo(u) && u.chan.done < |u.chan.pushed|
    requires u.writer.Running? && u.chan.hand.None? && u.rot.serving.None?
    ensures Run(s, later) == Some(t) && t.chan.hand.Some? && t.writer.Running? && t.rot.serving.None?
    ensures t.calls == u.calls && t.sink == u.sink && t.rot.served == u.rot.served
    ensures t.chan.pushed == u.chan.pushed && t.chan.done == u.chan.done
  {
    QueueHolds(u);
    later, t := Then(s, acts, u, Dequeue);
  }

  /** A record finished only after the request was taken lands behind its marker. */
  lemma RecordLands(u: State, t: State, h: nat, c: nat)
    requires Inv(u) && Enabled(u, Write(SOUND)) && t == Apply(u, Write(SOUND)) && Inv(t) && Heads(u.sink, h, c)
    requires c in u.rot.served && u.rot.served[c] <= u.chan.done < |u.chan.pushed|
    requires Is(u, c) && u.chan.done < u.calls[c].base <= |u.chan.pushed|
    ensures Overtakes(t, c)
  {
    SoundRecord(u, t);
    HeadsStays(u.sink, t.sink, h, c);
    HeadSplits(t, h, c, u.chan.done);
    assert OvertakesAt(t, c, h, u.chan.done);
  }

  /**
   The order promise, exactly: a reopen call that begins in a reached state can
   overtake a record in no run if and only if the state is `Prompt`, or the reopen
   channel is closed and the call reopens nothing.
   */
  lemma ReopenOrderExact(s: State, failClosed: bool, everyEvent: bool, hasDir: bool, acts: seq<Action>, a: Action)
    requires Run(Initial(failClosed, everyEvent, hasDir), acts) == Some(s) && StartsReopen(a)
    ensures Ordered(s, a) <==> Prompt(s) || !s.gate.reopenTx
  {
    RunInv(s, failClosed, everyEvent, hasDir, acts);
    if Prompt(s) {
      forall later | Run(Apply(s, a), later).Some? ensures !Overtakes(Run(Apply(s, a), later).value, |s.calls|) {
        PromptOrders(s, a, later);
      }
    } else if !s.gate.reopenTx {
      forall later | Run(Apply(s, a), later).Some? ensures !Overtakes(Run(Apply(s, a), later).value, |s.calls|) {
        ClosedOrders(s, a, later);
      }
    } else {
      var later, t := OvertakingRun(s, a);
    }
  }
}
