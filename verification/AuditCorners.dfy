/** Three runs that mark where the promises of `AuditRuns` end. */
module AuditCorners {
  import opened Options
  import opened Bytes
  import opened AuditSink
  import opened AuditLogger
  import opened AuditRuns

  lemma {:induction false} RunOne(s: State, acts: seq<Action>, t: State, a: Action)
    requires Run(s, acts) == Some(t) && Enabled(t, a)
    ensures Run(s, acts + [a]) == Some(Apply(t, a))
    decreases |acts|
  {
    if acts == [] {
      assert acts + [a] == [a] && [a][1..] == [];
    } else {
      assert (acts + [a])[1..] == acts[1..] + [a];
      RunOne(Apply(s, acts[0]), acts[1..], t, a);
    }
  }

  lemma Then(s: State, acts: seq<Action>, t: State, a: Action) returns (acts': seq<Action>, t': State)
    requires Run(s, acts) == Some(t) && Enabled(t, a)
    ensures acts' == acts + [a] && t' == Apply(t, a) && Run(s, acts') == Some(t')
  {
    RunOne(s, acts, t, a);
    acts', t' := acts + [a], Apply(t, a);
  }

  /** No storage operation fails. */
  const SOUND := Outcome(Wrote, Wrote, Wrote, true, true, true)

  const FULL := Gate(QUEUE_BYTE_BUDGET, CHANNEL_CAPACITY, true, true, false, 0)

  /** A fail-closed logger with a healthy writer. */
  function Healthy(gate: Gate, calls: seq<Call>, chan: Channel, join: Joint, sink: Sink): State {
    State(Config(true, false), gate, calls, chan, Rotation([], None, map[], false, map[]), join, Running, sink)
  }

  const ATTACHED := Joint(true, None, false)

  function First(p: Phase): Call { Call(LogCommitted, 300, [LF], false, {}, 0, true, p) }

  lemma Begin(t: State, k: Kind, text: bytes)
    requires forall d :: 0 <= d < |t.calls| ==> !t.calls[d].phase.Returned?
    ensures Apply(t, Start(k, 300, text, false))
         == t.(calls := t.calls + [Call(k, 300, text, false, {}, |t.chan.pushed|, Prompt(t), FirstPhase(t, k))])
  {
    assert ReturnedLogs(t) == {};
  }

  /** A committed record up to the queue. */
  lemma CommitSends() returns (acts: seq<Action>, t: State)
    ensures Run(Initial(true, false, false), acts) == Some(t)
    ensures t == Healthy(FULL.(permits := QUEUE_BYTE_BUDGET - 300), [First(Sending(false))],
                         Channel([], None, [], 0, {}), ATTACHED, OpenSink(false))
  {
    var s := Initial(true, false, false);
    acts, t := [], s;
    Begin(t, LogCommitted, [LF]);
    acts, t := Then(s, acts, t, Start(LogCommitted, 300, [LF], false));
    acts, t := Then(s, acts, t, Grant(0, 300));
    acts, t := Then(s, acts, t, Acquired(0));
    acts, t := Then(s, acts, t, FetchTx(0));
  }

  const E0 := Entry(0, [LF])

  lemma CommitQueued() returns (acts: seq<Action>, t: State)
    ensures Run(Initial(true, false, false), acts) == Some(t)
    ensures t == Healthy(FULL.(permits := QUEUE_BYTE_BUDGET - 300), [First(AwaitingAck)],
                         Channel([], Some(Item(E0, 300, true, false)), [E0], 0, {}), ATTACHED, OpenSink(false))
  {
    var s := Initial(true, false, false);
    acts, t := CommitSends();
    acts, t := Then(s, acts, t, TakeSlot(0));
    acts, t := Then(s, acts, t, Push(0));
    acts, t := Then(s, acts, t, Dequeue);
  }

  /** The sink holding the one committed record. */
  const ONE := Sink([], Handle([LF], 1, true, false, [Line(Record(0), [LF], 0)], 1), [], true, 0, false, {})

  lemma CommitAcked() returns (acts: seq<Action>, t: State)
    ensures Run(Initial(true, false, false), acts) == Some(t)
    ensures t == Healthy(FULL, [First(AwaitingAck)], Channel([], None, [E0], 1, {0}), ATTACHED, ONE)
  {
    var s := Initial(true, false, false);
    acts, t := CommitQueued();
    assert RecordArm(OpenSink(false), 0, [LF], true, SOUND) == Arm(ONE, false, true);
    acts, t := Then(s, acts, t, Write(SOUND));
  }

  /** A plain `log` call slipping in before the committed call has returned. */
  lemma LogSlipsIn() returns (acts: seq<Action>, t: State)
    ensures Run(Initial(true, false, false), acts) == Some(t)
    ensures |t.calls| == 2 && t.calls[0] == First(AwaitingAck) && t.calls[1].phase == Returned(true)
    ensures t.calls[1].kind.Log?
    ensures t.chan.acked == {0} && t.gate.tx && !t.gate.failed && t.sink == ONE
  {
    var s := Initial(true, false, false);
    acts, t := CommitAcked();
    Begin(t, Log, [CR, LF]);
    acts, t := Then(s, acts, t, Start(Log, 300, [CR, LF], false));
    acts, t := Then(s, acts, t, TryAcquire(1));
    acts, t := Then(s, acts, t, TrySend(1));
  }

  /**
   `log_committed` covers the calls that returned before it started, not those
   that returned before it did: here it returns Ok while a `log` call that has
   already returned is not durable.
   */
  lemma CommitDoesNotCoverLateLog() returns (acts: seq<Action>, s: State)
    ensures Reached(s, false, false, acts) && Enabled(s, CheckFlag(0)) && s.calls[0].kind.LogCommitted?
    ensures Apply(s, CheckFlag(0)).calls[0].phase == Returned(true)
    ensures 1 in ReturnedLogs(s) && !DurableCall(s, s.sink, 1)
  {
    acts, s := LogSlipsIn();
    acts, s := Then(Initial(true, false, false), acts, s, AckWait(0));
    acts, s := Then(Initial(true, false, false), acts, s, CheckTx(0));
    forall h: nat, i: nat | DurableLine(s.sink, h, i) ensures Handles(s.sink)[h].lines[i].tag != Record(1) {
      assert h == 0 && i == 0;
    }
  }

  // ---- A cancelled shutdown -----------------------------------------------------------------

  /** One `log` call returned, its record still queued. */
  lemma LogQueued() returns (acts: seq<Action>, t: State)
    ensures Run(Initial(true, false, false), acts) == Some(t)
    ensures t.calls == [Call(Log, 300, [LF], false, {}, 0, true, Returned(true))]
    ensures t.join == ATTACHED && t.writer == Running && t.cfg.failClosed && !t.gate.failed && t.sink == OpenSink(false)
  {
    var s := Initial(true, false, false);
    acts, t := [], s;
    Begin(t, Log, [LF]);
    acts, t := Then(s, acts, t, Start(Log, 300, [LF], false));
    acts, t := Then(s, acts, t, TryAcquire(0));
    acts, t := Then(s, acts, t, TrySend(0));
  }

  lemma ShutdownStarts(acts0: seq<Action>, t0: State) returns (acts: seq<Action>, t: State)
    requires Run(Initial(true, false, false), acts0) == Some(t0)
    ensures Run(Initial(true, false, false), acts) == Some(t)
    ensures |t.calls| == |t0.calls| + 1 && t.calls[..|t0.calls|] == t0.calls && t.calls[|t0.calls|].phase.ClosingReopen?
    ensures t.join == t0.join && t.writer == t0.writer && t.cfg == t0.cfg && t.gate.failed == t0.gate.failed
    ensures t.sink == t0.sink
  {
    var s := Initial(true, false, false);
    acts, t := Then(s, acts0, t0, Start(Shutdown, 300, [], false));
    acts, t := Then(s, acts, t, CloseTx(|t0.calls|));
  }

  /** What a shutdown leaves of the logger when it has closed both senders. */
  lemma ShutdownLocks(acts0: seq<Action>, t0: State, c: nat) returns (acts: seq<Action>, t: State)
    requires Run(Initial(true, false, false), acts0) == Some(t0) && c == |t0.calls| && t0.join.joinLock == None
    ensures Run(Initial(true, false, false), acts) == Some(t)
    ensures |t.calls| == c + 1 && t.calls[..c] == t0.calls && t.calls[c].phase == Joining(t0.join.handle)
    ensures t.join == t0.join.(handle := false, joinLock := Some(c))
    ensures t.writer == t0.writer && t.cfg == t0.cfg && t.gate.failed == t0.gate.failed && t.sink == t0.sink
  {
    var s := Initial(true, false, false);
    acts, t := ShutdownStarts(acts0, t0);
    acts, t := Then(s, acts, t, CloseReopen(c));
    acts, t := Then(s, acts, t, LockJoin(c));
  }

  lemma FirstShutdownCancelled() returns (acts: seq<Action>, t: State)
    ensures Run(Initial(true, false, false), acts) == Some(t)
    ensures |t.calls| == 2 && t.calls[0].kind.Log? && t.calls[0].phase == Returned(true)
    ensures t.join == Joint(false, None, true) && t.writer == Running && t.cfg.failClosed && !t.gate.failed
    ensures t.sink == OpenSink(false)
  {
    acts, t := LogQueued();
    acts, t := ShutdownLocks(acts, t, 1);
    assert t.calls[0] == t.calls[..1][0];
    acts, t := Then(Initial(true, false, false), acts, t, Cancel(1));
  }

  /**
   The proviso of `ShutdownIsDurable` is needed: a second `shutdown`, after the
   first was cancelled while joining, returns Ok with a record still queued.
   */
  lemma ShutdownAfterCancelledShutdown() returns (acts: seq<Action>, s: State)
    ensures Reached(s, false, false, acts) && Enabled(s, Conclude(2)) && s.join.detached && s.writer.Running?
    ensures Apply(s, Conclude(2)).calls[2].phase == Returned(true)
    ensures 0 in ReturnedLogs(s) && !DurableCall(s, s.sink, 0)
  {
    acts, s := FirstShutdownCancelled();
    acts, s := ShutdownLocks(acts, s, 2);
    assert s.calls[0] == s.calls[..2][0];
    acts, s := Then(Initial(true, false, false), acts, s, Join(2));
    assert s.sink == OpenSink(false);
    assert forall h: nat, i: nat :: !DurableLine(s.sink, h, i);
  }

  // ---- A record behind the writer's back ----------------------------------------------------

  const SWAP := Swap(Wrote, true, true, Fresh(false), true)

  /** The writer has just found the queue empty when a record is queued. */
  lemma RecordSlipsIn() returns (acts: seq<Action>, t: State)
    ensures Run(Initial(true, false, false), acts) == Some(t)
    ensures t.calls == [Call(Log, 300, [LF], false, {}, 0, true, Returned(true))] && 0 in ReturnedLogs(t)
    ensures t.chan == Channel([Item(E0, 300, false, false)], None, [E0], 0, {})
    ensures t.rot == Rotation([], None, map[], true, map[]) && t.gate.reopenTx
    ensures t.writer == Running && t.cfg == Config(true, false) && t.sink == OpenSink(false)
  {
    var s := Initial(true, false, false);
    acts, t := Then(s, [], s, PollEmpty);
    Begin(t, Log, [LF]);
    acts, t := Then(s, acts, t, Start(Log, 300, [LF], false));
    acts, t := Then(s, acts, t, TryAcquire(0));
    acts, t := Then(s, acts, t, TrySend(0));
  }

  /** A reopen call that starts after that record's call has returned, and is taken at once. */
  lemma ReopenTaken() returns (acts: seq<Action>, t: State)
    ensures Run(Initial(true, false, false), acts) == Some(t)
    ensures |t.calls| == 2 && t.calls[1].kind.Reopen? && t.calls[1].text == [CR, LF]
    ensures t.calls[1].prior == {0} && t.calls[1].base == 1 && !t.calls[1].prompt
    ensures t.chan == Channel([Item(E0, 300, false, false)], None, [E0], 0, {})
    ensures t.rot == Rotation([], Some(1), map[], false, map[1 := 0])
    ensures t.writer == Running && t.cfg == Config(true, false) && t.sink == OpenSink(false)
  {
    var s := Initial(true, false, false);
    acts, t := ReopenStarts();
    acts, t := Then(s, acts, t, RequestReopen(1));
    acts, t := Then(s, acts, t, PostReopen(1));
    acts, t := Then(s, acts, t, TakeReopen);
  }

  lemma ReopenStarts() returns (acts: seq<Action>, t: State)
    ensures Run(Initial(true, false, false), acts) == Some(t)
    ensures |t.calls| == 2 && t.calls[1] == Call(Reopen, 300, [CR, LF], false, {0}, 1, false, Requesting)
    ensures t.chan == Channel([Item(E0, 300, false, false)], None, [E0], 0, {})
    ensures t.rot == Rotation([], None, map[], true, map[]) && t.gate.reopenTx
    ensures t.writer == Running && t.cfg == Config(true, false) && t.sink == OpenSink(false)
  {
    acts, t := RecordSlipsIn();
    assert ReturnedLogs(t) == {0};
    acts, t := Then(Initial(true, false, false), acts, t, Start(Reopen, 300, [CR, LF], false));
  }

  /** The old segment empty, the new one holding the marker. */
  const SWAPPED :=
    Sink([Handle([], 0, true, false, [], 0)],
         Handle([CR, LF], 2, true, false, [Line(Marker(1, true), [CR, LF], 0)], 1), [], true, 0, false, {})

  lemma SwapRuns(k: Sink, text: bytes)
    requires k == OpenSink(false) && text == [CR, LF]
    ensures ReopenArm(k, 1, text, SWAP, SOUND) == Arm(SWAPPED, false, true)
  {
    assert Handles(k) == [k.cur];
    assert ReopenSink(k, SWAP) == (Sink([k.cur], FreshHandle(false), [], true, 0, false, {}), true);
  }

  lemma ReopenServed() returns (acts: seq<Action>, t: State)
    ensures Run(Initial(true, false, false), acts) == Some(t)
    ensures |t.calls| == 2 && t.calls[1].prior == {0} && t.calls[1].base == 1
    ensures t.chan == Channel([Item(E0, 300, false, false)], None, [E0], 0, {})
    ensures t.rot.serving.None? && t.rot.served == map[1 := 0]
    ensures t.writer == Running && t.cfg == Config(true, false) && t.sink == SWAPPED
  {
    acts, t := ReopenTaken();
    SwapRuns(t.sink, t.calls[1].text);
    acts, t := Then(Initial(true, false, false), acts, t, ServeReopen(SWAP, SOUND));
  }

  /** The overtaken record, buffered behind the marker. */
  const OVERTAKEN :=
    SWAPPED.(cur := Accept(SWAPPED.cur, Record(0), [LF], 2), buf := [LF], events := 1)

  lemma RecordFollows() returns (acts: seq<Action>, t: State)
    ensures Run(Initial(true, false, false), acts) == Some(t)
    ensures |t.calls| == 2 && t.calls[1].prior == {0} && t.calls[1].base == 1
    ensures t.chan.pushed == [E0] && t.chan.done == 1 && t.rot.served == map[1 := 0] && t.sink == OVERTAKEN
  {
    acts, t := ReopenServed();
    acts, t := Then(Initial(true, false, false), acts, t, Dequeue);
    assert RecordArm(SWAPPED, 0, [LF], false, SOUND) == Arm(OVERTAKEN, false, false);
    acts, t := Then(Initial(true, false, false), acts, t, Write(SOUND));
  }

  /**
   The proviso of `PromptReopenIsOrdered` is needed. The select loop polls the record
   arm and then the reopen arm, and other threads run in between: here a record whose
   `log` call returned before the reopen call began lands behind its marker, in the
   new segment.
   */
  lemma ReopenOvertakesRecord() returns (acts: seq<Action>, s: State)
    ensures Run(Initial(true, false, false), acts) == Some(s) && Heads(s.sink, 1, 1)
    ensures |s.calls| == 2 && 0 in s.calls[1].prior && s.calls[1].base == 1
    ensures s.chan.pushed == [E0] && s.chan.done == 1 && s.sink.lost == {}
    ensures !InOlder(s.sink, 1, E0) && InNewer(s.sink, 1, E0)
  {
    acts, s := RecordFollows();
    ReopenSplitsLog(s, true, false, false, acts, 1, 1, 0);
  }
}
