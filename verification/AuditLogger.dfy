/**
 The fail-closed audit logger as a step system: any number of concurrent
 `log`, `log_ordered`, `log_committed`, `reopen` and `shutdown` calls, the
 bounded record queue, the byte-budget semaphore, the failure flag, and the one
 writer task over the storage of `AuditSink`.

 A step is one atomic access to shared state. The writer's storage arms are
 single steps, because no caller observes storage between two of its operations.
 */
module AuditLogger {
  import opened Options
  import opened Bytes
  import opened AuditSink

  const CHANNEL_CAPACITY: int := 4096
  const REOPEN_QUEUE_CAPACITY: nat := 4
  const QUEUE_BYTE_BUDGET: int := 32 * 1024 * 1024

  datatype Kind = Log | LogOrdered | LogCommitted | Reopen | Shutdown

  /** Where a call stands between two of its accesses to shared state. */
  datatype Phase =
    // logging calls
    | Trying                    // non-blocking: about to try for byte permits
    | Acquiring(granted: int)   // waiting for byte permits, some already assigned
    | Holding                   // all permits held, sender not fetched yet
    | Sending(slot: bool)       // a sender clone held, waiting for a queue slot
    | AwaitingAck
    | Checking                  // `ensure_available`: about to look at the sender
    | Checked(closed: bool)     // ... and then at the failure flag
    // reopen calls
    | Requesting | Posting | AwaitingReply
    // shutdown calls
    | ClosingTx | ClosingReopen | Locking | Joining(had: bool) | Verdict(joinErr: bool)
    // all calls
    | Returned(ok: bool)
    | Cancelled                 // the caller dropped the future

  /**
   One call. `text` is the line it offers (a reopen's is its marker). The rest is
   history of the moment it started: `prior` the calls that had returned, `base`
   the number of records queued, `prompt` that a reopen could not overtake them
   (`Prompt`).
   */
  datatype Call = Call(kind: Kind, need: int, text: bytes, urgent: bool, prior: set<nat>, base: nat, prompt: bool,
                       phase: Phase)

  datatype Item = Item(entry: Entry, need: int, ack: bool, urgent: bool)

  datatype Task = Running | Exited | Dead

  datatype Config = Config(failClosed: bool, everyEvent: bool)

  /** What every caller contends for: byte permits, queue slots, the stored senders, the failure flag. */
  datatype Gate = Gate(permits: int, slots: int, tx: bool, reopenTx: bool, failed: bool, dropped: nat)

  /**
   The record channel. `pushed` is the history of every record it accepted,
   `done` how many of them the writer has finished with, `acked` the calls whose
   oneshot fired.
   */
  datatype Channel = Channel(queue: seq<Item>, hand: Option<Item>, pushed: seq<Entry>, done: nat, acked: set<nat>)

  /**
   The reopen channel. `idle`: the writer has polled the record arm, found no
   record, and has not polled the reopen arm yet. `served` is history: how many records the
   writer had finished with when it took a request.
   */
  datatype Rotation = Rotation(requests: seq<nat>, serving: Option<nat>, replies: map<nat, bool>, idle: bool,
                               served: map<nat, nat>)

  /** The writer's join handle and the lock around it; `detached` once a cancelled `shutdown` lost the handle. */
  datatype Joint = Joint(handle: bool, joinLock: Option<nat>, detached: bool)

  datatype State = State(cfg: Config, gate: Gate, calls: seq<Call>, chan: Channel, rot: Rotation, join: Joint,
                         writer: Task, sink: Sink)

  datatype Action =
    | Start(kind: Kind, size: nat, text: bytes, urgent: bool)
    | TryAcquire(c: nat) | TrySend(c: nat)
    | Grant(c: nat, n: int) | Acquired(c: nat) | FetchTx(c: nat) | TakeSlot(c: nat) | Push(c: nat)
    | SendRefused(c: nat) | AckWait(c: nat) | CheckTx(c: nat) | CheckFlag(c: nat) | Cancel(c: nat)
    | RequestReopen(c: nat) | PostReopen(c: nat) | ReplyWait(c: nat)
    | CloseTx(c: nat) | CloseReopen(c: nat) | LockJoin(c: nat) | Join(c: nat) | Conclude(c: nat)
    | Dequeue | Write(o: Outcome) | PollEmpty | Park | TakeReopen | ServeReopen(swap: Swap, o: Outcome)
    | TickFlush(w: AuditSink.Write) | TickFsync(sync: bool, dir: bool) | Close(o: Outcome) | Die

  function Initial(failClosed: bool, everyEvent: bool, hasDir: bool): State {
    State(Config(failClosed, everyEvent), Gate(QUEUE_BYTE_BUDGET, CHANNEL_CAPACITY, true, true, false, 0), [],
          Channel([], None, [], 0, {}), Rotation([], None, map[], false, map[]), Joint(true, None, false),
          Running, OpenSink(hasDir))
  }

  predicate Logging(k: Kind) { k.Log? || k.LogOrdered? || k.LogCommitted? }

  /** `log` itself, and every logging call of a best-effort logger, never waits. */
  predicate NonBlocking(s: State, k: Kind) { k.Log? || !s.cfg.failClosed }

  /** The phases in which a caller owns its record's bytes and may still queue it. */
  predicate PrePush(p: Phase) { p.Trying? || p.Acquiring? || p.Holding? || p.Sending? }

  predicate Waiting(p: Phase) {
    p.Acquiring? || p.Holding? || p.Sending? || p.AwaitingAck? || p.Checking? || p.Checked?
  }

  /** `prepare`: a record's byte share, capped at the whole budget. */
  function Need(size: nat): int { Min(size, QUEUE_BYTE_BUDGET) }

  function FirstPhase(s: State, k: Kind): Phase {
    match k
    case Reopen => Requesting
    case Shutdown => ClosingTx
    case _ => if NonBlocking(s, k) then Trying else Acquiring(0)
  }

  ghost function ReturnedLogs(s: State): set<nat> {
    set c: nat | c < |s.calls| && Logging(s.calls[c].kind) && s.calls[c].phase.Returned?
  }

  function At(s: State, c: nat, p: Phase): State
    requires c < |s.calls|
  {
    s.(calls := s.calls[c := s.calls[c].(phase := p)])
  }

  predicate Is(s: State, c: nat) { c < |s.calls| }

  /** A caller keeps its sender clone while it waits for a slot, and then for its acknowledgement. */
  predicate HoldsSender(p: Phase) { p.Sending? || p.AwaitingAck? }

  /** A sender keeps the record channel open: the stored one, or a waiting caller's clone. */
  ghost predicate SenderAlive(s: State) {
    s.gate.tx || exists c :: 0 <= c < |s.calls| && HoldsSender(s.calls[c].phase)
  }

  function ItemOf(s: State, c: nat): Item
    requires Is(s, c)
  {
    var k := s.calls[c];
    Item(Entry(c, k.text), k.need, k.kind.LogCommitted? && s.cfg.failClosed, k.urgent)
  }

  /** The queue accepts call `c`'s record. */
  function Enqueue(s: State, c: nat): State
    requires Is(s, c)
  {
    s.(chan := s.chan.(queue := s.chan.queue + [ItemOf(s, c)], pushed := s.chan.pushed + [Entry(c, s.calls[c].text)]))
  }

  /** The record is refused or lost: its byte share returns to the budget. */
  function Release(s: State, n: int): State { s.(gate := s.gate.(permits := s.gate.permits + n)) }

  function AddSlots(s: State, n: int): State { s.(gate := s.gate.(slots := s.gate.slots + n)) }

  function Drop(s: State): State { s.(gate := s.gate.(dropped := s.gate.dropped + 1)) }

  function Fail(s: State): State { s.(gate := s.gate.(failed := true)) }

  function FailIf(s: State, b: bool): State { s.(gate := s.gate.(failed := s.gate.failed || b)) }

  ghost predicate InFlight(s: State, c: nat) {
    || (s.chan.hand.Some? && s.chan.hand.value.entry.id == c)
    || exists i :: 0 <= i < |s.chan.queue| && s.chan.queue[i].entry.id == c
  }

  // ---- Producer steps -------------------------------------------------------

  ghost predicate Enabled(s: State, a: Action) {
    match a
    case Start(_, _, _, _) => true
    case TryAcquire(c) => Is(s, c) && s.calls[c].phase.Trying?
    case TrySend(c) => Is(s, c) && s.calls[c].phase.Holding? && NonBlocking(s, s.calls[c].kind)
    case Grant(c, n) => Is(s, c) && s.calls[c].phase.Acquiring? && 0 <= n <= s.gate.permits
                        && s.calls[c].phase.granted + n <= s.calls[c].need
    case Acquired(c) => Is(s, c) && s.calls[c].phase == Acquiring(s.calls[c].need)
    case FetchTx(c) => Is(s, c) && s.calls[c].phase.Holding? && !NonBlocking(s, s.calls[c].kind)
    case TakeSlot(c) => Is(s, c) && s.calls[c].phase == Sending(false) && s.writer.Running? && s.gate.slots > 0
    case Push(c) => Is(s, c) && s.calls[c].phase == Sending(true)
    case SendRefused(c) => Is(s, c) && s.calls[c].phase == Sending(false) && !s.writer.Running?
    case AckWait(c) => Is(s, c) && s.calls[c].phase.AwaitingAck? && (c in s.chan.acked || !InFlight(s, c))
    case CheckTx(c) => Is(s, c) && s.calls[c].phase.Checking?
    case CheckFlag(c) => Is(s, c) && s.calls[c].phase.Checked?
    case Cancel(c) => Is(s, c) && ((Waiting(s.calls[c].phase) && !NonBlocking(s, s.calls[c].kind))
                                   || s.calls[c].phase == Joining(true))
    case RequestReopen(c) => Is(s, c) && s.calls[c].phase.Requesting?
    case PostReopen(c) => Is(s, c) && s.calls[c].phase.Posting?
                          && (!s.writer.Running? || |s.rot.requests| < REOPEN_QUEUE_CAPACITY)
    case ReplyWait(c) => Is(s, c) && s.calls[c].phase.AwaitingReply?
                         && (c in s.rot.replies || (c !in s.rot.requests && s.rot.serving != Some(c)))
    case CloseTx(c) => Is(s, c) && s.calls[c].phase.ClosingTx?
    case CloseReopen(c) => Is(s, c) && s.calls[c].phase.ClosingReopen?
    case LockJoin(c) => Is(s, c) && s.calls[c].phase.Locking? && s.join.joinLock.None?
    case Join(c) => Is(s, c) && s.calls[c].phase.Joining? && (s.calls[c].phase.had ==> !s.writer.Running?)
    case Conclude(c) => Is(s, c) && s.calls[c].phase.Verdict?
    // The select loop polls its arms in turn, the record arm first; other threads run between two polls.
    case Dequeue => s.writer.Running? && s.chan.hand.None? && s.rot.serving.None? && s.chan.queue != []
    case Write(_) => s.writer.Running? && s.chan.hand.Some? && s.rot.serving.None?
    case PollEmpty => s.writer.Running? && s.chan.hand.None? && s.rot.serving.None? && s.chan.queue == []
    case Park => s.writer.Running? && s.rot.idle && s.rot.requests == []
    case TakeReopen => s.writer.Running? && s.chan.hand.None? && s.rot.serving.None? && s.rot.idle
                       && s.rot.requests != []
    case ServeReopen(_, _) => s.writer.Running? && s.rot.serving.Some? && Is(s, s.rot.serving.value)
    case TickFlush(_) => s.writer.Running? && s.chan.hand.None? && s.rot.serving.None?
    case TickFsync(_, _) => s.writer.Running? && s.chan.hand.None? && s.rot.serving.None?
    case Close(_) => s.writer.Running? && s.chan.hand.None? && s.rot.serving.None? && s.chan.queue == []
                     && !SenderAlive(s)
    case Die => s.writer.Running?
  }

  /**
   The writer is not between its looks at the two queues with a record queued behind
   its back and no other request to take first.
   */
  predicate Prompt(s: State) { !s.rot.idle || s.chan.done == |s.chan.pushed| || s.rot.requests != [] }

  ghost function StartCall(s: State, k: Kind, size: nat, text: bytes, urgent: bool): State {
    s.(calls := s.calls + [Call(k, Need(size), text, urgent, ReturnedLogs(s), |s.chan.pushed|, Prompt(s),
                                FirstPhase(s, k))])
  }

  function DoTryAcquire(s: State, c: nat): State
    requires Is(s, c)
  {
    if s.gate.permits >= s.calls[c].need then At(Release(s, -s.calls[c].need), c, Holding)
    else At(FailIf(Drop(s), s.cfg.failClosed), c, Returned(true))
  }

  function DoTrySend(s: State, c: nat): State
    requires Is(s, c)
  {
    var back := Release(s, s.calls[c].need);
    if !s.gate.tx || !s.writer.Running? then At(Fail(back), c, Returned(true))
    else if s.gate.slots > 0 then At(AddSlots(Enqueue(s, c), -1), c, Returned(true))
    else At(FailIf(Drop(back), s.cfg.failClosed), c, Returned(true))
  }

  function DoFetchTx(s: State, c: nat): State
    requires Is(s, c)
  {
    if s.gate.tx then At(s, c, Sending(false))
    else At(Fail(Release(s, s.calls[c].need)), c, Returned(false))
  }

  function AfterPush(k: Kind): Phase { if k.LogCommitted? then AwaitingAck else Checking }

  /** A slot once reserved is always filled, even if the receiver has gone: the record is then lost unseen. */
  function DoPush(s: State, c: nat): State
    requires Is(s, c)
  {
    if s.writer.Running? then At(Enqueue(s, c), c, AfterPush(s.calls[c].kind))
    else At(Release(s, s.calls[c].need).(chan := s.chan.(pushed := s.chan.pushed + [Entry(c, s.calls[c].text)])), c,
            AfterPush(s.calls[c].kind))
  }

  function DoAckWait(s: State, c: nat): State
    requires Is(s, c)
  {
    if c in s.chan.acked then At(s, c, Checking) else At(Fail(s), c, Returned(false))
  }

  /** `ensure_available`'s verdict: the flag is read last. */
  function DoCheckFlag(s: State, c: nat): State
    requires Is(s, c) && s.calls[c].phase.Checked?
  {
    At(s, c, Returned(!((s.cfg.failClosed && s.gate.failed) || s.calls[c].phase.closed)))
  }

  function DoCancel(s: State, c: nat): State
    requires Is(s, c)
  {
    var p := s.calls[c].phase;
    if p.Joining? then At(s.(join := s.join.(joinLock := None, detached := true)), c, Cancelled)
    else At(AddSlots(Release(s, Share(s.calls[c])), Slot(s.calls[c])), c, Cancelled)
  }

  // ---- Reopen and shutdown steps --------------------------------------------

  function DoRequestReopen(s: State, c: nat): State
    requires Is(s, c)
  {
    At(s, c, if s.gate.reopenTx then Posting else Returned(false))
  }

  function DoPostReopen(s: State, c: nat): State
    requires Is(s, c)
  {
    if s.writer.Running? then At(s.(rot := s.rot.(requests := s.rot.requests + [c])), c, AwaitingReply)
    else At(Fail(s), c, Returned(false))
  }

  function DoReplyWait(s: State, c: nat): State
    requires Is(s, c)
  {
    if c in s.rot.replies then At(s, c, Returned(s.rot.replies[c])) else At(Fail(s), c, Returned(false))
  }

  function DoLockJoin(s: State, c: nat): State
    requires Is(s, c)
  {
    At(s.(join := s.join.(joinLock := Some(c), handle := false)), c, Joining(s.join.handle))
  }

  function DoJoin(s: State, c: nat): State
    requires Is(s, c) && s.calls[c].phase.Joining?
  {
    var err := s.calls[c].phase.had && s.writer.Dead?;
    At(FailIf(s, err), c, Verdict(err))
  }

  function DoConclude(s: State, c: nat): State
    requires Is(s, c) && s.calls[c].phase.Verdict?
  {
    At(s.(join := s.join.(joinLock := None)), c,
       Returned(!(s.cfg.failClosed && (s.gate.failed || s.calls[c].phase.joinErr))))
  }

  // ---- Writer steps -----------------------------------------------------------

  predicate MustSync(s: State, i: Item) { i.ack || s.cfg.everyEvent || i.urgent }

  /** The record arm ended with `r`: its permit is returned and a waiting caller acknowledged. */
  function AfterWrite(s: State, r: Arm): State
    requires s.chan.hand.Some?
  {
    var i := s.chan.hand.value;
    Release(WithArm(s, r), i.need)
    .(chan := s.chan.(hand := None, done := s.chan.done + 1,
                      acked := s.chan.acked + if r.ok && i.ack then {i.entry.id} else {}))
  }

  function DoWrite(s: State, o: Outcome): State
    requires s.chan.hand.Some?
  {
    var i := s.chan.hand.value;
    AfterWrite(s, RecordArm(s.sink, i.entry.id, i.entry.text, MustSync(s, i), o))
  }

  function DoServeReopen(s: State, swap: Swap, o: Outcome): State
    requires s.rot.serving.Some? && Is(s, s.rot.serving.value)
  {
    AfterReopen(s, ReopenArm(s.sink, s.rot.serving.value, s.calls[s.rot.serving.value].text, swap, o))
  }

  function AfterReopen(s: State, r: Arm): State
    requires s.rot.serving.Some?
  {
    WithArm(s, r).(rot := s.rot.(serving := None, replies := s.rot.replies[s.rot.serving.value := r.ok]))
  }

  function WithArm(s: State, r: Arm): State {
    FailIf(s, r.fault).(sink := r.sink)
  }

  function DoDequeue(s: State): State
    requires s.chan.queue != []
  {
    Stir(AddSlots(s, 1)).(chan := s.chan.(hand := Some(s.chan.queue[0]), queue := s.chan.queue[1..]))
  }

  /** The select loop starts over: its next look is at the record arm. */
  function Stir(s: State): State { s.(rot := s.rot.(idle := false)) }

  function AfterTick(s: State, r: Arm): State { Stir(WithArm(s, r)) }

  function DoTakeReopen(s: State): State
    requires s.rot.requests != []
  {
    var c := s.rot.requests[0];
    s.(rot := s.rot.(serving := Some(c), requests := s.rot.requests[1..], idle := false,
                     served := s.rot.served[c := s.chan.done]))
  }

  /** The writer returns, and with it go the requests it never took. */
  function AfterClose(s: State, r: Arm): State {
    WithArm(s, r).(writer := Exited, rot := s.rot.(requests := [], idle := false))
  }

  /** A panicking writer drops its queue, and with it every waiting share and oneshot. */
  function DoDie(s: State): State {
    Release(s, Needs(s.chan.queue) + HandNeed(s.chan.hand))
    .(writer := Dead, chan := s.chan.(queue := [], hand := None),
      rot := s.rot.(requests := [], serving := None, idle := false))
  }

  ghost function Apply(s: State, a: Action): State
    requires Enabled(s, a)
  {
    match a
    case Start(k, size, text, urgent) => StartCall(s, k, size, text, urgent)
    case TryAcquire(c) => DoTryAcquire(s, c)
    case TrySend(c) => DoTrySend(s, c)
    case Grant(c, n) => At(Release(s, -n), c, Acquiring(s.calls[c].phase.granted + n))
    case Acquired(c) => At(s, c, Holding)
    case FetchTx(c) => DoFetchTx(s, c)
    case TakeSlot(c) => At(AddSlots(s, -1), c, Sending(true))
    case Push(c) => DoPush(s, c)
    case SendRefused(c) => At(Fail(Release(s, s.calls[c].need)), c, Returned(false))
    case AckWait(c) => DoAckWait(s, c)
    case CheckTx(c) => At(s, c, Checked(s.cfg.failClosed && !s.gate.tx))
    case CheckFlag(c) => DoCheckFlag(s, c)
    case Cancel(c) => DoCancel(s, c)
    case RequestReopen(c) => DoRequestReopen(s, c)
    case PostReopen(c) => DoPostReopen(s, c)
    case ReplyWait(c) => DoReplyWait(s, c)
    case CloseTx(c) => At(s.(gate := s.gate.(tx := false)), c, ClosingReopen)
    case CloseReopen(c) => At(s.(gate := s.gate.(reopenTx := false)), c, Locking)
    case LockJoin(c) => DoLockJoin(s, c)
    case Join(c) => DoJoin(s, c)
    case Conclude(c) => DoConclude(s, c)
    case Dequeue => DoDequeue(s)
    case Write(o) => DoWrite(s, o)
    case PollEmpty => s.(rot := s.rot.(idle := true))
    case Park => Stir(s)
    case TakeReopen => DoTakeReopen(s)
    case ServeReopen(swap, o) => DoServeReopen(s, swap, o)
    case TickFlush(w) => AfterTick(s, FlushTick(s.sink, w))
    case TickFsync(sync, dir) => AfterTick(s, FsyncTick(s.sink, sync, dir))
    case Close(o) => AfterClose(s, CloseArm(s.sink, o))
    case Die => DoDie(s)
  }

  /** The state a run ends in, if each of its actions was enabled in turn. */
  ghost function Run(s: State, acts: seq<Action>): Option<State>
    decreases |acts|
  {
    if acts == [] then Some(s)
    else if Enabled(s, acts[0]) then Run(Apply(s, acts[0]), acts[1..])
    else None
  }

  // ---- Shares ------------------------------------------------------------------

  /** The permits a caller holds itself. */
  function Share(k: Call): int {
    match k.phase
    case Acquiring(g) => g
    case Holding => k.need
    case Sending(_) => k.need
    case _ => 0
  }

  function Shares(calls: seq<Call>): int {
    if calls == [] then 0 else Shares(calls[..|calls| - 1]) + Share(calls[|calls| - 1])
  }

  function Needs(items: seq<Item>): int {
    if items == [] then 0 else Needs(items[..|items| - 1]) + items[|items| - 1].need
  }

  function HandNeed(h: Option<Item>): int { if h.Some? then h.value.need else 0 }

  function SlotsHeld(calls: seq<Call>): int {
    if calls == [] then 0
    else SlotsHeld(calls[..|calls| - 1]) + Slot(calls[|calls| - 1])
  }

  /** The queue slot a caller has reserved. */
  function Slot(k: Call): int { if k.phase == Sending(true) then 1 else 0 }
}
