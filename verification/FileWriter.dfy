/**
 The file writer task in place: the fields its select loop carries, and one
 method per arm. Each method is proved to compute the arm of `AuditSink` and to
 raise the failure flag exactly when that arm faults.
 */
module FileWriter {
  import opened Bytes
  import opened AuditSink

  class Writer {
    var retired: seq<Handle>
    var cur: Handle
    var buf: bytes
    var dirSynced: bool
    var events: nat
    /** History: a write or flush has failed; the lines a whole `write_all` has lost. */
    var broke: bool
    var lost: set<Tag>
    /** The shared flag: set by any fault, cleared by none. */
    var failed: bool

    function View(): Sink
      reads this
    {
      Sink(retired, cur, buf, dirSynced, events, broke, lost)
    }

    constructor (hasDir: bool)
      ensures View() == OpenSink(hasDir) && !failed
    {
      retired, cur, buf := [], FreshHandle(hasDir), [];
      dirSynced, events, failed, broke, lost := !hasDir, 0, false, false, {};
    }

    method FlushBuffer(o: Write) returns (ok: bool)
      modifies this
      ensures (View(), ok) == FlushBuf(old(View()), o) && failed == old(failed)
    {
      if buf == [] { return true; }
      match o
      case Wrote =>
        cur := cur.(file := cur.file + buf, whole := |cur.lines|);
        buf := [];
        ok := true;
      case Broke(n) =>
        var k := Min(n, |buf|);
        cur := cur.(file := cur.file + buf[..k]);
        buf := buf[k..];
        ok, broke := false, true;
    }

    method Put(tag: Tag, text: bytes, spill: Write, direct: Write) returns (ok: bool)
      modifies this
      ensures (View(), ok) == WriteAll(old(View()), tag, text, spill, direct) && failed == old(failed)
    {
      if |text| > BUF_WRITER_CAPACITY - |buf| {
        ok := FlushBuffer(spill);
        if !ok {
          lost := lost + {tag};
          return;
        }
      }
      if |text| < BUF_WRITER_CAPACITY {
        cur := Accept(cur, tag, text, |cur.file| + |buf|);
        buf := buf + text;
        ok := true;
      } else if direct.Wrote? {
        cur := Accept(cur, tag, text, |cur.file|);
        cur := cur.(file := cur.file + text, whole := |cur.lines|);
        ok := true;
      } else {
        cur := cur.(file := cur.file + text[..Min(direct.n, |text|)]);
        ok, broke, lost := false, true, lost + {tag};
      }
    }

    method Fsync(done: bool) returns (ok: bool)
      modifies this
      ensures (View(), ok) == SyncAll(old(View()), done) && failed == old(failed)
    {
      if done { cur := cur.(synced := |cur.file|); }
      ok := done;
    }

    method SyncDir(done: bool) returns (ok: bool)
      modifies this
      ensures (View(), ok) == SyncAuditDir(old(View()), done) && failed == old(failed)
    {
      if !cur.hasDir { return true; }
      if done { cur := cur.(entryDurable := true); }
      ok := done;
    }

    /** fsync, directory fsync and visible-entry check behind an acknowledgement. */
    method Persist(ok0: bool, o: Outcome) returns (ok: bool)
      modifies this
      ensures (View(), ok) == Settle(old(View()), ok0, o)
      ensures failed == (old(failed) || (ok0 && !ok))
    {
      ok := ok0;
      if ok {
        ok := Fsync(o.sync);
        if !ok { failed := true; }
      }
      if ok && !dirSynced {
        ok := SyncDir(o.dir);
        if ok { dirSynced := true; } else { failed := true; }
      }
      if ok && !o.visible {
        failed := true;
        ok := false;
      }
    }

    /** The durable path behind a record whose write went `wrote`. */
    method FlushAndPersist(wrote: bool, o: Outcome) returns (ack: bool)
      modifies this
      requires !wrote ==> failed
      ensures var r := SyncArm(old(View()), wrote, o);
              View() == r.sink && ack == r.ok && failed == (old(failed) || r.fault)
    {
      var flushed := FlushBuffer(o.flush);
      if !flushed { failed := true; }
      events := 0;
      ack := Persist(wrote && flushed, o);
    }

    /** The buffered path: every hundredth record flushes. */
    method CountRecord(wrote: bool, o: Write)
      modifies this
      requires !wrote ==> failed
      ensures var r := CountArm(old(View()), wrote, o);
              View() == r.sink && failed == (old(failed) || r.fault)
    {
      events := events + 1;
      if events >= FLUSH_EVENT_THRESHOLD {
        var flushed := FlushBuffer(o);
        if !flushed { failed := true; }
        events := 0;
      }
    }

    method WriteRecord(id: nat, text: bytes, mustSync: bool, o: Outcome) returns (ack: bool)
      modifies this
      ensures var r := RecordArm(old(View()), id, text, mustSync, o);
              View() == r.sink && ack == r.ok && failed == (old(failed) || r.fault)
    {
      var wrote := Put(Record(id), text, o.spill, o.direct);
      if !wrote { failed := true; }
      ack := false;
      if mustSync {
        ack := FlushAndPersist(wrote, o);
      } else {
        CountRecord(wrote, o.flush);
      }
    }

    /** Flush, fsync and directory fsync of the handle about to be replaced. */
    method RetireHandle(o: Swap) returns (ok: bool)
      modifies this
      ensures (View(), ok) == Retire(old(View()), o) && failed == old(failed)
    {
      ok := FlushBuffer(o.flush);
      if !ok { return; }
      ok := Fsync(o.sync);
      if !ok { return; }
      if !dirSynced {
        ok := SyncDir(o.dir);
        if !ok { return; }
        dirSynced := true;
      }
    }

    method Reopen(o: Swap) returns (ok: bool)
      modifies this
      ensures (View(), ok) == ReopenSink(old(View()), o) && failed == old(failed)
    {
      ok := RetireHandle(o);
      if !ok { return; }
      if o.open.Refused? { return false; }
      retired := retired + [cur];
      cur := FreshHandle(o.open.hasDir);
      buf := [];
      ok := SyncDir(o.newDir);
      dirSynced := ok;
    }

    method ServeReopen(request: nat, text: bytes, swap: Swap, o: Outcome) returns (reply: bool)
      modifies this
      ensures var r := ReopenArm(old(View()), request, text, swap, o);
              View() == r.sink && reply == r.ok && failed == (old(failed) || r.fault)
    {
      var swapped := Reopen(swap);
      if !swapped { failed := true; }
      var marked := Put(Marker(request, swapped), text, o.spill, o.direct);
      if !marked { failed := true; }
      events := 0;
      if marked {
        marked := FlushBuffer(o.flush);
        if !marked { failed := true; }
      }
      marked := Persist(marked, o);
      reply := swapped && marked;
    }

    method TickFlush(o: Write)
      modifies this
      ensures var r := FlushTick(old(View()), o);
              View() == r.sink && failed == (old(failed) || r.fault)
    {
      if events > 0 {
        var ok := FlushBuffer(o);
        if !ok { failed := true; }
        events := 0;
      }
    }

    method TickFsync(sync: bool, dir: bool)
      modifies this
      ensures var r := FsyncTick(old(View()), sync, dir);
              View() == r.sink && failed == (old(failed) || r.fault)
    {
      var ok := Fsync(sync);
      if !ok { failed := true; }
      if !dirSynced {
        ok := SyncDir(dir);
        if ok { dirSynced := true; } else { failed := true; }
      }
    }

    method Close(o: Outcome)
      modifies this
      ensures var r := CloseArm(old(View()), o);
              View() == r.sink && failed == (old(failed) || r.fault)
    {
      var ok := FlushBuffer(o.flush);
      if !ok { failed := true; }
      ok := Fsync(o.sync);
      if !ok { failed := true; }
      if !dirSynced {
        ok := SyncDir(o.dir);
        if !ok { failed := true; }
      }
      if !o.visible { failed := true; }
    }
  }
}
