/**
 The fuzz harness's in-flight evidence: a run rotates a leftover directory aside,
 rewrites its own on every case, and removes it on a verdict. Any rename, removal
 or write may fail, and the process may die after any single change to the disk.
 */
module ArtifactRotation {
  import opened Options
  import opened Bytes

  /** One generation: the run that made the directory, its last input and its report. */
  datatype Dir = Dir(run: nat, bin: Option<bytes>, txt: Option<bytes>)

  datatype Fs = Fs(inflight: Option<Dir>, prev: Option<Dir>, grave: Option<Dir>)

  /** What the operating system answers to the steps of opening. */
  datatype Weather = Weather(
    stash: bool, rotate: bool, restore: bool, hint: Option<bytes>, residues: seq<Dir>, buried: bool,
    mkdir: bool, mkbin: bool, report: Option<bytes>)

  /** The bytes of the first `k` of `input` written over `before`. */
  function Overlay(before: bytes, input: bytes, k: nat): bytes
    requires k <= |input|
  {
    input[..k] + before[Min(k, |before|)..]
  }

  /** The same evidence: a report may have been re-pointed, the run and its input not. */
  predicate SameEvidence(a: Dir, b: Dir) { a.run == b.run && a.bin == b.bin }

  predicate Holds(slot: Option<Dir>, d: Dir) { slot.Some? && SameEvidence(slot.value, d) }

  /** A directory with nothing in it: no input and no report. */
  predicate Empty(d: Dir) { d.bin.None? && d.txt.None? }

  /** A directory may be renamed here: nothing is in the way but, at most, an empty directory. */
  predicate Free(slot: Option<Dir>) { slot.None? || Empty(slot.value) }

  /** The evidence can still be found where a run left it or where the next one rotated it. */
  predicate Survives(fs: Fs, d: Dir) { Holds(fs.inflight, d) || Holds(fs.prev, d) }

  // ---- The disk -----------------------------------------------------------------------------

  class Disk {
    var fs: Fs
    /** Every state since the run began: the ones a dying process may leave. */
    ghost var trace: seq<Fs>

    ghost predicate Valid()
      reads this
    {
      trace != [] && fs == trace[|trace| - 1]
    }

    constructor (fs: Fs)
      ensures this.fs == fs && trace == [fs] && Valid()
    {
      this.fs := fs;
      trace := [fs];
    }

    method Set(next: Fs)
      requires Valid()
      modifies this
      ensures Valid() && fs == next && trace == old(trace) + [next]
    {
      fs := next;
      trace := trace + [next];
    }

    /** `prev` to `grave`: renaming onto a directory that holds something fails. */
    method Stash(allowed: bool) returns (ok: bool)
      requires Valid() && fs.prev.Some?
      modifies this
      ensures Valid() && ok == (allowed && Free(old(fs).grave))
      ensures ok ==> fs == old(fs).(prev := None, grave := old(fs).prev) && trace == old(trace) + [fs]
      ensures !ok ==> fs == old(fs) && trace == old(trace)
    {
      ok := allowed && Free(fs.grave);
      if ok { Set(fs.(prev := None, grave := fs.prev)); }
    }

    /** `inflight` to `prev`. */
    method Rotate(allowed: bool) returns (ok: bool)
      requires Valid() && fs.inflight.Some?
      modifies this
      ensures Valid() && ok == (allowed && Free(old(fs).prev))
      ensures ok ==> fs == old(fs).(inflight := None, prev := old(fs).inflight) && trace == old(trace) + [fs]
      ensures !ok ==> fs == old(fs) && trace == old(trace)
    {
      ok := allowed && Free(fs.prev);
      if ok { Set(fs.(inflight := None, prev := fs.inflight)); }
    }

    /** `grave` back to `prev`. */
    method Restore(allowed: bool) returns (ok: bool)
      requires Valid()
      modifies this
      ensures Valid() && ok == (allowed && Free(old(fs).prev) && old(fs).grave.Some?)
      ensures ok ==> fs == old(fs).(prev := old(fs).grave, grave := None) && trace == old(trace) + [fs]
      ensures !ok ==> fs == old(fs) && trace == old(trace)
    {
      ok := allowed && Free(fs.prev) && fs.grave.Some?;
      if ok { Set(fs.(prev := fs.grave, grave := None)); }
    }
  }

  // ---- What every state of a run keeps ---------------------------------------------------------

  /** An unfinished or undone rotation leaves the older generations where they were, or `prev` stashed. */
  predicate Older(start: Fs, fs: Fs) {
    || (fs.prev == start.prev && (fs.grave == start.grave || (Free(start.grave) && fs.grave.None?)))
    || (start.inflight.Some? && Free(start.grave) && fs.prev.None? && fs.grave == start.prev)
  }

  /** The leftover is where it was, and no older generation is gone. */
  predicate Untouched(start: Fs, fs: Fs) { fs.inflight == start.inflight && Older(start, fs) }

  /** The leftover has been rotated aside, or there was none. */
  predicate Rotated(start: Fs, fs: Fs) {
    match start.inflight
    case Some(d) => Holds(fs.prev, d)
    case None => fs.prev == start.prev
  }

  /** A grave found at the start with anything in it is never touched. */
  predicate GraveKept(start: Fs, fs: Fs) { !Free(start.grave) ==> fs.grave == start.grave }

  /** What a run may have done, at any moment, to the disk it found. */
  predicate Safe(start: Fs, fs: Fs) { (Untouched(start, fs) || Rotated(start, fs)) && GraveKept(start, fs) }

  ghost predicate AllSafe(start: Fs, trace: seq<Fs>) { forall i :: 0 <= i < |trace| ==> Safe(start, trace[i]) }

  ghost predicate AllUntouched(start: Fs, trace: seq<Fs>) {
    forall i :: 0 <= i < |trace| ==> Untouched(start, trace[i])
  }

  /** A leftover stays in place when an older generation cannot be stashed or the rename itself fails. */
  predicate Refuses(start: Fs, w: Weather) {
    start.inflight.Some? && ((start.prev.Some? && !(w.stash && Free(start.grave))) || !w.rotate)
  }

  class LiveArtifacts {
    const disk: Disk
    const run: nat
    var persisting: bool
    var rotationFailed: bool
    ghost const start: Fs

    ghost predicate Valid()
      reads this, disk
    {
      && disk.Valid() && disk.trace[0] == start && AllSafe(start, disk.trace)
      && (rotationFailed ==> !persisting && AllUntouched(start, disk.trace))
      && (!rotationFailed ==> Rotated(start, disk.fs) && GraveKept(start, disk.fs))
      && (persisting ==> disk.fs.inflight.Some? && disk.fs.inflight.value.run == run
                         && disk.fs.inflight.value.bin.Some?)
    }

    /** A run begins on the disk as it finds it. */
    constructor (disk: Disk, run: nat)
      requires disk.Valid() && disk.trace == [disk.fs]
      ensures this.disk == disk && this.run == run && start == disk.fs && !persisting && !rotationFailed
    {
      this.disk, this.run := disk, run;
      persisting, rotationFailed := false, false;
      start := disk.fs;
    }

    /** The leftover goes to `prev`, an older `prev` to `grave` first; a refusal undoes what it can. */
    method RotateLeftover(w: Weather)
      requires disk.Valid() && disk.trace == [start] && !persisting && !rotationFailed && start.inflight.Some?
      modifies this`rotationFailed, disk
      ensures Valid() && !persisting && (!rotationFailed ==> disk.fs.inflight.None?)
      ensures rotationFailed == Refuses(start, w)
    {
      var stashed := false;
      if disk.fs.prev.Some? {
        stashed := disk.Stash(w.stash);
        rotationFailed := !stashed;
      }
      if !rotationFailed {
        var rotated := disk.Rotate(w.rotate);
        if !rotated {
          if stashed { var restored := disk.Restore(w.restore); }
          rotationFailed := true;
        } else {
          RePoint(w.hint);
          if stashed { Bury(w.residues, w.buried); }
        }
      }
    }

    /** The rotated report's replay hint; the write may leave any text behind. */
    method RePoint(hint: Option<bytes>)
      requires Valid() && !rotationFailed && disk.fs.prev.Some? && start.inflight.Some?
      modifies disk
      ensures Valid() && disk.fs.inflight == old(disk.fs).inflight && disk.fs.grave == old(disk.fs).grave
    {
      if hint.Some? && disk.fs.prev.value.txt.Some? {
        disk.Set(disk.fs.(prev := Some(disk.fs.prev.value.(txt := hint))));
      }
    }

    /** Only this rotation's own stash is removed, entry by entry. */
    method Bury(residues: seq<Dir>, buried: bool)
      requires Valid() && !rotationFailed && Free(start.grave)
      modifies disk
      ensures Valid() && disk.fs.inflight == old(disk.fs).inflight
    {
      for i := 0 to |residues|
        invariant Valid() && disk.fs.inflight == old(disk.fs).inflight
      {
        disk.Set(disk.fs.(grave := Some(residues[i])));
      }
      if buried { disk.Set(disk.fs.(grave := None)); }
    }

    method Create(w: Weather)
      requires Valid() && !rotationFailed && !persisting && disk.fs.inflight.None?
      modifies this`persisting, disk
      ensures Valid() && persisting == (w.mkdir && w.mkbin)
    {
      if !w.mkdir { return; }
      disk.Set(disk.fs.(inflight := Some(Dir(run, None, None))));
      if !w.mkbin { return; }
      disk.Set(disk.fs.(inflight := Some(Dir(run, Some([]), None))));
      persisting := true;
      if w.report.Some? {
        disk.Set(disk.fs.(inflight := Some(Dir(run, Some([]), w.report))));
      }
    }

    method Open(w: Weather)
      requires disk.Valid() && disk.trace == [start] && !persisting && !rotationFailed
      modifies this`persisting, this`rotationFailed, disk
      ensures Valid() && rotationFailed == Refuses(start, w)
      ensures persisting == (!rotationFailed && w.mkdir && w.mkbin)
    {
      if disk.fs.inflight.Some? { RotateLeftover(w); }
      if !rotationFailed { Create(w); }
    }

    /** The input about to run; a write that stops early leaves it laid over the last one. */
    method Record(input: bytes, stopsAt: Option<nat>)
      requires Valid() && (stopsAt.Some? ==> stopsAt.value <= |input|)
      modifies disk
      ensures Valid() && (persisting && stopsAt.None? ==> disk.fs.inflight.value.bin == Some(input))
      ensures !persisting ==> disk.fs == old(disk.fs)
    {
      if !persisting { return; }
      var dir := disk.fs.inflight.value;
      var k := if stopsAt.Some? then stopsAt.value else |input|;
      disk.Set(disk.fs.(inflight := Some(dir.(bin := Some(Overlay(dir.bin.value, input, k))))));
      if stopsAt.None? {
        disk.Set(disk.fs.(inflight := Some(dir.(bin := Some(input)))));
      }
    }

    /** A verdict removes the in-flight directory, unless it belongs to an older run. */
    method Remove(residues: seq<Dir>, gone: bool)
      requires Valid()
      modifies this`persisting, disk
      ensures Valid() && (rotationFailed ==> disk.fs == old(disk.fs))
    {
      persisting := false;
      if !rotationFailed {
        for i := 0 to |residues|
          invariant Valid() && !persisting
        {
          disk.Set(disk.fs.(inflight := Some(residues[i])));
        }
        if gone { disk.Set(disk.fs.(inflight := None)); }
      }
    }

    method Clear(residues: seq<Dir>, gone: bool)
      requires Valid()
      modifies this`persisting, disk
      ensures Valid() && (rotationFailed ==> disk.fs == old(disk.fs))
    {
      Remove(residues, gone);
    }

    /** The in-flight directory is dropped only once the final pair is written. */
    method Fail(written: bool, residues: seq<Dir>, gone: bool)
      requires Valid()
      modifies this`persisting, disk
      ensures Valid() && (rotationFailed || !written ==> disk.fs == old(disk.fs))
    {
      persisting := false;
      if written { Remove(residues, gone); }
    }
  }

  // ---- Whole histories ----------------------------------------------------------------------------

  datatype Ending = Passed | Failed(written: bool)

  /** A whole run: whatever moment it dies at, the disk is in a safe state. */
  method RunOnce(fs: Fs, run: nat, w: Weather, inputs: seq<(bytes, Option<nat>)>, ending: Ending, residues: seq<Dir>,
                 gone: bool)
    returns (end: Fs, ghost trace: seq<Fs>)
    requires forall i :: 0 <= i < |inputs| && inputs[i].1.Some? ==> inputs[i].1.value <= |inputs[i].0|
    ensures trace != [] && trace[0] == fs && end == trace[|trace| - 1] && AllSafe(fs, trace)
    ensures if Refuses(fs, w) then AllUntouched(fs, trace) else Rotated(fs, end)
  {
    var disk := new Disk(fs);
    var live := new LiveArtifacts(disk, run);
    live.Open(w);
    for i := 0 to |inputs|
      invariant live.Valid() && live.rotationFailed == Refuses(fs, w)
    {
      live.Record(inputs[i].0, inputs[i].1);
    }
    match ending {
      case Passed => live.Clear(residues, gone);
      case Failed(written) => live.Fail(written, residues, gone);
    }
    end, trace := disk.fs, disk.trace;
  }

  /** The disk as each run found it: every state is one the run before may have left. */
  ghost predicate History(h: seq<Fs>) { forall i :: 0 < i < |h| ==> Safe(h[i - 1], h[i]) }

  /** The latest generation a run left in flight. */
  function Latest(h: seq<Fs>): Option<Dir> {
    if h == [] then None
    else if h[|h| - 1].inflight.Some? then h[|h| - 1].inflight
    else Latest(h[..|h| - 1])
  }

  lemma HistoryPrefix(h: seq<Fs>)
    requires History(h) && h != []
    ensures History(h[..|h| - 1])
  {
    var front := h[..|h| - 1];
    forall i | 0 < i < |front| ensures Safe(front[i - 1], front[i]) { assert Safe(h[i - 1], h[i]); }
  }

  /** Over any number of runs, the latest abandoned generation is still in flight or in `prev`. */
  lemma {:induction false} LatestSurvives(h: seq<Fs>, d: Dir)
    requires History(h) && Latest(h) == Some(d)
    ensures Survives(h[|h| - 1], d)
    ensures h[|h| - 1].inflight.None? ==> Holds(h[|h| - 1].prev, d)
  {
    var n := |h| - 1;
    if h[n].inflight.None? {
      HistoryPrefix(h);
      LatestSurvives(h[..n], d);
      assert Safe(h[n - 1], h[n]) && h[..n][n - 1] == h[n - 1];
    }
  }

  /** A grave that some run found with anything in it is there, as it was, for every later one. */
  lemma {:induction false} GraveStays(h: seq<Fs>, i: nat, d: Dir)
    requires History(h) && i < |h| && h[i].grave == Some(d) && !Empty(d)
    ensures h[|h| - 1].grave == Some(d)
  {
    var n := |h| - 1;
    if i < n {
      HistoryPrefix(h);
      GraveStays(h[..n], i, d);
      assert Safe(h[n - 1], h[n]) && h[..n][n - 1] == h[n - 1];
    }
  }
}
