/**
 runDaytonaSessionCommand as it is written: a loop over the session's frames that
 updates the capture buffers and flags and broadcasts on the command's live
 stream. Its closures share those variables, so they are one object here.
 */
module SessionCommand {
  import opened Options
  import opened ByteStrings
  import opened SessionMarkers
  import R = CommandRunner
  import CommandRuns

  class CommandRun {
    const m: Markers
    var stdout: Bytes
    var stderr: Bytes
    var started: bool
    var stderrDone: bool
    var outSent: nat
    var errSent: nat
    var pending: Option<R.Parsed>
    /** The bytes broadcast on each stream of the command's live stream. */
    var liveOut: Bytes
    var liveErr: Bytes

    ghost function View(): R.Runner
      reads this
    {
      R.Runner(stdout, stderr, started, stderrDone, outSent, errSent, pending, liveOut, liveErr)
    }

    constructor (m: Markers)
      ensures this.m == m && View() == R.INIT
    {
      this.m := m;
      stdout, stderr, started, stderrDone, outSent, errSent, pending := [], [], false, false, 0, 0, None;
      liveOut, liveErr := [], [];
    }

    method SendOut(upTo: nat)
      requires upTo <= |stdout|
      modifies this`outSent, this`liveOut
      ensures View() == R.SendOut(old(View()), upTo)
    {
      if upTo > outSent {
        liveOut := liveOut + stdout[outSent..upTo];
        outSent := upTo;
      }
    }

    method PublishStderr()
      requires m.Usable()
      modifies this`errSent, this`liveErr
      ensures View() == R.PublishStderr(m, old(View()))
    {
      if !started && !stderrDone {
        return;
      }
      var safe := |stderr|;
      if !stderrDone {
        var hold := LongestEndMarkerPrefixSuffix(stderr, m.sentinel);
        safe := safe - hold;
      }
      if safe > errSent {
        liveErr := liveErr + stderr[errSent..safe];
        errSent := safe;
      }
    }

    method FlushStderr()
      requires m.Usable()
      modifies this`errSent, this`liveErr
      ensures View() == R.FlushStderr(old(View()))
    {
      if !started && !stderrDone {
        return;
      }
      if |stderr| > errSent {
        liveErr := liveErr + stderr[errSent..];
        errSent := |stderr|;
      }
    }

    /** absorbDaytonaErrSentinel: append, and cut at the sentinel once it is there. */
    method Absorb(chunk: Bytes)
      requires !stderrDone
      modifies this`stderr, this`stderrDone
      ensures var captured := old(stderr) + chunk;
        var i := IndexOf(captured, m.sentinel);
        stderr == (if i < 0 then captured else captured[..i]) && stderrDone == (i >= 0)
    {
      stderr := stderr + chunk;
      var i := IndexOf(stderr, m.sentinel);
      if i >= 0 {
        stderr, stderrDone := stderr[..i], true;
      }
    }

    method OnStderr(chunk: Bytes)
      requires m.Usable()
      modifies this
      ensures View() == R.OnStderr(m, old(View()), chunk)
    {
      if !stderrDone {
        Absorb(chunk);
        PublishStderr();
      }
    }

    /** The line after the end marker at `index`, once it is complete. */
    method ParseEnd(index: nat)
      requires m.Usable() && index == IndexOf(stdout, m.pattern)
      modifies this`pending
      ensures var parsed := R.PendingOf(m, stdout);
        View() == if parsed.None? then old(View()) else old(View()).(pending := parsed)
    {
      var rest := stdout[index + |m.pattern|..];
      var lineEnd := IndexOf(rest, [NEWLINE]);
      if lineEnd >= 0 {
        pending := Some(R.Parsed(stdout[..index], ExitCode(rest[..lineEnd])));
      }
    }

    method ScanEnd()
      requires m.Usable()
      modifies this`outSent, this`liveOut, this`pending
      ensures View() == R.ScanEnd(m, old(View()))
    {
      var index := IndexOf(stdout, m.pattern);
      if index >= 0 {
        SendOut(index);
        ParseEnd(index);
        return;
      }
      var hold := LongestEndMarkerPrefixSuffix(stdout, m.pattern);
      SendOut(|stdout| - hold);
    }

    /** Before the start marker: cut at it when it is there, keep only a tail when it is not. */
    method LookForStart(captured: Bytes)
      requires m.Usable() && !started
      modifies this
      ensures var index := IndexOf(captured, m.start);
        View() ==
          if index >= 0 then R.OnStart(m, old(View()), R.TextAfterStart(m, captured))
          else old(View()).(stdout := R.KeepTail(m, captured))
    {
      var index := IndexOf(captured, m.start);
      if index < 0 {
        stdout := if |captured| > 2 * |m.start| then captured[|captured| - |m.start|..] else captured;
        return;
      }
      started := true;
      stdout := R.TextAfterStart(m, captured);
      outSent := 0;
      PublishStderr();
      ScanEnd();
    }

    method OnStdout(chunk: Bytes)
      requires m.Usable()
      modifies this
      ensures View() == R.OnStdout(m, old(View()), chunk)
    {
      if !started {
        LookForStart(stdout + chunk);
        return;
      }
      stdout := stdout + chunk;
      ScanEnd();
    }

    method OnFrame(f: R.Frame)
      requires m.Usable()
      modifies this
      ensures View() == R.Step(m, old(View()), f)
    {
      if f.stream == R.Stderr {
        OnStderr(f.data);
      } else {
        OnStdout(f.data);
      }
    }

    /** The session closed, or both streams are complete: flush what is held back and settle the record. */
    method Close(sessionExit: int) returns (rec: R.Record)
      requires m.Usable()
      modifies this
      ensures (View(), rec) == R.Close(old(View()), sessionExit)
    {
      if pending.Some? && stderrDone {
        return R.Record(pending.value.text, stderr, pending.value.exitCode);
      }
      if pending.Some? {
        FlushStderr();
        return R.Record(pending.value.text, stderr, pending.value.exitCode);
      }
      if !started && !stderrDone {
        stderr := [];
      }
      if started {
        SendOut(|stdout|);
      }
      FlushStderr();
      rec := R.Record(stdout, stderr, if sessionExit < 0 then 1 else sessionExit);
    }
  }

  method ReadOne(run: CommandRun, frames: seq<R.Frame>, i: nat)
    requires run.m.Usable() && i < |frames| && run.View() == R.After(run.m, frames[..i]) && !run.View().Done()
    modifies run
    ensures run.View() == R.After(run.m, frames[..i + 1])
  {
    assert frames[..i + 1][..i] == frames[..i];
    run.OnFrame(frames[i]);
  }

  /** The loop over the frames, until both streams are complete or the session closes. */
  method ReadFrames(run: CommandRun, frames: seq<R.Frame>)
    requires run.m.Usable() && run.View() == R.INIT
    modifies run
    ensures run.View() == R.After(run.m, frames)
  {
    var i := 0;
    assert frames[..0] == [];
    while i < |frames| && !(run.pending.Some? && run.stderrDone)
      invariant 0 <= i <= |frames| && run.View() == R.After(run.m, frames[..i])
    {
      ReadOne(run, frames, i);
      i := i + 1;
    }
    assert frames[..|frames|] == frames;
    CommandRuns.DoneStays(run.m, frames, i);
  }

  /**
   The runner. `writeError` is the error of handing the wrapped command to the
   shell; `sessionExit` is what the session reports once it has closed. Besides
   the record it returns what was broadcast on each stream.
   */
  method RunSessionCommand(m: Markers, frames: seq<R.Frame>, writeError: Option<Bytes>, sessionExit: int)
    returns (rec: R.Record, liveOut: Bytes, liveErr: Bytes)
    requires m.Usable()
    ensures writeError.Some? ==> rec == R.Record([], writeError.value, 1) && liveOut == [] && liveErr == []
    ensures writeError.None? ==> rec == R.Finish(m, frames, sessionExit).1 && CommandRuns.RecordOf(m, frames, sessionExit, rec)
    ensures writeError.None? ==> liveErr == rec.stderr
    ensures writeError.None? ==>
      liveOut == if IndexOf(R.BytesOf(frames, R.Stdout), m.start) >= 0 then rec.stdout else []
  {
    if writeError.Some? {
      return R.Record([], writeError.value, 1), [], [];
    }
    CommandRuns.RunRecord(m, frames, sessionExit);
    CommandRuns.FinalLive(m, frames, sessionExit);
    CommandRuns.StartedIsSeen(m, frames, sessionExit);
    var run := new CommandRun(m);
    ReadFrames(run, frames);
    rec := run.Close(sessionExit);
    liveOut, liveErr := run.liveOut, run.liveErr;
  }
}
