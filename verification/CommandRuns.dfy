/**
 What every run of the session command runner guarantees: the live view agrees
 with the record, the record does not depend on how the shell's output was cut
 into frames, and what the wrapper printed is what is recorded.
 */
module CommandRuns {
  import opened Options
  import opened ByteStrings
  import opened SessionMarkers
  import opened CommandRunner

  // ----- The live view only grows -----

  ghost predicate Grows(s: Runner, t: Runner) {
    s.liveOut <= t.liveOut && s.liveErr <= t.liveErr
  }

  lemma PublishGrows(m: Markers, s: Runner)
    requires m.Usable()
    ensures Grows(s, PublishStderr(m, s))
  {
  }

  lemma ScanGrows(m: Markers, s: Runner)
    requires m.Usable()
    ensures Grows(s, ScanEnd(m, s))
  {
  }

  lemma OnStdoutGrows(m: Markers, s: Runner, chunk: Bytes)
    requires m.Usable()
    ensures Grows(s, OnStdout(m, s, chunk))
  {
    if s.started {
      ScanGrows(m, s.(stdout := s.stdout + chunk));
    } else if IndexOf(s.stdout + chunk, m.start) >= 0 {
      OnStdoutStarts(m, s, chunk);
      var t := s.(started := true, stdout := TextAfterStart(m, s.stdout + chunk), outSent := 0);
      PublishGrows(m, t);
      ScanGrows(m, PublishStderr(m, t));
    }
  }

  lemma StepGrows(m: Markers, s: Runner, f: Frame)
    requires m.Usable()
    ensures Grows(s, Step(m, s, f))
  {
    if f.stream == Stdout {
      OnStdoutGrows(m, s, f.data);
    } else if !s.stderrDone {
      var captured := s.stderr + f.data;
      var i := IndexOf(captured, m.sentinel);
      PublishGrows(m, if i < 0 then s.(stderr := captured) else s.(stderr := captured[..i], stderrDone := true));
    }
  }

  lemma {:induction false} LiveGrows(m: Markers, frames: seq<Frame>, j: nat)
    requires m.Usable() && j <= |frames|
    ensures After(m, frames[..j]).liveOut <= After(m, frames).liveOut
    ensures After(m, frames[..j]).liveErr <= After(m, frames).liveErr
  {
    if j == |frames| {
      assert frames[..j] == frames;
    } else {
      var init := frames[..|frames| - 1];
      LiveGrows(m, init, j);
      assert init[..j] == frames[..j];
      StepGrows(m, After(m, init), frames[|frames| - 1]);
    }
  }

  lemma FinishGrows(m: Markers, frames: seq<Frame>, sessionExit: int)
    requires m.Usable()
    ensures After(m, frames).liveOut <= Finish(m, frames, sessionExit).0.liveOut
    ensures After(m, frames).liveErr <= Finish(m, frames, sessionExit).0.liveErr
  {
  }

  // ----- The live view is the record -----

  lemma FlushedStderr(m: Markers, s: Runner, err: Bytes)
    requires m.Usable() && ErrMeaning(m, s, err)
    ensures FlushStderr(s).liveErr == if s.started || s.stderrDone then s.stderr else []
    ensures FlushStderr(s).liveOut == s.liveOut && FlushStderr(s).started == s.started
  {
    assert s.stderr[..s.errSent] + s.stderr[s.errSent..] == s.stderr;
  }

  lemma FlushedStdout(m: Markers, s: Runner, text: Bytes)
    requires m.Usable() && s.started && OutAfter(m, s, text)
    ensures var r := SendOut(s, |s.stdout|);
      r.liveOut == s.stdout && r == s.(outSent := r.outSent, liveOut := r.liveOut)
    ensures s.pending.Some? ==> s.liveOut == s.pending.value.text
  {
    SendOutTo(s, |s.stdout|);
  }

  lemma FinalLive(m: Markers, frames: seq<Frame>, sessionExit: int)
    requires m.Usable()
    ensures var (last, rec) := Finish(m, frames, sessionExit);
      && last.liveErr == rec.stderr
      && last.liveOut == (if last.started then rec.stdout else [])
  {
    RunMeaning(m, frames);
    var s := After(m, frames);
    var read := frames[..FramesRead(m, frames)];
    FlushedStderr(m, s, BytesOf(read, Stderr));
    if s.started {
      FlushedStdout(m, s, CommandText(m, BytesOf(read, Stdout), CutAfterStart(m, read)));
      FlushedStderr(m, SendOut(s, |s.stdout|), BytesOf(read, Stderr));
    }
  }

  /**
   At every moment the bytes broadcast on a stream are a prefix of what the run
   records, and at the end they are all of it. Stdout that was never preceded by
   the start marker is recorded but not broadcast.
   */
  lemma LiveIsPrefixOfRecord(m: Markers, frames: seq<Frame>, sessionExit: int, j: nat)
    requires m.Usable() && j <= |frames|
    ensures var (last, rec) := Finish(m, frames, sessionExit);
      var now := After(m, frames[..j]);
      && now.liveErr <= rec.stderr && last.liveErr == rec.stderr
      && now.liveOut <= rec.stdout
      && (last.liveOut == rec.stdout <==> last.started || rec.stdout == [])
  {
    LiveGrows(m, frames, j);
    FinishGrows(m, frames, sessionExit);
    FinalLive(m, frames, sessionExit);
  }

  /** Nothing is held back of `text` but what may be the beginning of `marker`. */
  ghost predicate HeldBack(text: Bytes, live: Bytes, marker: Bytes) {
    && live <= text && |text| - |live| < |marker| && text[|live|..] == marker[..|text| - |live|]
    && forall n :: 0 <= n < |live| && |text| - n < |marker| ==> text[n..] != marker[..|text| - n]
  }

  /**
   At every moment of a run that has begun, the command's stdout is broadcast up to its
   end marker, or up to the most that could still become one, and so is its stderr up
   to the sentinel.
   */
  lemma LiveIsPrompt(m: Markers, frames: seq<Frame>)
    requires m.Usable() && IndexOf(BytesOf(frames, Stdout), m.start) >= 0 && !After(m, frames).Done()
    ensures var text, now := CommandText(m, BytesOf(frames, Stdout), CutAfterStart(m, frames)), After(m, frames);
      if IndexOf(text, m.pattern) >= 0 then now.liveOut == text[..IndexOf(text, m.pattern)]
      else HeldBack(text, now.liveOut, m.pattern)
    ensures var err, now := BytesOf(frames, Stderr), After(m, frames);
      if IndexOf(err, m.sentinel) >= 0 then now.liveErr == err[..IndexOf(err, m.sentinel)]
      else HeldBack(err, now.liveErr, m.sentinel)
  {
    RunMeaning(m, frames);
    assert frames[..FramesRead(m, frames)] == frames;
    var text, err := CommandText(m, BytesOf(frames, Stdout), CutAfterStart(m, frames)), BytesOf(frames, Stderr);
    HeldBackIs(text, m.pattern);
    HeldBackIs(err, m.sentinel);
  }

  lemma HeldBackIs(text: Bytes, marker: Bytes)
    requires marker != []
    ensures HeldBack(text, text[..|text| - HoldBack(text, marker)], marker)
  {
    var live := |text| - HoldBack(text, marker);
    forall n | 0 <= n < live && |text| - n < |marker|
      ensures text[n..] != marker[..|text| - n]
    {
      if HeldBy(text, marker, |text| - n) {
        HoldBackIsLongest(text, marker, |text| - n);
      }
    }
  }

  lemma DoneIgnores(m: Markers, frames: seq<Frame>)
    requires m.Usable() && frames != [] && After(m, frames[..|frames| - 1]).Done()
    ensures After(m, frames) == After(m, frames[..|frames| - 1])
  {
  }

  /** A run that ended stays as it was, whatever frames were left unread. */
  lemma {:induction false} DoneStays(m: Markers, frames: seq<Frame>, j: nat)
    requires m.Usable() && j <= |frames| && (j == |frames| || After(m, frames[..j]).Done())
    ensures After(m, frames) == After(m, frames[..j])
  {
    if j == |frames| {
      assert frames[..j] == frames;
    } else {
      var init := frames[..|frames| - 1];
      assert init[..j] == frames[..j];
      DoneStays(m, init, j);
      DoneIgnores(m, frames);
    }
  }

  // ----- The record does not depend on the frames -----

  /** The stdout text and exit code of the whole stream, read in one go. */
  function OneShot(m: Markers, out: Bytes): Option<Parsed> {
    if IndexOf(out, m.start) < 0 then None else PendingOf(m, TextAfterStart(m, out))
  }

  ghost predicate NewlineFollowsStart(m: Markers, out: Bytes) {
    var from := IndexOf(out, m.start) + |m.start|;
    IndexOf(out, m.start) >= 0 && from < |out| && out[from] == NEWLINE
  }

  /** The newline after the start marker is kept exactly when a frame ended between the two. */
  ghost predicate KeepsNewline(m: Markers, frames: seq<Frame>) {
    CutAfterStart(m, frames) && NewlineFollowsStart(m, BytesOf(frames, Stdout))
  }

  function WithNewline(p: Parsed, keep: bool): Parsed {
    if keep then p.(text := [NEWLINE] + p.text) else p
  }

  lemma IndexWithNewline(m: Markers, text: Bytes)
    requires m.Usable()
    ensures var i := IndexOf(text, m.pattern); IndexOf([NEWLINE] + text, m.pattern) == if i < 0 then -1 else 1 + i
  {
    var long := [NEWLINE] + text;
    forall i | OccursAt(long, m.pattern, i) ensures 1 <= i {
      assert long[i..i + |m.pattern|][0] == m.pattern[0];
    }
    IndexAfterDrop([NEWLINE], text, m.pattern);
  }

  lemma ParseWithNewline(pattern: Bytes, text: Bytes, index: nat)
    requires index + |pattern| <= |text|
    ensures ParseAt(pattern, [NEWLINE] + text, 1 + index) ==
      match ParseAt(pattern, text, index) case None => None case Some(p) => Some(WithNewline(p, true))
  {
    var long := [NEWLINE] + text;
    assert long[1 + index + |pattern|..] == text[index + |pattern|..];
    assert long[..1 + index] == [NEWLINE] + text[..index];
  }

  /** A kept newline is the only difference: it shifts the end pattern by one byte. */
  lemma PendingWithNewline(m: Markers, text: Bytes)
    requires m.Usable()
    ensures PendingOf(m, [NEWLINE] + text) ==
      match PendingOf(m, text) case None => None case Some(p) => Some(WithNewline(p, true))
  {
    IndexWithNewline(m, text);
    var index := IndexOf(text, m.pattern);
    if index >= 0 {
      ParseWithNewline(m.pattern, text, index);
    }
  }

  lemma CommandTextIs(m: Markers, out: Bytes, cut: bool)
    requires IndexOf(out, m.start) >= 0
    ensures CommandText(m, out, cut) ==
      (if cut && NewlineFollowsStart(m, out) then [NEWLINE] + TextAfterStart(m, out) else TextAfterStart(m, out))
  {
  }

  lemma PendingIsOneShot(m: Markers, out: Bytes, cut: bool)
    requires m.Usable() && IndexOf(out, m.start) >= 0
    ensures PendingOf(m, CommandText(m, out, cut)) ==
      match OneShot(m, out) case None => None case Some(p) => Some(WithNewline(p, cut && NewlineFollowsStart(m, out)))
  {
    CommandTextIs(m, out, cut);
    PendingWithNewline(m, TextAfterStart(m, out));
  }

  lemma OneShotStable(m: Markers, out: Bytes, more: Bytes)
    requires m.Usable() && OneShot(m, out).Some?
    ensures OneShot(m, out + more) == OneShot(m, out)
    ensures NewlineFollowsStart(m, out + more) == NewlineFollowsStart(m, out)
  {
    CommandTextGrows(m, out, more, false);
    PendingStable(m, TextAfterStart(m, out), more);
  }

  /** A cut after the start marker is settled by the frames that already hold the marker. */
  lemma {:induction false} CutSettled(m: Markers, frames: seq<Frame>, n: nat)
    requires m.Usable() && n <= |frames|
    requires IndexOf(BytesOf(frames[..n], Stdout), m.start) >= 0
    ensures CutAfterStart(m, frames) == CutAfterStart(m, frames[..n])
    ensures IndexOf(BytesOf(frames, Stdout), m.start) >= 0
  {
    if n == |frames| {
      assert frames[..n] == frames;
    } else {
      var init, f := frames[..|frames| - 1], frames[|frames| - 1];
      assert init[..n] == frames[..n];
      CutSettled(m, init, n);
      NextCutAfterStart(m, frames);
      IndexStable(BytesOf(init, Stdout), if f.stream == Stdout then f.data else [], m.start);
    }
  }

  /** For the frames the runner has read, its state is a one-shot parse of them. */
  lemma StateIsOneShot(m: Markers, s: Runner, out: Bytes, err: Bytes, cut: bool)
    requires m.Usable() && Meaning(m, s, out, err, cut)
    ensures s.Done() <==> OneShot(m, out).Some? && IndexOf(err, m.sentinel) >= 0
    ensures s.Done() ==>
      && s.pending.value == WithNewline(OneShot(m, out).value, cut && NewlineFollowsStart(m, out))
      && s.stderr == err[..IndexOf(err, m.sentinel)]
  {
    if s.started {
      PendingIsOneShot(m, out, cut);
    }
  }

  lemma BytesSplit(frames: seq<Frame>, n: nat, stream: Stream) returns (more: Bytes)
    requires n <= |frames|
    ensures BytesOf(frames, stream) == BytesOf(frames[..n], stream) + more
  {
    PrefixBytes(frames, n, stream);
    more := BytesOf(frames, stream)[|BytesOf(frames[..n], stream)|..];
  }

  /** Frames left unread after the run ended change nothing a one-shot parse of stdout sees. */
  lemma UnreadStdout(m: Markers, frames: seq<Frame>, n: nat)
    requires m.Usable() && n <= |frames|
    requires OneShot(m, BytesOf(frames[..n], Stdout)).Some?
    ensures OneShot(m, BytesOf(frames, Stdout)) == OneShot(m, BytesOf(frames[..n], Stdout))
    ensures KeepsNewline(m, frames) == KeepsNewline(m, frames[..n])
  {
    var more := BytesSplit(frames, n, Stdout);
    OneShotStable(m, BytesOf(frames[..n], Stdout), more);
    CutSettled(m, frames, n);
  }

  lemma UnreadStderr(m: Markers, frames: seq<Frame>, n: nat)
    requires n <= |frames| && IndexOf(BytesOf(frames[..n], Stderr), m.sentinel) >= 0
    ensures var i := IndexOf(BytesOf(frames, Stderr), m.sentinel);
      i == IndexOf(BytesOf(frames[..n], Stderr), m.sentinel) && BytesOf(frames, Stderr)[..i] == BytesOf(frames[..n], Stderr)[..i]
  {
    var more := BytesSplit(frames, n, Stderr);
    IndexStable(BytesOf(frames[..n], Stderr), more, m.sentinel);
  }

  /**
   A run ends at the markers exactly when the two whole streams hold them, and
   then its stdout, exit code and stderr are those of a one-shot parse of the
   whole streams, except for one kept newline.
   */
  lemma RunIsOneShot(m: Markers, frames: seq<Frame>, sessionExit: int)
    requires m.Usable()
    ensures var out, err := BytesOf(frames, Stdout), BytesOf(frames, Stderr);
      && (After(m, frames).Done() <==> OneShot(m, out).Some? && IndexOf(err, m.sentinel) >= 0)
      && (After(m, frames).Done() ==>
            var p := WithNewline(OneShot(m, out).value, KeepsNewline(m, frames));
            Finish(m, frames, sessionExit).1 == Record(p.text, err[..IndexOf(err, m.sentinel)], p.exitCode))
  {
    RunMeaning(m, frames);
    var n := FramesRead(m, frames);
    var read := frames[..n];
    StateIsOneShot(m, After(m, frames), BytesOf(read, Stdout), BytesOf(read, Stderr), CutAfterStart(m, read));
    if After(m, frames).Done() {
      UnreadStdout(m, frames, n);
      UnreadStderr(m, frames, n);
    } else {
      assert read == frames;
    }
  }

  /** What is recorded of `out` when no start marker came: the end of it, and all of it unless it is long. */
  ghost predicate Untrimmed(m: Markers, out: Bytes, stdout: Bytes) {
    && |stdout| <= |out| && stdout == out[|out| - |stdout|..] && |stdout| <= 2 * |m.start|
    && (if |out| <= 2 * |m.start| then stdout == out else |m.start| <= |stdout|)
  }

  /** A record in terms of the two whole streams and the session's exit code. */
  ghost predicate RecordOf(m: Markers, frames: seq<Frame>, sessionExit: int, rec: Record)
    requires m.Usable()
  {
    var out, err := BytesOf(frames, Stdout), BytesOf(frames, Stderr);
    var started, i := IndexOf(out, m.start) >= 0, IndexOf(err, m.sentinel);
    && rec.stderr == (if i >= 0 then err[..i] else if started then err else [])
    && (if OneShot(m, out).Some? then
          var p := WithNewline(OneShot(m, out).value, KeepsNewline(m, frames));
          rec.stdout == p.text && rec.exitCode == p.exitCode
        else
          && (if started then rec.stdout == CommandText(m, out, CutAfterStart(m, frames)) else Untrimmed(m, out, rec.stdout))
          && rec.exitCode == if sessionExit < 0 then 1 else sessionExit)
  }

  lemma ClosedStderr(m: Markers, s: Runner, out: Bytes, err: Bytes, cut: bool, sessionExit: int)
    requires m.Usable() && Meaning(m, s, out, err, cut) && !s.Done()
    ensures var i := IndexOf(err, m.sentinel);
      Close(s, sessionExit).1.stderr == if i >= 0 then err[..i] else if IndexOf(out, m.start) >= 0 then err else []
  {
  }

  lemma ClosedStdout(m: Markers, s: Runner, out: Bytes, err: Bytes, cut: bool, sessionExit: int)
    requires m.Usable() && Meaning(m, s, out, err, cut) && !s.Done()
    ensures var rec := Close(s, sessionExit).1;
      if OneShot(m, out).Some? then
        var p := WithNewline(OneShot(m, out).value, cut && NewlineFollowsStart(m, out));
        rec.stdout == p.text && rec.exitCode == p.exitCode
      else
        && (if IndexOf(out, m.start) >= 0 then rec.stdout == CommandText(m, out, cut) else Untrimmed(m, out, rec.stdout))
        && rec.exitCode == if sessionExit < 0 then 1 else sessionExit
  {
    if s.started {
      PendingIsOneShot(m, out, cut);
    }
  }

  /**
   The session closed before both ends were read: what an end marker said if one was
   parsed, and otherwise all the command wrote, nothing held back, with the session's
   own exit code.
   */
  lemma ClosedRecord(m: Markers, frames: seq<Frame>, sessionExit: int)
    requires m.Usable() && !After(m, frames).Done()
    ensures RecordOf(m, frames, sessionExit, Finish(m, frames, sessionExit).1)
  {
    RunMeaning(m, frames);
    assert frames[..FramesRead(m, frames)] == frames;
    var out, err := BytesOf(frames, Stdout), BytesOf(frames, Stderr);
    ClosedStderr(m, After(m, frames), out, err, CutAfterStart(m, frames), sessionExit);
    ClosedStdout(m, After(m, frames), out, err, CutAfterStart(m, frames), sessionExit);
  }

  /** Every run, however it ended, records what its streams hold. */
  lemma RunRecord(m: Markers, frames: seq<Frame>, sessionExit: int)
    requires m.Usable()
    ensures RecordOf(m, frames, sessionExit, Finish(m, frames, sessionExit).1)
  {
    if After(m, frames).Done() {
      RunIsOneShot(m, frames, sessionExit);
    } else {
      ClosedRecord(m, frames, sessionExit);
    }
  }

  /** The run has seen the start marker exactly when the whole stdout holds it. */
  lemma StartedIsSeen(m: Markers, frames: seq<Frame>, sessionExit: int)
    requires m.Usable()
    ensures Finish(m, frames, sessionExit).0.started == (IndexOf(BytesOf(frames, Stdout), m.start) >= 0)
  {
    RunMeaning(m, frames);
    var n := FramesRead(m, frames);
    if n < |frames| {
      CutSettled(m, frames, n);
    } else {
      assert frames[..n] == frames;
    }
  }

  // ----- What the wrapper printed is what is recorded -----

  /** The wrapper's two streams: noise, the start marker, the command's output, the end marker with its status. */
  ghost predicate Printed(m: Markers, frames: seq<Frame>, noise: Bytes, output: Bytes, errors: Bytes, status: nat) {
    && (exists tail: Bytes :: BytesOf(frames, Stdout) ==
          noise + m.start + ([NEWLINE] + (output + m.pattern + (Decimal(status) + [NEWLINE] + tail))))
    && (exists tail: Bytes :: BytesOf(frames, Stderr) == errors + m.sentinel + tail)
  }

  lemma StatusLine(status: nat, tail: Bytes)
    requires status < 0x8000_0000
    ensures var line := Decimal(status) + [NEWLINE] + tail;
      var end := IndexOf(line, [NEWLINE]);
      end >= 0 && ExitCode(line[..end]) == status
  {
    ExitCodeOfDecimal(status);
    UnborderedIndex(Decimal(status), [NEWLINE], tail);
    assert (Decimal(status) + [NEWLINE] + tail)[..|Decimal(status)|] == Decimal(status);
  }

  lemma PendingOfPrinted(m: Markers, output: Bytes, status: nat, tail: Bytes)
    requires m.Usable() && Unbordered(m.pattern) && status < 0x8000_0000
    requires IndexOf(output, m.pattern) < 0
    ensures PendingOf(m, output + m.pattern + (Decimal(status) + [NEWLINE] + tail)) == Some(Parsed(output, status))
  {
    var line := Decimal(status) + [NEWLINE] + tail;
    var text := output + m.pattern + line;
    UnborderedIndex(output, m.pattern, line);
    assert text[|output| + |m.pattern|..] == line;
    assert text[..|output|] == output;
    StatusLine(status, tail);
  }

  lemma OneShotOfPrinted(m: Markers, noise: Bytes, output: Bytes, status: nat, tail: Bytes)
    requires m.Usable() && Unbordered(m.pattern) && status < 0x8000_0000
    requires IndexOf(noise + m.start, m.start) == |noise| && IndexOf(output, m.pattern) < 0
    ensures var out := noise + m.start + ([NEWLINE] + (output + m.pattern + (Decimal(status) + [NEWLINE] + tail)));
      OneShot(m, out) == Some(Parsed(output, status)) && NewlineFollowsStart(m, out)
  {
    var text := output + m.pattern + (Decimal(status) + [NEWLINE] + tail);
    var out := noise + m.start + ([NEWLINE] + text);
    IndexStable(noise + m.start, [NEWLINE] + text, m.start);
    assert out[|noise| + |m.start|..] == [NEWLINE] + text;
    assert TextAfterStart(m, out) == text;
    PendingOfPrinted(m, output, status, tail);
  }

  /**
   The round trip: however the shell's two pipes are cut and interleaved, the
   command's own stdout, stderr and status come back, provided the shell's own
   noise does not hold a start marker and the output holds no end marker.
   */
  lemma WrapperRoundTrip(id: Bytes, frames: seq<Frame>, noise: Bytes, output: Bytes, errors: Bytes, status: nat, sessionExit: int)
    requires CommandId(id) && status < 0x8000_0000
    requires var m := MarkersFor(id);
      && Printed(m, frames, noise, output, errors, status)
      && IndexOf(noise + m.start, m.start) == |noise|
      && IndexOf(output, m.pattern) < 0 && IndexOf(errors, m.sentinel) < 0
    ensures MarkersFor(id).Usable()
    ensures var m := MarkersFor(id);
      var text := if CutAfterStart(m, frames) then [NEWLINE] + output else output;
      && After(m, frames).Done()
      && Finish(m, frames, sessionExit).1 == Record(text, errors, status)
      && Finish(m, frames, sessionExit).0.liveOut == text
      && Finish(m, frames, sessionExit).0.liveErr == errors
  {
    MarkersDoNotOverlap(id);
    var m := MarkersFor(id);
    var tail :| BytesOf(frames, Stdout) ==
      noise + m.start + ([NEWLINE] + (output + m.pattern + (Decimal(status) + [NEWLINE] + tail)));
    OneShotOfPrinted(m, noise, output, status, tail);
    var rest :| BytesOf(frames, Stderr) == errors + m.sentinel + rest;
    UnborderedIndex(errors, m.sentinel, rest);
    assert (errors + m.sentinel + rest)[..|errors|] == errors;
    RunIsOneShot(m, frames, sessionExit);
    FinalLive(m, frames, sessionExit);
    RunMeaning(m, frames);
  }
}
