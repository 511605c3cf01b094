/**
 The session command runner: it reads a shell's stdout and stderr as frames,
 finds the start marker, the end marker and the stderr sentinel wherever the
 frames happen to be cut, publishes bytes live while holding back whatever could
 still turn into a marker, and records the command's output once.
 */
module CommandRunner {
  import opened Options
  import opened ByteStrings
  import opened SessionMarkers

  datatype Stream = Stdout | Stderr
  datatype Frame = Frame(stream: Stream, data: Bytes)

  /** A parsed end marker: the command's stdout and its exit code. */
  datatype Parsed = Parsed(text: Bytes, exitCode: int)

  /** What finishCommand stores. */
  datatype Record = Record(stdout: Bytes, stderr: Bytes, exitCode: int)

  /**
   The runner's buffers and flags between two frames. `liveOut` and `liveErr` are
   the bytes broadcast so far.
   */
  datatype Runner = Runner(
    stdout: Bytes, stderr: Bytes,
    started: bool, stderrDone: bool,
    outSent: nat, errSent: nat,
    pending: Option<Parsed>,
    liveOut: Bytes, liveErr: Bytes)
  {
    /** The runner returns as soon as both streams are complete. */
    predicate Done() {
      pending.Some? && stderrDone
    }
  }

  const INIT := Runner([], [], false, false, 0, 0, None, [], [])

  // ----- One frame -----

  function PublishStderr(m: Markers, s: Runner): Runner
    requires m.sentinel != []
  {
    if !s.started && !s.stderrDone then s
    else
      var safe := |s.stderr| - (if s.stderrDone then 0 else HoldBack(s.stderr, m.sentinel));
      if safe > s.errSent
      then s.(liveErr := s.liveErr + s.stderr[s.errSent..safe], errSent := safe)
      else s
  }

  /** absorbDaytonaErrSentinel, then publish; after the sentinel stderr is ignored. */
  function OnStderr(m: Markers, s: Runner, chunk: Bytes): Runner
    requires m.sentinel != []
  {
    if s.stderrDone then s
    else
      var captured := s.stderr + chunk;
      var i := IndexOf(captured, m.sentinel);
      PublishStderr(m, if i < 0 then s.(stderr := captured) else s.(stderr := captured[..i], stderrDone := true))
  }

  function SendOut(s: Runner, upTo: nat): Runner
    requires upTo <= |s.stdout|
  {
    if upTo > s.outSent
    then s.(liveOut := s.liveOut + s.stdout[s.outSent..upTo], outSent := upTo)
    else s
  }

  /** The exit-code line after the end pattern at `index`, once its newline has arrived. */
  function ParseAt(pattern: Bytes, captured: Bytes, index: nat): Option<Parsed>
    requires index + |pattern| <= |captured|
  {
    var rest := captured[index + |pattern|..];
    var lineEnd := IndexOf(rest, [NEWLINE]);
    if lineEnd < 0 then None else Some(Parsed(captured[..index], ExitCode(rest[..lineEnd])))
  }

  /** How much of stdout may be sent: up to the end pattern, or up to what could still become one. */
  function SafeOut(m: Markers, text: Bytes): (n: nat)
    requires m.pattern != []
    ensures n <= |text|
  {
    var index := IndexOf(text, m.pattern);
    if index >= 0 then index else |text| - HoldBack(text, m.pattern)
  }

  /** The end marker and its exit code, once both are in `text`. */
  function PendingOf(m: Markers, text: Bytes): Option<Parsed> {
    var index := IndexOf(text, m.pattern);
    if index < 0 then None else ParseAt(m.pattern, text, index)
  }

  /** After the start marker: look for the end pattern, publish what is safe. */
  function ScanEnd(m: Markers, s: Runner): Runner
    requires m.pattern != []
  {
    var sent := SendOut(s, SafeOut(m, s.stdout));
    var parsed := PendingOf(m, s.stdout);
    if parsed.None? then sent else sent.(pending := parsed)
  }

  function TrimNewline(s: Bytes): Bytes {
    if s != [] && s[0] == NEWLINE then s[1..] else s
  }

  /** What follows the start marker in `captured`, without a newline right after it. */
  function TextAfterStart(m: Markers, captured: Bytes): Bytes
    requires IndexOf(captured, m.start) >= 0
  {
    TrimNewline(captured[IndexOf(captured, m.start) + |m.start|..])
  }

  /** The start marker has been found and `text` follows it: held stderr is released, and the scan begins. */
  function OnStart(m: Markers, s: Runner, text: Bytes): Runner
    requires m.Usable()
  {
    ScanEnd(m, PublishStderr(m, s.(started := true, stdout := text, outSent := 0)))
  }

  /** Before the start marker a long buffer is cut to its last bytes, as many as the marker has. */
  function KeepTail(m: Markers, captured: Bytes): Bytes {
    if |captured| > 2 * |m.start| then captured[|captured| - |m.start|..] else captured
  }

  function OnStdout(m: Markers, s: Runner, chunk: Bytes): Runner
    requires m.Usable()
  {
    var captured := s.stdout + chunk;
    if s.started then ScanEnd(m, s.(stdout := captured))
    else
      var index := IndexOf(captured, m.start);
      if index < 0 then
        s.(stdout := KeepTail(m, captured))
      else
        OnStart(m, s, TextAfterStart(m, captured))
  }

  function Step(m: Markers, s: Runner, f: Frame): Runner
    requires m.Usable()
  {
    if f.stream == Stderr then OnStderr(m, s, f.data) else OnStdout(m, s, f.data)
  }

  // ----- A whole run -----

  /** How many frames the runner reads before it returns. */
  function FramesRead(m: Markers, frames: seq<Frame>): (n: nat)
    requires m.Usable()
    ensures n <= |frames|
  {
    if frames == [] then 0
    else
      var n := FramesRead(m, frames[..|frames| - 1]);
      if n < |frames| - 1 || After(m, frames[..|frames| - 1]).Done() then n else n + 1
  }

  /** The runner's state once `frames` have been offered to it. */
  function After(m: Markers, frames: seq<Frame>): Runner
    requires m.Usable()
  {
    if frames == [] then INIT
    else
      var s := After(m, frames[..|frames| - 1]);
      if s.Done() then s else Step(m, s, frames[|frames| - 1])
  }

  /** The session closed: whatever is still held back is the command's own output. */
  function FlushStderr(s: Runner): Runner {
    if !s.started && !s.stderrDone then s
    else if |s.stderr| > s.errSent
    then s.(liveErr := s.liveErr + s.stderr[s.errSent..], errSent := |s.stderr|)
    else s
  }

  /** The last state and the record, once `s` has ended at the markers or the session has closed. */
  function Close(s: Runner, sessionExit: int): (Runner, Record) {
    if s.Done() then
      (s, Record(s.pending.value.text, s.stderr, s.pending.value.exitCode))
    else if s.pending.Some? then
      (FlushStderr(s), Record(s.pending.value.text, s.stderr, s.pending.value.exitCode))
    else
      var t := if !s.started && !s.stderrDone then s.(stderr := []) else s;
      var flushed := if t.started then SendOut(t, |t.stdout|) else t;
      (FlushStderr(flushed), Record(t.stdout, t.stderr, if sessionExit < 0 then 1 else sessionExit))
  }

  /** The last state and the record of a run over `frames`, after which the session closes. */
  function Finish(m: Markers, frames: seq<Frame>, sessionExit: int): (Runner, Record)
    requires m.Usable()
  {
    Close(After(m, frames), sessionExit)
  }

  function BytesOf(frames: seq<Frame>, stream: Stream): Bytes {
    if frames == [] then []
    else
      var f := frames[|frames| - 1];
      BytesOf(frames[..|frames| - 1], stream) + if f.stream == stream then f.data else []
  }

  // ----- What the state means, in terms of the bytes read so far -----

  /**
   Everything after the first start marker. The newline after the marker is
   dropped, unless a frame ended between the two (`cut`).
   */
  ghost function CommandText(m: Markers, out: Bytes, cut: bool): Bytes
    requires IndexOf(out, m.start) >= 0
  {
    var rest := out[IndexOf(out, m.start) + |m.start|..];
    if cut then rest else TrimNewline(rest)
  }

  ghost predicate OutBefore(m: Markers, s: Runner, out: Bytes) {
    && IndexOf(out, m.start) < 0
    && s.pending.None? && s.outSent == 0 && s.liveOut == []
    && |s.stdout| <= |out| && s.stdout == out[|out| - |s.stdout|..]
    && |s.stdout| <= 2 * |m.start| && (s.stdout == out || (|m.start| <= |s.stdout| && 2 * |m.start| < |out|))
  }

  ghost predicate OutAfter(m: Markers, s: Runner, text: Bytes)
    requires m.pattern != []
  {
    && s.stdout == text
    && s.outSent == SafeOut(m, text) && s.liveOut == text[..s.outSent]
    && s.pending == PendingOf(m, text)
  }

  ghost predicate ErrMeaning(m: Markers, s: Runner, err: Bytes)
    requires m.sentinel != []
  {
    var i := IndexOf(err, m.sentinel);
    && s.stderrDone == (i >= 0)
    && s.stderr == (if i >= 0 then err[..i] else err)
    && s.errSent <= |s.stderr| && s.liveErr == s.stderr[..s.errSent]
    && s.errSent == (if s.stderrDone then |s.stderr|
                     else if s.started then |s.stderr| - HoldBack(s.stderr, m.sentinel)
                     else 0)
  }

  /** `cut`: a frame ended right after the start marker. Without a cut something already follows it. */
  ghost predicate Meaning(m: Markers, s: Runner, out: Bytes, err: Bytes, cut: bool)
    requires m.Usable()
  {
    var index := IndexOf(out, m.start);
    && s.started == (index >= 0)
    && (if s.started then OutAfter(m, s, CommandText(m, out, cut)) else OutBefore(m, s, out))
    && (s.started && !cut ==> index + |m.start| < |out|)
    && ErrMeaning(m, s, err)
  }

  // ----- Every step keeps the meaning -----

  lemma PublishStderrMeaning(m: Markers, s: Runner, err: Bytes)
    requires m.Usable()
    requires var i := IndexOf(err, m.sentinel);
      && s.stderrDone == (i >= 0)
      && s.stderr == (if i >= 0 then err[..i] else err)
    requires s.errSent <= |s.stderr| && s.liveErr == s.stderr[..s.errSent]
    requires !s.started && !s.stderrDone ==> s.errSent == 0
    requires !s.stderrDone ==> s.errSent <= |s.stderr| - HoldBack(s.stderr, m.sentinel)
    ensures ErrMeaning(m, PublishStderr(m, s), err)
  {
  }

  lemma OnStderrMeaning(m: Markers, s: Runner, err: Bytes, chunk: Bytes)
    requires m.Usable() && ErrMeaning(m, s, err)
    ensures ErrMeaning(m, OnStderr(m, s, chunk), err + chunk)
  {
    if s.stderrDone {
      IndexStable(err, chunk, m.sentinel);
      var i := IndexOf(err, m.sentinel);
      assert (err + chunk)[..i] == err[..i];
    } else {
      var captured := err + chunk;
      var i := IndexOf(captured, m.sentinel);
      SafeLengthGrows(err, chunk, m.sentinel);
      if i >= 0 {
        HoldBackCoversOccurrence(err, chunk, m.sentinel, i);
      }
      var t := if i < 0 then s.(stderr := captured) else s.(stderr := captured[..i], stderrDone := true);
      assert t.stderr[..s.errSent] == err[..s.errSent];
      PublishStderrMeaning(m, t, captured);
    }
  }

  /** Sending up to a point past what was sent extends the live bytes to exactly that point. */
  lemma SendOutTo(s: Runner, upTo: nat)
    requires s.outSent <= upTo <= |s.stdout| && s.liveOut == s.stdout[..s.outSent]
    ensures var r := SendOut(s, upTo); r == s.(outSent := upTo, liveOut := s.stdout[..upTo])
  {
  }

  lemma SafeOutGrows(m: Markers, a: Bytes, b: Bytes)
    requires m.pattern != []
    ensures SafeOut(m, a) <= SafeOut(m, a + b)
  {
    if IndexOf(a, m.pattern) >= 0 {
      IndexStable(a, b, m.pattern);
    } else {
      SafeLengthGrows(a, b, m.pattern);
      if IndexOf(a + b, m.pattern) >= 0 {
        HoldBackCoversOccurrence(a, b, m.pattern, IndexOf(a + b, m.pattern));
      }
    }
  }

  lemma PendingStable(m: Markers, a: Bytes, b: Bytes)
    ensures PendingOf(m, a).Some? ==> PendingOf(m, a + b) == PendingOf(m, a)
  {
    if IndexOf(a, m.pattern) >= 0 {
      IndexStable(a, b, m.pattern);
      ParseStable(m.pattern, a, b, IndexOf(a, m.pattern));
    }
  }

  /** Scanning a text the buffer has grown into restores the meaning of the stdout side. */
  lemma ScanEndMeaning(m: Markers, s: Runner, was: Bytes, more: Bytes)
    requires m.Usable()
    requires OutAfter(m, s.(stdout := was), was) && s.stdout == was + more
    ensures OutAfter(m, ScanEnd(m, s), was + more)
    ensures var r := ScanEnd(m, s); r == s.(pending := r.pending, outSent := r.outSent, liveOut := r.liveOut)
  {
    var text := was + more;
    assert text[..s.outSent] == was[..s.outSent];
    SafeOutGrows(m, was, more);
    PendingStable(m, was, more);
    SendOutTo(s, SafeOut(m, text));
  }

  /** A parsed exit code does not change when more output follows it. */
  lemma ParseStable(pattern: Bytes, a: Bytes, b: Bytes, index: nat)
    requires index + |pattern| <= |a|
    ensures ParseAt(pattern, a, index).Some? ==> ParseAt(pattern, a + b, index) == ParseAt(pattern, a, index)
  {
    var rest := a[index + |pattern|..];
    assert (a + b)[index + |pattern|..] == rest + b;
    assert (a + b)[..index] == a[..index];
    var lineEnd := IndexOf(rest, [NEWLINE]);
    if lineEnd >= 0 {
      IndexStable(rest, b, [NEWLINE]);
      assert (rest + b)[..lineEnd] == rest[..lineEnd];
    }
  }

  /** Pre-start trimming never loses the start marker: it is found where the whole stream has it. */
  lemma TrimmedSearch(m: Markers, s: Runner, out: Bytes, chunk: Bytes)
    requires m.Usable() && OutBefore(m, s, out)
    ensures var dropped := |out| - |s.stdout|;
      IndexOf(out + chunk, m.start) ==
        (if IndexOf(s.stdout + chunk, m.start) < 0 then -1 else dropped + IndexOf(s.stdout + chunk, m.start))
  {
    var head := out[..|out| - |s.stdout|];
    assert out + chunk == head + (s.stdout + chunk);
    forall i | OccursAt(head + (s.stdout + chunk), m.start, i) ensures |head| <= i {
      NewOccurrenceIsLate(out, chunk, m.start, i);
    }
    IndexAfterDrop(head, s.stdout + chunk, m.start);
  }

  /** Once started, the command's text grows by exactly the stdout bytes that arrive. */
  lemma CommandTextGrows(m: Markers, out: Bytes, more: Bytes, cut: bool)
    requires IndexOf(out, m.start) >= 0
    requires !cut ==> IndexOf(out, m.start) + |m.start| < |out|
    ensures IndexOf(out + more, m.start) == IndexOf(out, m.start)
    ensures CommandText(m, out + more, cut) == CommandText(m, out, cut) + more
  {
    IndexStable(out, more, m.start);
    var from := IndexOf(out, m.start) + |m.start|;
    assert (out + more)[from..] == out[from..] + more;
    if !cut {
      assert out[from..] != [];
    }
  }

  lemma EmptyText(m: Markers, s: Runner)
    requires m.Usable() && s.outSent == 0 && s.liveOut == [] && s.pending.None?
    ensures OutAfter(m, s.(stdout := []), [])
  {
  }

  lemma OnStartedMeaning(m: Markers, s: Runner, out: Bytes, err: Bytes, cut: bool, chunk: Bytes)
    requires m.Usable() && Meaning(m, s, out, err, cut) && s.started
    ensures Meaning(m, OnStdout(m, s, chunk), out + chunk, err, cut)
  {
    CommandTextGrows(m, out, chunk, cut);
    ScanEndMeaning(m, s.(stdout := s.stdout + chunk), s.stdout, chunk);
  }

  /** What follows an offset is the same before and after dropping bytes in front of it. */
  lemma SameRest(all: Bytes, dropped: nat, from: nat)
    requires dropped + from <= |all|
    ensures all[dropped + from..] == all[dropped..][from..]
  {
  }

  lemma StartFoundIn(m: Markers, all: Bytes, captured: Bytes, dropped: nat)
    requires dropped <= |all| && captured == all[dropped..]
    requires IndexOf(captured, m.start) >= 0 && IndexOf(all, m.start) == dropped + IndexOf(captured, m.start)
    ensures TextAfterStart(m, captured) == CommandText(m, all, IndexOf(all, m.start) + |m.start| == |all|)
  {
    SameRest(all, dropped, IndexOf(captured, m.start) + |m.start|);
  }

  lemma StartFoundText(m: Markers, s: Runner, out: Bytes, chunk: Bytes)
    requires m.Usable() && OutBefore(m, s, out)
    requires IndexOf(out + chunk, m.start) >= 0
    ensures IndexOf(s.stdout + chunk, m.start) >= 0
    ensures TextAfterStart(m, s.stdout + chunk) == CommandText(m, out + chunk, IndexOf(out + chunk, m.start) + |m.start| == |out + chunk|)
  {
    TrimmedSearch(m, s, out, chunk);
    var dropped := |out| - |s.stdout|;
    assert s.stdout + chunk == (out + chunk)[dropped..];
    StartFoundIn(m, out + chunk, s.stdout + chunk, dropped);
  }

  lemma StartFoundState(m: Markers, s: Runner, err: Bytes, text: Bytes)
    requires m.Usable() && ErrMeaning(m, s, err) && !s.started
    requires s.outSent == 0 && s.liveOut == [] && s.pending.None?
    ensures var r := OnStart(m, s, text);
      r.started && OutAfter(m, r, text) && ErrMeaning(m, r, err)
  {
    var t := s.(started := true, stdout := text, outSent := 0);
    PublishStderrMeaning(m, t, err);
    var u := PublishStderr(m, t);
    EmptyText(m, u);
    assert [] + text == text;
    ScanEndMeaning(m, u, [], text);
  }

  lemma OnStdoutStarts(m: Markers, s: Runner, chunk: Bytes)
    requires m.Usable() && !s.started && IndexOf(s.stdout + chunk, m.start) >= 0
    ensures OnStdout(m, s, chunk) == OnStart(m, s, TextAfterStart(m, s.stdout + chunk))
  {
  }

  /** The frame that completes the start marker opens the command's text. */
  lemma StartFoundMeaning(m: Markers, s: Runner, out: Bytes, err: Bytes, chunk: Bytes)
    requires m.Usable() && Meaning(m, s, out, err, false) && !s.started
    requires IndexOf(out + chunk, m.start) >= 0
    ensures Meaning(m, OnStdout(m, s, chunk), out + chunk, err, IndexOf(out + chunk, m.start) + |m.start| == |out + chunk|)
  {
    StartFoundText(m, s, out, chunk);
    OnStdoutStarts(m, s, chunk);
    StartFoundState(m, s, err, TextAfterStart(m, s.stdout + chunk));
    MeaningFromText(m, OnStdout(m, s, chunk), out + chunk, err, TextAfterStart(m, s.stdout + chunk));
  }

  lemma MeaningFromText(m: Markers, r: Runner, out: Bytes, err: Bytes, text: Bytes)
    requires m.Usable() && r.started && OutAfter(m, r, text) && ErrMeaning(m, r, err)
    requires IndexOf(out, m.start) >= 0 && text == CommandText(m, out, IndexOf(out, m.start) + |m.start| == |out|)
    ensures Meaning(m, r, out, err, IndexOf(out, m.start) + |m.start| == |out|)
  {
  }

  lemma OnStdoutWaits(m: Markers, s: Runner, chunk: Bytes)
    requires m.Usable() && !s.started && IndexOf(s.stdout + chunk, m.start) < 0
    ensures OnStdout(m, s, chunk) == s.(stdout := KeepTail(m, s.stdout + chunk))
  {
  }

  lemma NoStartMeaning(m: Markers, s: Runner, out: Bytes, err: Bytes, chunk: Bytes)
    requires m.Usable() && Meaning(m, s, out, err, false) && !s.started
    requires IndexOf(out + chunk, m.start) < 0
    ensures Meaning(m, OnStdout(m, s, chunk), out + chunk, err, false)
  {
    TrimmedSearch(m, s, out, chunk);
    OnStdoutWaits(m, s, chunk);
    SuffixGrows(out, s.stdout, chunk);
    NoStartState(m, s, out + chunk, s.stdout + chunk);
  }

  lemma SuffixGrows(out: Bytes, tail: Bytes, chunk: Bytes)
    requires |tail| <= |out| && tail == out[|out| - |tail|..]
    ensures tail + chunk == (out + chunk)[|out + chunk| - |tail + chunk|..]
  {
  }

  lemma NoStartState(m: Markers, s: Runner, out: Bytes, captured: Bytes)
    requires m.Usable() && IndexOf(out, m.start) < 0
    requires s.pending.None? && s.outSent == 0 && s.liveOut == []
    requires |captured| <= |out| && captured == out[|out| - |captured|..]
    requires captured == out || (|m.start| <= |captured| && 2 * |m.start| < |out|)
    ensures OutBefore(m, s.(stdout := KeepTail(m, captured)), out)
  {
  }

  ghost function NextCut(m: Markers, out: Bytes, cut: bool, more: Bytes): bool {
    if IndexOf(out, m.start) >= 0 then cut
    else IndexOf(out + more, m.start) >= 0 && IndexOf(out + more, m.start) + |m.start| == |out + more|
  }

  lemma StepMeaning(m: Markers, s: Runner, out: Bytes, err: Bytes, cut: bool, f: Frame)
    requires m.Usable() && Meaning(m, s, out, err, cut) && (!s.started ==> !cut)
    ensures f.stream == Stdout ==> Meaning(m, Step(m, s, f), out + f.data, err, NextCut(m, out, cut, f.data))
    ensures f.stream == Stderr ==> Meaning(m, Step(m, s, f), out, err + f.data, cut)
  {
    if f.stream == Stderr {
      OnStderrMeaning(m, s, err, f.data);
    } else if s.started {
      OnStartedMeaning(m, s, out, err, cut, f.data);
    } else if IndexOf(out + f.data, m.start) >= 0 {
      StartFoundMeaning(m, s, out, err, f.data);
    } else {
      NoStartMeaning(m, s, out, err, f.data);
    }
  }

  // ----- Frame boundaries -----

  /** A frame boundary falls right after the first `pos` bytes of stdout. */
  ghost predicate CutAt(frames: seq<Frame>, pos: nat) {
    exists j :: 0 <= j <= |frames| && |BytesOf(frames[..j], Stdout)| == pos
  }

  /** A frame boundary falls right after the first start marker. */
  ghost predicate CutAfterStart(m: Markers, frames: seq<Frame>) {
    var index := IndexOf(BytesOf(frames, Stdout), m.start);
    index >= 0 && CutAt(frames, index + |m.start|)
  }

  lemma {:induction false} PrefixBytes(frames: seq<Frame>, j: nat, stream: Stream)
    requires j <= |frames|
    ensures BytesOf(frames[..j], stream) <= BytesOf(frames, stream)
  {
    if j < |frames| {
      PrefixBytes(frames[..|frames| - 1], j, stream);
      assert frames[..|frames| - 1][..j] == frames[..j];
    } else {
      assert frames[..j] == frames;
    }
  }

  /** A frame cuts stdout at its end and nowhere past it, and keeps the earlier cuts. */
  lemma CutStep(frames: seq<Frame>, pos: nat)
    requires frames != []
    ensures CutAt(frames, pos) <==> CutAt(frames[..|frames| - 1], pos) || pos == |BytesOf(frames, Stdout)|
  {
    var init := frames[..|frames| - 1];
    assert frames[..|frames|] == frames;
    forall j | 0 <= j <= |init| ensures init[..j] == frames[..j] {
    }
    if CutAt(init, pos) {
      var j :| 0 <= j <= |init| && |BytesOf(init[..j], Stdout)| == pos;
      assert |BytesOf(frames[..j], Stdout)| == pos;
    }
    if CutAt(frames, pos) {
      var j :| 0 <= j <= |frames| && |BytesOf(frames[..j], Stdout)| == pos;
      if j < |frames| {
        assert |BytesOf(init[..j], Stdout)| == pos;
      }
    }
  }

  lemma CutBound(frames: seq<Frame>, pos: nat)
    requires CutAt(frames, pos)
    ensures pos <= |BytesOf(frames, Stdout)|
  {
    var j :| 0 <= j <= |frames| && |BytesOf(frames[..j], Stdout)| == pos;
    PrefixBytes(frames, j, Stdout);
  }

  lemma CutHere(frames: seq<Frame>)
    ensures CutAt(frames, |BytesOf(frames, Stdout)|)
  {
    assert frames[..|frames|] == frames;
    assert |BytesOf(frames[..|frames|], Stdout)| == |BytesOf(frames, Stdout)|;
  }

  /** NextCut follows the cut after the start marker from frame to frame. */
  lemma NextCutAfterStart(m: Markers, frames: seq<Frame>)
    requires m.Usable() && frames != []
    ensures var init, f := frames[..|frames| - 1], frames[|frames| - 1];
      CutAfterStart(m, frames) ==
        if f.stream == Stdout then NextCut(m, BytesOf(init, Stdout), CutAfterStart(m, init), f.data) else CutAfterStart(m, init)
  {
    var init, f := frames[..|frames| - 1], frames[|frames| - 1];
    var was := BytesOf(init, Stdout);
    var more := if f.stream == Stdout then f.data else [];
    assert BytesOf(frames, Stdout) == was + more;
    var index := IndexOf(was + more, m.start);
    if IndexOf(was, m.start) >= 0 {
      IndexStable(was, more, m.start);
      CutStep(frames, index + |m.start|);
      if index + |m.start| == |was + more| {
        assert |was| == |was + more|;
        CutHere(init);
      }
    } else if index >= 0 {
      NewOccurrenceIsLate(was, more, m.start, index);
      CutStep(frames, index + |m.start|);
      if CutAt(init, index + |m.start|) {
        CutBound(init, index + |m.start|);
      }
    }
  }

  // ----- Whole runs -----

  ghost predicate RunInvariant(m: Markers, s: Runner, frames: seq<Frame>)
    requires m.Usable()
  {
    Meaning(m, s, BytesOf(frames, Stdout), BytesOf(frames, Stderr), CutAfterStart(m, frames))
  }

  lemma RunStep(m: Markers, s: Runner, frames: seq<Frame>)
    requires m.Usable() && frames != []
    requires RunInvariant(m, s, frames[..|frames| - 1])
    ensures RunInvariant(m, Step(m, s, frames[|frames| - 1]), frames)
  {
    var init, f := frames[..|frames| - 1], frames[|frames| - 1];
    var out, err, cut := BytesOf(init, Stdout), BytesOf(init, Stderr), CutAfterStart(m, init);
    NextCutAfterStart(m, frames);
    StepMeaning(m, s, out, err, cut, f);
    if f.stream == Stdout {
      assert BytesOf(frames, Stdout) == out + f.data && BytesOf(frames, Stderr) == err + [] == err;
    } else {
      assert BytesOf(frames, Stdout) == out + [] == out && BytesOf(frames, Stderr) == err + f.data;
    }
  }

  /** For every chunking and interleaving, the state is what the bytes read so far determine. */
  lemma {:induction false} RunMeaning(m: Markers, frames: seq<Frame>)
    requires m.Usable()
    ensures RunInvariant(m, After(m, frames), frames[..FramesRead(m, frames)])
    ensures FramesRead(m, frames) < |frames| ==> After(m, frames).Done()
  {
    if frames == [] {
      InitMeaning(m);
    } else {
      var init := frames[..|frames| - 1];
      RunMeaning(m, init);
      var n := FramesRead(m, init);
      if n < |init| || After(m, init).Done() {
        assert init[..n] == frames[..n];
      } else {
        assert init[..n] == init;
        assert frames[..FramesRead(m, frames)] == frames;
        RunStep(m, After(m, init), frames);
      }
    }
  }

  lemma InitMeaning(m: Markers)
    requires m.Usable()
    ensures RunInvariant(m, INIT, [])
  {
  }
}
