/**
 A follower of a running command, put together from the runner, the live stream
 and the wire: what it is handed against what the command's record keeps.
 */
module CommandFollow {
  import opened ByteStrings
  import opened Collections
  import opened SessionMarkers
  import opened CommandFrames
  import opened CommandRunner
  import opened CommandRuns
  import opened CommandLogs
  import CommandStream

  /** What a run of the stream broadcast, in order. */
  function Sent(events: seq<CommandStream.Event>): seq<Frame> {
    if events == [] then []
    else
      var e := events[0];
      (if e.Broadcasts? then [Frame(e.stream, e.chunk)] else []) + Sent(events[1..])
  }

  ghost predicate FinishIsLast(events: seq<CommandStream.Event>) {
    forall i, j :: 0 <= i < j < |events| && events[i].Finishes? ==> !events[j].Broadcasts?
  }

  ghost predicate NothingSent(events: seq<CommandStream.Event>) {
    forall i :: 0 <= i < |events| ==> !events[i].Broadcasts?
  }

  lemma SentByStep(r: CommandStream.State, e: CommandStream.Event, stream: Stream)
    requires CommandStream.Inv(r) && CommandStream.Enabled(r, e)
    ensures CommandStream.Step(r, e).Text(stream) ==
      r.Text(stream) + if e.Broadcasts? && e.stream == stream then e.chunk else []
  {
  }

  lemma SentFirst(events: seq<CommandStream.Event>, stream: Stream)
    requires events != []
    ensures var e := events[0];
      BytesOf(Sent(events), stream) ==
        (if e.Broadcasts? && e.stream == stream then e.chunk else []) + BytesOf(Sent(events[1..]), stream)
  {
    if events[0].Broadcasts? {
      BytesOfFirst(Frame(events[0].stream, events[0].chunk), Sent(events[1..]), stream);
    } else {
      assert [] + Sent(events[1..]) == Sent(events[1..]);
    }
  }

  lemma {:induction false} TextIsSent(r: CommandStream.State, events: seq<CommandStream.Event>, s: CommandStream.State, stream: Stream)
    requires CommandStream.Inv(r) && CommandStream.Run(r, events, s)
    ensures s.Text(stream) == r.Text(stream) + BytesOf(Sent(events), stream)
    decreases |events|
  {
    if events != [] {
      CommandStream.StepKeeps(r, events[0]);
      TextIsSent(CommandStream.Step(r, events[0]), events[1..], s, stream);
      SentByStep(r, events[0], stream);
      SentFirst(events, stream);
      var own := if events[0].Broadcasts? && events[0].stream == stream then events[0].chunk else [];
      JoinedInTurn(r.Text(stream), own, BytesOf(Sent(events[1..]), stream));
    }
  }

  ghost predicate NoneAfter(s: CommandStream.State) {
    s.finished ==> s.stdout == s.sealedOut && s.stderr == s.sealedErr
  }

  lemma {:induction false} NothingAfterFinish(r: CommandStream.State, events: seq<CommandStream.Event>, s: CommandStream.State)
    requires CommandStream.Inv(r) && CommandStream.Run(r, events, s) && FinishIsLast(events)
    requires NoneAfter(r) && (r.finished ==> NothingSent(events))
    ensures NoneAfter(s)
    decreases |events|
  {
    if events != [] {
      var t := CommandStream.Step(r, events[0]);
      CommandStream.StepKeeps(r, events[0]);
      assert forall i :: 0 <= i < |events[1..]| ==> events[1..][i] == events[i + 1];
      NothingAfterFinish(t, events[1..], s);
    }
  }

  /** A follower that missed no frame has been handed all that was broadcast. */
  lemma FollowerSeesAllSent(events: seq<CommandStream.Event>, s: CommandStream.State, id: nat, stream: Stream)
    requires CommandStream.Run(CommandStream.EMPTY_STREAM, events, s) && FinishIsLast(events)
    requires id in s.channels && !s.channels[id].missed
    ensures s.channels[id].Sees(stream) == BytesOf(Sent(events), stream)
  {
    TextIsSent(CommandStream.EMPTY_STREAM, events, s, stream);
    NothingAfterFinish(CommandStream.EMPTY_STREAM, events, s);
    CommandStream.EveryRun(events, s);
  }

  // ----- What the runner does to the stream -----

  function Chunk(stream: Stream, before: Bytes, after: Bytes): seq<Frame>
    requires before <= after
  {
    if |before| < |after| then [Frame(stream, after[|before|..])] else []
  }

  /** The broadcasts while these frames are read; of one frame, held-back stderr goes first. */
  function Emitted(m: Markers, frames: seq<Frame>): seq<Frame>
    requires m.Usable()
  {
    if frames == [] then []
    else
      var n := |frames| - 1;
      LiveGrows(m, frames, n);
      var s, t := After(m, frames[..n]), After(m, frames);
      Emitted(m, frames[..n]) + (Chunk(Stderr, s.liveErr, t.liveErr) + Chunk(Stdout, s.liveOut, t.liveOut))
  }

  /** And those of the last flush, stdout's first. */
  function EmittedInAll(m: Markers, frames: seq<Frame>, sessionExit: int): seq<Frame>
    requires m.Usable()
  {
    FinishGrows(m, frames, sessionExit);
    var s, t := After(m, frames), Finish(m, frames, sessionExit).0;
    Emitted(m, frames) + (Chunk(Stdout, s.liveOut, t.liveOut) + Chunk(Stderr, s.liveErr, t.liveErr))
  }

  function Broadcasting(frames: seq<Frame>): seq<CommandStream.Event> {
    seq(|frames|, i requires 0 <= i < |frames| => CommandStream.Broadcasts(frames[i].stream, frames[i].data))
  }

  /** The runner's own events: its broadcasts, and the finish it defers to its return. */
  function Script(m: Markers, frames: seq<Frame>, sessionExit: int): seq<CommandStream.Event>
    requires m.Usable()
  {
    Broadcasting(EmittedInAll(m, frames, sessionExit)) + [CommandStream.Finishes]
  }

  predicate IsRunners(e: CommandStream.Event) {
    e.Broadcasts? || e.Finishes?
  }

  function RunnersPart(events: seq<CommandStream.Event>): seq<CommandStream.Event> {
    if events == [] then [] else (if IsRunners(events[0]) then [events[0]] else []) + RunnersPart(events[1..])
  }

  /** It leaves out the others' events and none of the runner's. */
  lemma {:induction false} RunnersPartIs(events: seq<CommandStream.Event>, e: CommandStream.Event)
    ensures e in RunnersPart(events) <==> e in events && IsRunners(e)
  {
    if events != [] {
      RunnersPartIs(events[1..], e);
      assert e in events <==> e == events[0] || e in events[1..];
    }
  }

  /** Up to some moment the runner's part in the run is as its steps have it; the others come in between as they like. */
  ghost predicate Follows(m: Markers, frames: seq<Frame>, sessionExit: int, events: seq<CommandStream.Event>)
    requires m.Usable()
  {
    RunnersPart(events) <= Script(m, frames, sessionExit)
  }

  lemma ChunkBytes(which: Stream, before: Bytes, after: Bytes, stream: Stream)
    requires before <= after
    ensures BytesOf(Chunk(which, before, after), stream) == if which == stream then after[|before|..] else []
  {
    if |before| < |after| {
      BytesOfOne(Frame(which, after[|before|..]), stream);
    }
  }

  lemma ChunksBytes(sent: seq<Frame>, a: seq<Frame>, b: seq<Frame>, stream: Stream)
    ensures BytesOf(sent + (a + b), stream) == BytesOf(sent, stream) + (BytesOf(a, stream) + BytesOf(b, stream))
  {
    BytesOfBoth(a, b, stream);
    BytesOfBoth(sent, a + b, stream);
  }

  lemma Gained(before: Bytes, after: Bytes)
    requires before <= after
    ensures before + ([] + after[|before|..]) == after && before + (after[|before|..] + []) == after
  {
  }

  /** Whichever stream goes first, the chunks add what the live view gains. */
  lemma LiveGains(sent: seq<Frame>, s: Runner, t: Runner, stream: Stream)
    requires Grows(s, t) && BytesOf(sent, stream) == Live(s, stream)
    ensures var out, err := Chunk(Stdout, s.liveOut, t.liveOut), Chunk(Stderr, s.liveErr, t.liveErr);
      BytesOf(sent + (err + out), stream) == Live(t, stream) && BytesOf(sent + (out + err), stream) == Live(t, stream)
  {
    var out, err := Chunk(Stdout, s.liveOut, t.liveOut), Chunk(Stderr, s.liveErr, t.liveErr);
    ChunksBytes(sent, err, out, stream);
    ChunksBytes(sent, out, err, stream);
    ChunkBytes(Stderr, s.liveErr, t.liveErr, stream);
    ChunkBytes(Stdout, s.liveOut, t.liveOut, stream);
    Gained(Live(s, stream), Live(t, stream));
  }

  lemma {:induction false} EmittedIsLive(m: Markers, frames: seq<Frame>, stream: Stream)
    requires m.Usable()
    ensures BytesOf(Emitted(m, frames), stream) == Live(After(m, frames), stream)
    decreases |frames|
  {
    if frames != [] {
      var n := |frames| - 1;
      LiveGrows(m, frames, n);
      EmittedIsLive(m, frames[..n], stream);
      LiveGains(Emitted(m, frames[..n]), After(m, frames[..n]), After(m, frames), stream);
    }
  }

  lemma AllEmittedIsLive(m: Markers, frames: seq<Frame>, sessionExit: int, stream: Stream)
    requires m.Usable()
    ensures BytesOf(EmittedInAll(m, frames, sessionExit), stream) == Live(Finish(m, frames, sessionExit).0, stream)
  {
    FinishGrows(m, frames, sessionExit);
    EmittedIsLive(m, frames, stream);
    LiveGains(Emitted(m, frames), After(m, frames), Finish(m, frames, sessionExit).0, stream);
  }

  // ----- A run that follows the runner -----

  lemma {:induction false} RunnersPartBoth(a: seq<CommandStream.Event>, b: seq<CommandStream.Event>)
    ensures RunnersPart(a + b) == RunnersPart(a) + RunnersPart(b)
    decreases |a|
  {
    if a == [] {
      assert a + b == b;
    } else {
      RunnersPartBoth(a[1..], b);
      assert (a + b)[1..] == a[1..] + b;
      JoinedInTurn(if IsRunners(a[0]) then [a[0]] else [], RunnersPart(a[1..]), RunnersPart(b));
    }
  }

  lemma {:induction false} RunnersPartHas(events: seq<CommandStream.Event>, i: nat)
    requires i < |events| && IsRunners(events[i])
    ensures events[i] in RunnersPart(events)
    decreases |events|
  {
    if i > 0 {
      RunnersPartHas(events[1..], i - 1);
    }
  }

  lemma NoPart(events: seq<CommandStream.Event>)
    requires events != [] && RunnersPart(events) == []
    ensures !IsRunners(events[0])
  {
  }

  lemma {:induction false} RunnersPartSends(events: seq<CommandStream.Event>)
    ensures Sent(RunnersPart(events)) == Sent(events)
    decreases |events|
  {
    if events != [] {
      RunnersPartSends(events[1..]);
      if IsRunners(events[0]) {
        assert RunnersPart(events)[1..] == RunnersPart(events[1..]);
      } else {
        assert [] + RunnersPart(events[1..]) == RunnersPart(events[1..]);
        assert [] + Sent(events[1..]) == Sent(events[1..]);
      }
    }
  }

  lemma {:induction false} SentBoth(a: seq<CommandStream.Event>, b: seq<CommandStream.Event>)
    ensures Sent(a + b) == Sent(a) + Sent(b)
    decreases |a|
  {
    if a == [] {
      assert a + b == b;
    } else {
      SentBoth(a[1..], b);
      assert (a + b)[1..] == a[1..] + b;
      JoinedInTurn(if a[0].Broadcasts? then [Frame(a[0].stream, a[0].chunk)] else [], Sent(a[1..]), Sent(b));
    }
  }

  lemma SentOfPart(part: seq<CommandStream.Event>, all: seq<CommandStream.Event>)
    requires part <= all
    ensures Sent(part) <= Sent(all)
  {
    SentBoth(part, all[|part|..]);
    assert part + all[|part|..] == all;
  }

  lemma {:induction false} SentOfBroadcasting(frames: seq<Frame>)
    ensures Sent(Broadcasting(frames)) == frames
    decreases |frames|
  {
    if frames != [] {
      assert Broadcasting(frames)[1..] == Broadcasting(frames[1..]);
      SentOfBroadcasting(frames[1..]);
      assert frames == [frames[0]] + frames[1..];
    }
  }

  lemma SentByScript(m: Markers, frames: seq<Frame>, sessionExit: int)
    requires m.Usable()
    ensures Sent(Script(m, frames, sessionExit)) == EmittedInAll(m, frames, sessionExit)
  {
    var all := EmittedInAll(m, frames, sessionExit);
    SentOfBroadcasting(all);
    SentBoth(Broadcasting(all), [CommandStream.Finishes]);
    assert Sent([CommandStream.Finishes]) == [];
  }

  /** What has been sent is the beginning of what the runner emits. */
  lemma SentIsEmitted(m: Markers, frames: seq<Frame>, sessionExit: int, events: seq<CommandStream.Event>)
    requires m.Usable() && Follows(m, frames, sessionExit, events)
    ensures Sent(events) <= EmittedInAll(m, frames, sessionExit)
  {
    RunnersPartSends(events);
    SentByScript(m, frames, sessionExit);
    SentOfPart(RunnersPart(events), Script(m, frames, sessionExit));
  }

  /** The finish ends the script, so a part of it that has the finish is all of it. */
  lemma FinishedIsAll(m: Markers, frames: seq<Frame>, sessionExit: int, own: seq<CommandStream.Event>)
    requires m.Usable() && own <= Script(m, frames, sessionExit) && CommandStream.Finishes in own
    ensures own == Script(m, frames, sessionExit)
  {
    var script := Script(m, frames, sessionExit);
    var i :| 0 <= i < |own| && own[i].Finishes?;
    assert script[i].Finishes?;
  }

  lemma FollowsFinishIsLast(m: Markers, frames: seq<Frame>, sessionExit: int, events: seq<CommandStream.Event>)
    requires m.Usable() && Follows(m, frames, sessionExit, events)
    ensures FinishIsLast(events)
  {
    forall i, j | 0 <= i < j < |events| && events[i].Finishes?
      ensures !events[j].Broadcasts?
    {
      NothingFollowsFinish(m, frames, sessionExit, events, i, j);
    }
  }

  lemma NothingFollowsFinish(m: Markers, frames: seq<Frame>, sessionExit: int, events: seq<CommandStream.Event>, i: nat, j: nat)
    requires m.Usable() && Follows(m, frames, sessionExit, events) && i < j < |events| && events[i].Finishes?
    ensures !IsRunners(events[j])
  {
    var head, tail := events[..j], events[j..];
    assert events == head + tail;
    RunnersPartBoth(head, tail);
    RunnersPartHas(head, i);
    FinishedIsAll(m, frames, sessionExit, RunnersPart(head));
    NoPart(tail);
  }

  lemma {:induction false} FinishedByEvent(r: CommandStream.State, events: seq<CommandStream.Event>, s: CommandStream.State)
    requires CommandStream.Inv(r) && CommandStream.Run(r, events, s) && s.finished && !r.finished
    ensures CommandStream.Finishes in RunnersPart(events)
    decreases |events|
  {
    if !events[0].Finishes? {
      CommandStream.StepKeeps(r, events[0]);
      FinishedByEvent(CommandStream.Step(r, events[0]), events[1..], s);
    }
  }

  lemma FinishedSentAll(m: Markers, frames: seq<Frame>, sessionExit: int, events: seq<CommandStream.Event>, s: CommandStream.State)
    requires m.Usable() && Follows(m, frames, sessionExit, events)
    requires CommandStream.Run(CommandStream.EMPTY_STREAM, events, s) && s.finished
    ensures Sent(events) == EmittedInAll(m, frames, sessionExit)
  {
    FinishedByEvent(CommandStream.EMPTY_STREAM, events, s);
    FinishedIsAll(m, frames, sessionExit, RunnersPart(events));
    RunnersPartSends(events);
    SentByScript(m, frames, sessionExit);
  }

  /**
   In every interleaving of the runner, the followers and the closes, and at every
   moment of it: a follower that missed no frame has been handed exactly what the runner
   has broadcast, which is a prefix of the record; once the runner has returned it is
   the recorded stderr and, if the command began, the recorded stdout.
   */
  lemma FollowerGetsTheRecord(
    m: Markers, frames: seq<Frame>, sessionExit: int,
    events: seq<CommandStream.Event>, s: CommandStream.State, id: nat, stream: Stream)
    requires m.Usable() && Follows(m, frames, sessionExit, events)
    requires CommandStream.Run(CommandStream.EMPTY_STREAM, events, s)
    requires id in s.channels && !s.channels[id].missed
    ensures var (last, rec) := Finish(m, frames, sessionExit);
      var sees := s.channels[id].Sees(stream);
      && sees == BytesOf(Sent(events), stream) && sees <= Recorded(rec, stream)
      && (s.finished && stream == Stderr ==> sees == rec.stderr)
      && (s.finished && stream == Stdout ==> sees == if last.started then rec.stdout else [])
  {
    FollowsFinishIsLast(m, frames, sessionExit, events);
    FollowerSeesAllSent(events, s, id, stream);
    SentIsRecorded(m, frames, sessionExit, events, stream);
    if s.finished {
      FinishedSentAll(m, frames, sessionExit, events, s);
    }
    AllEmittedIsLive(m, frames, sessionExit, stream);
    FinalLive(m, frames, sessionExit);
  }

  lemma SentIsRecorded(m: Markers, frames: seq<Frame>, sessionExit: int, events: seq<CommandStream.Event>, stream: Stream)
    requires m.Usable() && Follows(m, frames, sessionExit, events)
    ensures BytesOf(Sent(events), stream) <= Recorded(Finish(m, frames, sessionExit).1, stream)
  {
    var sent, all := Sent(events), EmittedInAll(m, frames, sessionExit);
    SentIsEmitted(m, frames, sessionExit, events);
    assert sent + all[|sent|..] == all;
    BytesOfBoth(sent, all[|sent|..], stream);
    AllEmittedIsLive(m, frames, sessionExit, stream);
    FinalLive(m, frames, sessionExit);
  }

  /** And from a clean wire the client at the other end reads it back. */
  lemma FollowerReadsTheRecord(
    m: Markers, frames: seq<Frame>, sessionExit: int,
    events: seq<CommandStream.Event>, s: CommandStream.State, id: nat, stream: Stream)
    requires m.Usable() && Follows(m, frames, sessionExit, events)
    requires CommandStream.Run(CommandStream.EMPTY_STREAM, events, s) && s.finished
    requires id in s.channels && !s.channels[id].missed && Clean(s.channels[id].Messages())
    ensures var (last, rec) := Finish(m, frames, sessionExit);
      Demux(Wire(s.channels[id].Messages()), Stdout, stream) == if stream == Stdout && !last.started then [] else Recorded(rec, stream)
  {
    FollowerGetsTheRecord(m, frames, sessionExit, events, s, id, stream);
    CommandStream.SubscriberReadsBack(s.channels[id], stream);
  }
}
