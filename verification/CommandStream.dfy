/**
 The live stream behind /logs?follow=true: the replay buffers, the subscriber
 channels and the once-closed finished flag, at the granularity of the stream's
 lock. finish closes the channels it took after it has let go of the lock, so the
 closes are steps of their own.
 */
module CommandStream {
  import opened ByteStrings
  import opened CommandFrames
  import opened CommandRunner

  /** How many frames a subscriber's channel buffers. */
  const CHANNEL_CAPACITY := 256

  /**
   A subscriber's channel: what it was replayed, the frames it accepted (the first
   `read` of them received), whether a frame was dropped because the buffer was
   full, and how often it was closed.
   */
  datatype Channel = Channel(replayOut: Bytes, replayErr: Bytes, frames: seq<Frame>, read: nat, missed: bool, closes: nat)
  {
    predicate Open() {
      closes == 0
    }

    /** All this subscriber has been or will be handed of one stream. */
    function Sees(stream: Stream): Bytes {
      (if stream == Stdout then replayOut else replayErr) + BytesOf(frames, stream)
    }

    /** The messages it is sent: the framed replay, then a frame each. */
    function Messages(): seq<Frame> {
      Replay(replayOut, replayErr) + frames
    }
  }

  datatype State = State(
    stdout: Bytes, stderr: Bytes,
    subs: seq<nat>, finished: bool,
    closing: set<nat>,
    channels: map<nat, Channel>,
    sealedOut: Bytes, sealedErr: Bytes)
  {
    function Text(stream: Stream): Bytes {
      if stream == Stdout then stdout else stderr
    }

    /** The stream as it was when it finished. */
    function Sealed(stream: Stream): Bytes {
      if stream == Stdout then sealedOut else sealedErr
    }
  }

  const EMPTY_STREAM := State([], [], [], false, {}, map[], [], [])

  // ----- The steps -----

  /** A send that never blocks: a full channel drops the frame. */
  function Offer(c: Channel, f: Frame): Channel
    requires c.read <= |c.frames|
  {
    if |c.frames| - c.read < CHANNEL_CAPACITY then c.(frames := c.frames + [f]) else c.(missed := true)
  }

  predicate Consistent(s: State) {
    && (forall id :: id in s.subs ==> id in s.channels)
    && (forall id :: id in s.channels ==> s.channels[id].read <= |s.channels[id].frames|)
  }

  function SendAll(channels: map<nat, Channel>, subs: seq<nat>, f: Frame): map<nat, Channel>
    requires forall id :: id in channels ==> channels[id].read <= |channels[id].frames|
  {
    map id | id in channels :: if id in subs then Offer(channels[id], f) else channels[id]
  }

  function BroadcastStep(s: State, stream: Stream, chunk: Bytes): State
    requires Consistent(s)
  {
    if chunk == [] then s
    else
      var sent := SendAll(s.channels, s.subs, Frame(stream, chunk));
      if stream == Stderr
      then s.(stderr := s.stderr + chunk, channels := sent)
      else s.(stdout := s.stdout + chunk, channels := sent)
  }

  /** One locked step: the replay so far and the registration; a finished stream hands back a closed channel. */
  function SubscribeStep(s: State, id: nat): State
    requires id !in s.channels
  {
    var channel := Channel(s.stdout, s.stderr, [], 0, false, if s.finished then 1 else 0);
    s.(channels := s.channels[id := channel], subs := if s.finished then s.subs else s.subs + [id])
  }

  function FinishStep(s: State): State {
    if s.finished then s
    else s.(finished := true, subs := [], closing := s.closing + (set id | id in s.subs),
            sealedOut := s.stdout, sealedErr := s.stderr)
  }

  function CloseStep(s: State, id: nat): State
    requires id in s.closing && id in s.channels
  {
    s.(closing := s.closing - {id}, channels := s.channels[id := s.channels[id].(closes := s.channels[id].closes + 1)])
  }

  function ReceiveStep(s: State, id: nat): State
    requires id in s.channels && s.channels[id].read < |s.channels[id].frames|
  {
    s.(channels := s.channels[id := s.channels[id].(read := s.channels[id].read + 1)])
  }

  datatype Event =
    | Broadcasts(stream: Stream, chunk: Bytes)
    | Subscribes(id: nat)
    | Finishes
    | Closes(id: nat)
    | Receives(id: nat)

  predicate Enabled(s: State, e: Event) {
    match e
    case Broadcasts(_, _) => true
    case Subscribes(id) => id !in s.channels
    case Finishes => true
    case Closes(id) => id in s.closing
    case Receives(id) => id in s.channels && s.channels[id].read < |s.channels[id].frames|
  }

  // ----- What every step keeps -----

  /** Each channel is subscribed and open, taken by the finish and open, or closed exactly once. */
  ghost predicate Partitioned(s: State) {
    && (forall i, j :: 0 <= i < j < |s.subs| ==> s.subs[i] != s.subs[j])
    && (forall id :: id in s.subs ==> id in s.channels && s.channels[id].Open() && id !in s.closing)
    && (forall id :: id in s.closing ==> id in s.channels && s.channels[id].Open())
    && (forall id :: id in s.channels ==>
          s.channels[id].closes == (if id in s.subs || id in s.closing then 0 else 1))
    && (s.finished ==> s.subs == [])
    && (!s.finished ==> s.closing == {})
  }

  /** Up to its dropped frames, a subscriber has been handed the stream as it is, or as it was at the finish. */
  ghost predicate Faithful(s: State, id: nat, stream: Stream)
    requires id in s.channels
  {
    var c := s.channels[id];
    c.missed ||
    (if !s.finished then c.Sees(stream) == s.Text(stream)
     else s.Sealed(stream) <= c.Sees(stream) <= s.Text(stream))
  }

  ghost predicate Inv(s: State) {
    && Consistent(s) && Partitioned(s)
    && (s.finished ==> s.sealedOut <= s.stdout && s.sealedErr <= s.stderr)
    && (forall id, stream :: id in s.channels ==> Faithful(s, id, stream))
    && (!s.finished ==> forall id :: id in s.channels ==> id in s.subs)
  }

  function Step(s: State, e: Event): State
    requires Consistent(s) && (forall id :: id in s.closing ==> id in s.channels) && Enabled(s, e)
  {
    match e
    case Broadcasts(stream, chunk) => BroadcastStep(s, stream, chunk)
    case Subscribes(id) => SubscribeStep(s, id)
    case Finishes => FinishStep(s)
    case Closes(id) => CloseStep(s, id)
    case Receives(id) => ReceiveStep(s, id)
  }

  lemma OfferSees(c: Channel, f: Frame, stream: Stream)
    requires c.read <= |c.frames|
    ensures !Offer(c, f).missed ==>
      Offer(c, f).Sees(stream) == c.Sees(stream) + (if f.stream == stream then f.data else [])
  {
    assert (c.frames + [f])[..|c.frames|] == c.frames;
  }

  lemma BroadcastKeeps(s: State, stream: Stream, chunk: Bytes)
    requires Inv(s)
    ensures Inv(BroadcastStep(s, stream, chunk))
  {
    if chunk != [] {
      var t, f := BroadcastStep(s, stream, chunk), Frame(stream, chunk);
      forall id, which | id in t.channels ensures Faithful(t, id, which) {
        assert Faithful(s, id, which);
        OfferSees(s.channels[id], f, which);
      }
    }
  }

  lemma SubscribeKeeps(s: State, id: nat)
    requires Inv(s) && id !in s.channels
    ensures Inv(SubscribeStep(s, id))
  {
    var t := SubscribeStep(s, id);
    forall other, which | other in t.channels ensures Faithful(t, other, which) {
      if other != id {
        assert Faithful(s, other, which);
      }
    }
  }

  lemma FinishKeeps(s: State)
    requires Inv(s)
    ensures Inv(FinishStep(s))
  {
    var t := FinishStep(s);
    forall id, which | id in t.channels ensures Faithful(t, id, which) {
      assert Faithful(s, id, which);
    }
  }

  lemma ChannelStepKeeps(s: State, e: Event)
    requires Inv(s) && Enabled(s, e) && (e.Closes? || e.Receives?)
    ensures Inv(Step(s, e))
  {
    var t := Step(s, e);
    forall id, which | id in t.channels ensures Faithful(t, id, which) {
      assert Faithful(s, id, which);
    }
  }

  lemma StepKeeps(s: State, e: Event)
    requires Inv(s) && Enabled(s, e)
    ensures Inv(Step(s, e))
  {
    match e
    case Broadcasts(stream, chunk) => BroadcastKeeps(s, stream, chunk);
    case Subscribes(id) => SubscribeKeeps(s, id);
    case Finishes => FinishKeeps(s);
    case Closes(_) => ChannelStepKeeps(s, e);
    case Receives(_) => ChannelStepKeeps(s, e);
  }

  /** A subscriber misses a frame exactly when one is broadcast while its channel is full, and is otherwise handed every one. */
  lemma MissedExactly(s: State, e: Event, id: nat)
    requires Inv(s) && Enabled(s, e) && id in s.channels
    ensures var c, d := s.channels[id], Step(s, e).channels[id];
      var sent := e.Broadcasts? && e.chunk != [] && id in s.subs;
      && (d.missed <==> c.missed || (sent && |c.frames| - c.read >= 256))
      && d.frames == c.frames + (if sent && |c.frames| - c.read < 256 then [Frame(e.stream, e.chunk)] else [])
      && d.read == c.read + (if e == Receives(id) then 1 else 0)
  {
  }

  /** A new subscriber has been replayed all there is, and missed nothing. */
  lemma SubscribedAfresh(s: State, id: nat)
    requires Inv(s) && id !in s.channels
    ensures var c := SubscribeStep(s, id).channels[id];
      c.Sees(Stdout) == s.stdout && c.Sees(Stderr) == s.stderr && !c.missed && c.read == 0 && (c.Open() <==> !s.finished)
  {
  }

  /** A broadcast, a subscription and the finish need wait for nobody, and once it is finished every channel left can be closed. */
  lemma NobodyWaits(s: State, stream: Stream, chunk: Bytes, id: nat)
    requires Inv(s)
    ensures Enabled(s, Broadcasts(stream, chunk)) && Enabled(s, Finishes)
    ensures id in s.channels || Enabled(s, Subscribes(id))
    ensures s.finished && id in s.channels && s.channels[id].Open() ==> Enabled(s, Closes(id)) && !CloseStep(s, id).channels[id].Open()
    ensures id in s.channels && s.channels[id].read < |s.channels[id].frames| ==> Enabled(s, Receives(id))
  {
  }

  // ----- Whole runs -----

  /** `s` can be reached from `r` by the events in order, each one enabled. */
  ghost predicate Run(r: State, events: seq<Event>, s: State)
    requires Inv(r)
    decreases |events|
  {
    if events == [] then r == s
    else Enabled(r, events[0]) && (StepKeeps(r, events[0]); Run(Step(r, events[0]), events[1..], s))
  }

  lemma {:induction false} RunKeeps(r: State, events: seq<Event>, s: State)
    requires Inv(r) && Run(r, events, s)
    ensures Inv(s)
    decreases |events|
  {
    if events != [] {
      StepKeeps(r, events[0]);
      RunKeeps(Step(r, events[0]), events[1..], s);
    }
  }

  /**
   In every interleaving: a broadcast only sends to open channels, no channel
   is closed twice, or while anything will still be sent to it, and a subscriber
   that dropped no frame has been handed the whole stream on each stream id.
   */
  lemma EveryRun(events: seq<Event>, s: State)
    requires Run(EMPTY_STREAM, events, s)
    ensures forall id :: id in s.subs ==> id in s.channels && s.channels[id].Open()
    ensures forall id :: id in s.channels ==> s.channels[id].closes <= 1
    ensures s.finished && s.closing == {} ==> forall id :: id in s.channels ==> s.channels[id].closes == 1
    ensures (s.finished ==> s.stdout == s.sealedOut && s.stderr == s.sealedErr) ==>
      forall id :: id in s.channels && !s.channels[id].missed ==>
        s.channels[id].Sees(Stdout) == s.stdout && s.channels[id].Sees(Stderr) == s.stderr
  {
    RunKeeps(EMPTY_STREAM, events, s);
    forall id | id in s.channels && !s.channels[id].missed
      ensures (s.finished ==> s.stdout == s.sealedOut && s.stderr == s.sealedErr) ==>
        s.channels[id].Sees(Stdout) == s.stdout && s.channels[id].Sees(Stderr) == s.stderr
    {
      assert Faithful(s, id, Stdout) && Faithful(s, id, Stderr);
    }
  }

  lemma {:induction false} StaysFinished(r: State, events: seq<Event>, s: State)
    requires Inv(r) && Run(r, events, s) && (r.finished || Finishes in events)
    ensures s.finished
    decreases |events|
  {
    if events != [] {
      StepKeeps(r, events[0]);
      StaysFinished(Step(r, events[0]), events[1..], s);
    }
  }

  /** Once the stream is finished it stays so and has no subscriber: every channel is closed, or waiting for its one close. */
  lemma FinishedForGood(events: seq<Event>, s: State)
    requires Run(EMPTY_STREAM, events, s) && Finishes in events
    ensures s.finished && s.subs == []
    ensures forall id :: id in s.channels ==> s.channels[id].closes == 1 || (s.channels[id].Open() && Enabled(s, Closes(id)))
  {
    RunKeeps(EMPTY_STREAM, events, s);
    StaysFinished(EMPTY_STREAM, events, s);
  }

  /** Such a subscriber's client reads both streams back from a clean wire. */
  lemma SubscriberReadsBack(c: Channel, stream: Stream)
    requires Clean(c.Messages())
    ensures Demux(Wire(c.Messages()), Stdout, stream) == c.Sees(stream)
  {
    WireReadsBack(c.Messages(), Stdout, stream);
    BytesOfBoth(Replay(c.replayOut, c.replayErr), c.frames, stream);
    ReplayIsBoth(c.replayOut, c.replayErr);
  }

  // ----- The object -----

  lemma SendAllNext(channels: map<nat, Channel>, subs: seq<nat>, i: nat, f: Frame)
    requires forall id :: id in channels ==> channels[id].read <= |channels[id].frames|
    requires i < |subs| && subs[i] in channels && forall j, k :: 0 <= j < k < |subs| ==> subs[j] != subs[k]
    ensures subs[i] !in subs[..i]
    ensures SendAll(channels, subs[..i + 1], f) == SendAll(channels, subs[..i], f)[subs[i] := Offer(channels[subs[i]], f)]
  {
  }

  /** daytonaCommandStream: its methods are the steps above, in the source's own form. */
  class LiveStream {
    var stdout: Bytes
    var stderr: Bytes
    var subs: seq<nat>
    var finished: bool
    var closing: set<nat>
    var channels: map<nat, Channel>
    ghost var sealedOut: Bytes
    ghost var sealedErr: Bytes

    ghost function View(): State
      reads this
    {
      State(stdout, stderr, subs, finished, closing, channels, sealedOut, sealedErr)
    }

    constructor ()
      ensures View() == EMPTY_STREAM
    {
      stdout, stderr, subs, finished, closing, channels := [], [], [], false, {}, map[];
      sealedOut, sealedErr := [], [];
    }

    method Broadcast(stream: Stream, chunk: Bytes)
      requires Inv(View())
      modifies this
      ensures Inv(View()) && View() == BroadcastStep(old(View()), stream, chunk)
    {
      BroadcastKeeps(View(), stream, chunk);
      if |chunk| == 0 {
        return;
      }
      if stream == Stderr {
        stderr := stderr + chunk;
      } else {
        stdout := stdout + chunk;
      }
      SendToSubscribers(Frame(stream, chunk));
    }

    /** The loop of non-blocking sends, under the lock. */
    method SendToSubscribers(frame: Frame)
      requires Consistent(View()) && forall i, j :: 0 <= i < j < |subs| ==> subs[i] != subs[j]
      modifies this`channels
      ensures channels == SendAll(old(channels), subs, frame)
    {
      var i := 0;
      assert channels == SendAll(channels, subs[..0], frame);
      while i < |subs|
        invariant 0 <= i <= |subs|
        invariant channels == SendAll(old(channels), subs[..i], frame)
      {
        SendAllNext(old(channels), subs, i, frame);
        channels := channels[subs[i] := Offer(channels[subs[i]], frame)];
        i := i + 1;
      }
      assert subs[..i] == subs;
    }

    method Subscribe(id: nat) returns (initial: Bytes, ended: bool)
      requires Inv(View()) && id !in channels
      modifies this
      ensures Inv(View()) && View() == SubscribeStep(old(View()), id)
      ensures initial == Wire(channels[id].Messages()) && ended == finished
    {
      SubscribeKeeps(View(), id);
      initial := FrameReplay(stdout, stderr);
      ended := finished;
      assert Replay(stdout, stderr) + [] == Replay(stdout, stderr);
      if finished {
        channels := channels[id := Channel(stdout, stderr, [], 0, false, 1)];
      } else {
        channels := channels[id := Channel(stdout, stderr, [], 0, false, 0)];
        subs := subs + [id];
      }
    }

    /** The part of finish under the lock; calling it again changes nothing. */
    method Finish()
      requires Inv(View())
      modifies this
      ensures Inv(View()) && View() == FinishStep(old(View()))
    {
      FinishKeeps(View());
      if !finished {
        finished := true;
        closing := closing + (set id | id in subs);
        subs := [];
        sealedOut, sealedErr := stdout, stderr;
      }
    }

    /** One close of the loop after the lock. */
    method CloseSubscriber(id: nat)
      requires Inv(View()) && id in closing
      modifies this
      ensures Inv(View()) && View() == CloseStep(old(View()), id)
    {
      ChannelStepKeeps(View(), Closes(id));
      var c := channels[id];
      channels := channels[id := c.(closes := c.closes + 1)];
      closing := closing - {id};
    }
  }
}
