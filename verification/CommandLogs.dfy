/**
 A client that polls a running command's logs by offset, put together from the
 runner and the windows: reads while the command runs see the live stream, reads
 after it see the record.
 */
module CommandLogs {
  import opened ByteStrings
  import opened SessionMarkers
  import opened CommandRunner
  import opened CommandRuns
  import opened Utf8
  import opened LogWindow

  function Live(s: Runner, stream: Stream): Bytes {
    if stream == Stdout then s.liveOut else s.liveErr
  }

  function Recorded(r: Record, stream: Stream): Bytes {
    if stream == Stdout then r.stdout else r.stderr
  }

  /** The live stream after `k` frames, or after the last flush when `k` is past the frames. */
  function LiveAt(m: Markers, frames: seq<Frame>, sessionExit: int, stream: Stream, k: nat): Bytes
    requires m.Usable()
  {
    if k <= |frames| then Live(After(m, frames[..k]), stream) else Live(Finish(m, frames, sessionExit).0, stream)
  }

  /** Live reads at the times `at`, in order, then `finals` reads of the record. */
  function Polls(m: Markers, frames: seq<Frame>, sessionExit: int, stream: Stream, at: seq<nat>, finals: nat): seq<Read>
    requires m.Usable()
  {
    if at == [] then seq(finals, _ => Read.Final)
    else [Read.Live(LiveAt(m, frames, sessionExit, stream, at[0]))] + Polls(m, frames, sessionExit, stream, at[1..], finals)
  }

  /** The i-th live read is of what has been broadcast by then. */
  lemma {:induction false} PollsAre(m: Markers, frames: seq<Frame>, sessionExit: int, stream: Stream, at: seq<nat>, finals: nat, i: nat)
    requires m.Usable() && i < |at|
    ensures var polls := Polls(m, frames, sessionExit, stream, at, finals);
      && |polls| == |at| + finals
      && polls[i] == Read.Live(if at[i] <= |frames| then Live(After(m, frames[..at[i]]), stream)
                               else Live(Finish(m, frames, sessionExit).0, stream))
    decreases |at|
  {
    if i > 0 {
      PollsAre(m, frames, sessionExit, stream, at[1..], finals, i - 1);
    } else if |at| > 1 {
      PollsAre(m, frames, sessionExit, stream, at[1..], finals, 0);
    }
  }

  ghost predicate InOrder(at: seq<nat>) {
    forall i, j :: 0 <= i < j < |at| ==> at[i] <= at[j]
  }

  lemma LiveAtGrows(m: Markers, frames: seq<Frame>, sessionExit: int, stream: Stream, j: nat, k: nat)
    requires m.Usable() && j <= k
    ensures LiveAt(m, frames, sessionExit, stream, j) <= LiveAt(m, frames, sessionExit, stream, k)
  {
    if k <= |frames| {
      assert frames[..k][..j] == frames[..j];
      LiveGrows(m, frames[..k], j);
    } else if j <= |frames| {
      LiveGrows(m, frames, j);
      FinishGrows(m, frames, sessionExit);
    }
  }

  lemma LiveAtIsRecorded(m: Markers, frames: seq<Frame>, sessionExit: int, stream: Stream, k: nat)
    requires m.Usable()
    ensures LiveAt(m, frames, sessionExit, stream, k) <= Recorded(Finish(m, frames, sessionExit).1, stream)
  {
    LiveAtGrows(m, frames, sessionExit, stream, k, k + |frames| + 1);
    FinalLive(m, frames, sessionExit);
  }

  lemma {:induction false} FinalsSchedule(finals: nat, final: Bytes, seen: nat)
    requires seen <= |final|
    ensures Schedule(seq(finals, _ => Read.Final), seen, final)
    decreases finals
  {
    if finals > 0 {
      var polls := seq(finals, _ => Read.Final);
      assert polls[1..] == seq((finals - 1) as nat, _ => Read.Final);
      FinalsSchedule(finals - 1, final, |final|);
    }
  }

  lemma {:induction false} PollsSchedule(m: Markers, frames: seq<Frame>, sessionExit: int, stream: Stream, at: seq<nat>, finals: nat, seen: nat)
    requires m.Usable() && InOrder(at)
    requires seen <= |Recorded(Finish(m, frames, sessionExit).1, stream)|
    requires at != [] ==> seen <= |LiveAt(m, frames, sessionExit, stream, at[0])|
    ensures Schedule(Polls(m, frames, sessionExit, stream, at, finals), seen, Recorded(Finish(m, frames, sessionExit).1, stream))
  {
    var final := Recorded(Finish(m, frames, sessionExit).1, stream);
    if at == [] {
      FinalsSchedule(finals, final, seen);
    } else {
      var now := LiveAt(m, frames, sessionExit, stream, at[0]);
      LiveAtIsRecorded(m, frames, sessionExit, stream, at[0]);
      if |at| > 1 {
        LiveAtGrows(m, frames, sessionExit, stream, at[0], at[1]);
      }
      PollsSchedule(m, frames, sessionExit, stream, at[1..], finals, |now|);
      var rest := Polls(m, frames, sessionExit, stream, at[1..], finals);
      assert ([Read.Live(now)] + rest)[1..] == rest;
    }
  }

  lemma {:induction false} PollsEndInFinals(m: Markers, frames: seq<Frame>, sessionExit: int, stream: Stream, at: seq<nat>, finals: nat)
    requires m.Usable()
    ensures FinalReads(Polls(m, frames, sessionExit, stream, at, finals)) == finals
    decreases |at|, finals
  {
    if at == [] {
      AllFinal(finals);
    } else {
      PollsEndInFinals(m, frames, sessionExit, stream, at[1..], finals);
      var rest := Polls(m, frames, sessionExit, stream, at[1..], finals);
      assert ([Read.Live(LiveAt(m, frames, sessionExit, stream, at[0]))] + rest)[1..] == rest;
    }
  }

  lemma {:induction false} AllFinal(finals: nat)
    ensures FinalReads(seq(finals, _ => Read.Final)) == finals
  {
    if finals > 0 {
      assert seq(finals, _ => Read.Final)[1..] == seq((finals - 1) as nat, _ => Read.Final);
      AllFinal(finals - 1);
    }
  }

  /**
   However the shell's output was cut and whenever the client polled, a client that
   resumes at the returned offsets reaches the end, with no more final reads than there
   are bytes, and has then been sent the recorded stream, each stray byte as a question
   mark, if and only if no character is wider than its limit.
   */
  lemma PollingARun(m: Markers, frames: seq<Frame>, sessionExit: int, stream: Stream, at: seq<nat>, finals: nat, limit: nat)
    requires m.Usable() && InOrder(at)
    ensures var recorded := Recorded(Finish(m, frames, sessionExit).1, stream);
      var (text, end) := Poll(Polls(m, frames, sessionExit, stream, at, finals), recorded, limit, 0);
      && end <= |recorded| && |text| == end
      && (finals >= |recorded| ==>
            && end == |recorded|
            && (text == SameLength(recorded) <==> limit == 0 || !HasWide(recorded, 0, limit))
            && (limit == 0 || limit >= 4 ==> text == SameLength(recorded)))
  {
    var recorded := Recorded(Finish(m, frames, sessionExit).1, stream);
    var polls := Polls(m, frames, sessionExit, stream, at, finals);
    PollsSchedule(m, frames, sessionExit, stream, at, finals, 0);
    PollTiles(polls, 0, recorded, limit, 0);
    if finals >= |recorded| {
      PollsEndInFinals(m, frames, sessionExit, stream, at, finals);
      FinalReadsReachTheEnd(polls, 0, recorded, limit, 0);
      PollerReadsEverything(polls, recorded, limit);
    }
  }
}
