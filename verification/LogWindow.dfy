/**
 Reading a command's output by offset: cutLogWindow, and a poller that always
 resumes where the last window ended, first on the growing live stream and then
 on the final text.
 */
module LogWindow {
  import opened ByteStrings
  import opened Utf8

  /** What one read returns: some of a stream, the offset where it stops, and how long the stream is by then. */
  datatype Window = Window(text: Bytes, end: nat, length: nat)

  /** Whether `limit` cuts what is left after `from`; 0 is no limit. */
  predicate IsCut(text: Bytes, from: nat, limit: nat) {
    limit > 0 && |text| - from > limit
  }

  /** Where the window over `text` from `from` ends. */
  function WindowEnd(text: Bytes, from: nat, limit: nat, final: bool): (end: nat)
    requires from <= |text|
    ensures from <= end <= |text|
    ensures limit > 0 ==> end - from <= limit
  {
    var cut := IsCut(text, from, limit);
    var window := if cut then text[from..from + limit] else text[from..];
    var whole := WholeRunesLen(window);
    from + if (cut || !final) && (whole > 0 || !cut) then whole else |window|
  }

  function CutLogWindow(text: Bytes, offset: nat, limit: nat, final: bool): (w: Window)
    ensures w.length == |text| && w.end <= |text|
    ensures w.end == |w.text| + (if offset < |text| then offset else |text|)
  {
    var from := if offset < |text| then offset else |text|;
    var end := WindowEnd(text, from, limit, final);
    Window(SameLength(text[from..end]), end, |text|)
  }

  /** A window of text that is final, or cut short, moves the reader forward. */
  lemma WindowMovesForward(text: Bytes, from: nat, limit: nat, final: bool)
    requires from < |text| && (final || IsCut(text, from, limit))
    ensures CutLogWindow(text, from, limit, final).end > from
  {
  }

  /**
   What a window holds, exactly: at most `limit` bytes, all there are or cut back to
   whole characters, and nothing at all only of a live text that has no more than an
   unfinished character within the limit.
   */
  lemma WindowExactly(text: Bytes, from: nat, limit: nat, final: bool)
    requires from <= |text|
    ensures var w, rest := CutLogWindow(text, from, limit, final), text[from..];
      var room := if limit == 0 || |rest| <= limit then rest else rest[..limit];
      && w.end - from <= |room| && w.text == SameLength(room[..w.end - from])
      && (final && |room| == |rest| ==> w.end == |text|)
      && (!(final && |room| == |rest|) && WholeRunesLen(room) > 0 ==> w.end - from == WholeRunesLen(room))
      && (w.end == from <==> |rest| == 0 || (!final && |room| == |rest| && WholeRunesLen(rest) == 0))
  {
    var rest := text[from..];
    var cut := IsCut(text, from, limit);
    var room := if cut then text[from..from + limit] else rest;
    assert room == if limit == 0 || |rest| <= limit then rest else rest[..limit];
    var end := WindowEnd(text, from, limit, final);
    assert text[from..end] == room[..end - from];
  }

  // ----- Where a window ends -----

  /** A character wider than `limit` stands at `from`. */
  predicate WideAt(s: Bytes, from: nat, limit: nat) {
    from < |s| && RuneAt(s, from) > limit
  }

  /** Some character of `s`, decoding from `from`, is wider than `limit`. */
  predicate HasWide(s: Bytes, from: nat, limit: nat)
    decreases |s| - from
  {
    from < |s| && (RuneAt(s, from) > limit || HasWide(s, from + Advance(s, from), limit))
  }

  lemma {:induction false} NeverWide(s: Bytes, from: nat, limit: nat)
    requires limit >= 4
    ensures !HasWide(s, from, limit)
    decreases |s| - from
  {
    if from < |s| {
      NeverWide(s, from + Advance(s, from), limit);
    }
  }

  /** Between two stops no further apart than `limit` there is no wide character. */
  lemma {:induction false} WideStays(s: Bytes, from: nat, end: nat, limit: nat)
    requires Stops(s, from, end) && end - from <= limit
    ensures HasWide(s, from, limit) == HasWide(s, end, limit)
    decreases end - from
  {
    if from != end {
      StopsForward(s, from + Advance(s, from), end);
      WideStays(s, from + Advance(s, from), end, limit);
    }
  }

  /** Bytes that are part of no character are stepped over one at a time. */
  lemma {:induction false} StraysStop(s: Bytes, from: nat, end: nat)
    requires from <= end <= |s|
    requires from < end ==> RuneAt(s, from) == 0
    requires forall i :: from < i < end ==> Continuation(s[i])
    ensures Stops(s, from, end)
    decreases end - from
  {
    if from < end {
      StraysStop(s, from + 1, end);
    }
  }

  /** A cut too short for its first character: either no character is there, or a wider one is. */
  lemma ShortWindow(w: Bytes, s: Bytes, from: nat)
    requires Part(w, s, from) && w != [] && WholeRunesLen(w) == 0
    ensures Stops(s, from, from + |w|) || (WideAt(s, from, |w|) && RuneAt(w, 0) == 0)
  {
    WholeRunesLenMeaning(w);
    assert !Settled(w, 1);
    if RuneAt(s, from) == 0 {
      forall i | from < i < from + |w| ensures Continuation(s[i]) {
        assert w[i - from] == s[i];
      }
      StraysStop(s, from, from + |w|);
    }
  }

  /**
   A window over `seen`, the part of `final` a read can see, ends where decoding
   the final text stops, unless it is too short for the one character it begins with.
   */
  lemma WindowCases(seen: Bytes, final: Bytes, from: nat, limit: nat, last: bool)
    requires from <= |seen| && Part(seen, final, 0) && (last ==> |seen| == |final|)
    ensures var end := WindowEnd(seen, from, limit, last);
      || Stops(final, from, end)
      || (limit > 0 && end == from + limit && WideAt(final, from, limit) && RuneAt(seen[from..end], 0) == 0)
  {
    var cut := IsCut(seen, from, limit);
    var window := if cut then seen[from..from + limit] else seen[from..];
    WholeRunesLenMeaning(window);
    var whole := WholeRunesLen(window);
    assert Part(window, final, from);
    if (cut || !last) && (whole > 0 || !cut) {
      SettledStops(window, final, from, whole, 0);
    } else if !cut {
      StopsAtEnd(final, from);
    } else {
      ShortWindow(window, final, from);
    }
  }

  // ----- A poller -----

  /** One read: of the live stream as it was then, or of the final text. */
  datatype Read = Live(text: Bytes) | Final

  function Seen(r: Read, final: Bytes): Bytes {
    if r.Live? then r.text else final
  }

  /** The live stream only grows, and grows into the final text. */
  ghost predicate Schedule(polls: seq<Read>, seen: nat, final: Bytes) {
    && seen <= |final|
    && (polls == [] ||
        (seen <= |Seen(polls[0], final)| && Part(Seen(polls[0], final), final, 0) &&
         Schedule(polls[1..], |Seen(polls[0], final)|, final)))
  }

  function OneRead(r: Read, final: Bytes, limit: nat, from: nat): Window {
    CutLogWindow(Seen(r, final), from, limit, r.Final?)
  }

  /** The texts of all reads, each resuming at the end of the one before, and the last end. */
  function Poll(polls: seq<Read>, final: Bytes, limit: nat, from: nat): (Bytes, nat) {
    if polls == [] then ([], from)
    else
      var w := OneRead(polls[0], final, limit, from);
      var (rest, end) := Poll(polls[1..], final, limit, w.end);
      (w.text + rest, end)
  }

  /** No gap and no overlap: the texts cover exactly the bytes between the first offset and the last. */
  lemma {:induction false} PollTiles(polls: seq<Read>, seen: nat, final: Bytes, limit: nat, from: nat)
    requires Schedule(polls, seen, final) && from <= seen
    ensures var (text, end) := Poll(polls, final, limit, from);
      from <= end <= |final| && |text| == end - from
  {
    if polls != [] {
      PollTiles(polls[1..], |Seen(polls[0], final)|, final, limit, OneRead(polls[0], final, limit, from).end);
    }
  }

  /** How many of the reads are of the final text. */
  function FinalReads(polls: seq<Read>): nat {
    if polls == [] then 0 else (if polls[0].Final? then 1 else 0) + FinalReads(polls[1..])
  }

  /** As many final reads as there are bytes left always reach the end, whatever the limit. */
  lemma {:induction false} FinalReadsReachTheEnd(polls: seq<Read>, seen: nat, final: Bytes, limit: nat, from: nat)
    requires Schedule(polls, seen, final) && from <= seen && FinalReads(polls) >= |final| - from
    ensures Poll(polls, final, limit, from).1 == |final|
  {
    if polls != [] {
      var end := OneRead(polls[0], final, limit, from).end;
      if polls[0].Final? && from < |final| {
        WindowMovesForward(final, from, limit, true);
      }
      FinalReadsReachTheEnd(polls[1..], |Seen(polls[0], final)|, final, limit, end);
    }
  }

  /** A read whose window ends at a stop is sent that part of the final same-length text. */
  lemma GoodRead(r: Read, final: Bytes, limit: nat, from: nat)
    requires from <= |Seen(r, final)| && Part(Seen(r, final), final, 0)
    requires Stops(final, 0, from) && Stops(final, from, OneRead(r, final, limit, from).end)
    ensures Part(OneRead(r, final, limit, from).text, SameLength(final), from)
  {
    var seen, end := Seen(r, final), OneRead(r, final, limit, from).end;
    assert Part(seen[from..end], final, from);
    SameLengthOfPart(seen[from..end], final, from);
  }

  /** A read that splits a wide character is sent a question mark for its first byte. */
  lemma SplitRead(r: Read, final: Bytes, limit: nat, from: nat)
    requires from < |Seen(r, final)| && Part(Seen(r, final), final, 0)
    requires Stops(final, 0, from) && WideAt(final, from, 0)
    requires var end := OneRead(r, final, limit, from).end;
      from < end && RuneAt(Seen(r, final)[from..end], 0) == 0
    ensures OneRead(r, final, limit, from).text[0] != SameLength(final)[from]
  {
    KeptAtStop(final, from, from);
  }

  lemma PartAppend(a: Bytes, b: Bytes, s: Bytes, from: nat)
    requires from + |a| <= |s|
    ensures Part(a + b, s, from) <==> Part(a, s, from) && Part(b, s, from + |a|)
  {
    if Part(a + b, s, from) {
      forall x | 0 <= x < |a| ensures a[x] == s[from + x] {
        assert (a + b)[x] == a[x];
      }
      forall x | 0 <= x < |b| ensures b[x] == s[from + |a| + x] {
        assert (a + b)[|a| + x] == b[x];
      }
    }
  }

  /** One read in front of others: good reads pass the question on, a split character settles it. */
  lemma ReadStep(r: Read, final: Bytes, limit: nat, from: nat, rest: Bytes)
    requires from <= |Seen(r, final)| && Part(Seen(r, final), final, 0) && Stops(final, 0, from)
    ensures var w := OneRead(r, final, limit, from);
      || (Stops(final, 0, w.end) && w.end <= |final|
          && (Part(w.text + rest, SameLength(final), from) <==> Part(rest, SameLength(final), w.end))
          && (limit > 0 ==> HasWide(final, from, limit) == HasWide(final, w.end, limit)))
      || (limit > 0 && HasWide(final, from, limit) && !Part(w.text + rest, SameLength(final), from))
  {
    var w := OneRead(r, final, limit, from);
    WindowCases(Seen(r, final), final, from, limit, r.Final?);
    if Stops(final, from, w.end) {
      StopsCompose(final, 0, from, w.end);
      GoodRead(r, final, limit, from);
      if limit > 0 {
        WideStays(final, from, w.end, limit);
      }
      PartAppend(w.text, rest, SameLength(final), from);
    } else {
      SplitRead(r, final, limit, from);
      assert (w.text + rest)[0] == w.text[0];
    }
  }

  /**
   Exactly when a poller reassembles the text: always without a limit, and with
   one if and only if no character is wider than the limit.
   */
  lemma {:induction false} PollReassembles(polls: seq<Read>, seen: nat, final: Bytes, limit: nat, from: nat)
    requires Schedule(polls, seen, final) && from <= seen && Stops(final, 0, from)
    ensures var (text, end) := Poll(polls, final, limit, from);
      && (limit == 0 || !HasWide(final, from, limit) ==> Part(text, SameLength(final), from))
      && (limit > 0 && HasWide(final, from, limit) && end == |final| ==> !Part(text, SameLength(final), from))
  {
    if polls != [] {
      var end := OneRead(polls[0], final, limit, from).end;
      ReadStep(polls[0], final, limit, from, Poll(polls[1..], final, limit, end).0);
      if Stops(final, 0, end) {
        PollReassembles(polls[1..], |Seen(polls[0], final)|, final, limit, end);
      }
    }
  }

  /**
   A poller that starts at 0 and reaches the end of the final text has been sent
   exactly its same-length text, for no limit or any limit of at least four, and
   otherwise exactly when no character is wider than the limit.
   */
  lemma PollerReadsEverything(polls: seq<Read>, final: Bytes, limit: nat)
    requires Schedule(polls, 0, final) && Poll(polls, final, limit, 0).1 == |final|
    ensures Poll(polls, final, limit, 0).0 == SameLength(final) <==> limit == 0 || !HasWide(final, 0, limit)
    ensures limit == 0 || limit >= 4 ==> Poll(polls, final, limit, 0).0 == SameLength(final)
  {
    PollTiles(polls, 0, final, limit, 0);
    PollReassembles(polls, 0, final, limit, 0);
    if limit >= 4 {
      NeverWide(final, 0, limit);
    }
  }
}
