/**
 The frames a follower of a command is sent, each behind a three-byte marker for
 its stream, and the client that tells the two streams apart again.
 */
module CommandFrames {
  import opened ByteStrings
  import opened Collections
  import opened CommandRunner

  const STDOUT_PREFIX: Bytes := [1, 1, 1]
  const STDERR_PREFIX: Bytes := [2, 2, 2]

  function Prefix(stream: Stream): (p: Bytes)
    ensures |p| == 3
  {
    if stream == Stderr then STDERR_PREFIX else STDOUT_PREFIX
  }

  function Framed(f: Frame): Bytes {
    Prefix(f.stream) + f.data
  }

  function Wire(frames: seq<Frame>): Bytes {
    if frames == [] then [] else Framed(frames[0]) + Wire(frames[1..])
  }

  /** What a new subscriber is sent first: each stream so far as one frame, unless it is empty. */
  function Replay(stdout: Bytes, stderr: Bytes): seq<Frame> {
    (if |stdout| > 0 then [Frame(Stdout, stdout)] else []) + (if |stderr| > 0 then [Frame(Stderr, stderr)] else [])
  }

  method FrameReplay(stdout: Bytes, stderr: Bytes) returns (initial: Bytes)
    ensures initial == Wire(Replay(stdout, stderr))
  {
    initial := [];
    if |stdout| > 0 {
      initial := initial + STDOUT_PREFIX;
      initial := initial + stdout;
    }
    if |stderr| > 0 {
      initial := initial + STDERR_PREFIX;
      initial := initial + stderr;
    }
    ReplayWire(stdout, stderr);
  }

  lemma WireOfOne(f: Frame)
    ensures Wire([f]) == Framed(f)
  {
  }

  lemma ReplayWire(stdout: Bytes, stderr: Bytes)
    ensures Wire(Replay(stdout, stderr)) ==
      (if |stdout| > 0 then STDOUT_PREFIX + stdout else []) + (if |stderr| > 0 then STDERR_PREFIX + stderr else [])
  {
    var out, err := Frame(Stdout, stdout), Frame(Stderr, stderr);
    WireOfOne(out);
    WireOfOne(err);
    if |stdout| > 0 && |stderr| > 0 {
      assert ([out] + [err])[1..] == [err];
    }
  }

  // ----- The client -----

  ghost predicate MarkerAt(wire: Bytes, i: int) {
    OccursAt(wire, STDOUT_PREFIX, i) || OccursAt(wire, STDERR_PREFIX, i)
  }

  /** One stream as a client reads it: markers switch the stream, other bytes belong to the one it is in. */
  ghost function Demux(wire: Bytes, current: Stream, stream: Stream): Bytes
    decreases |wire|
  {
    if wire == [] then []
    else if OccursAt(wire, STDOUT_PREFIX, 0) then Demux(wire[3..], Stdout, stream)
    else if OccursAt(wire, STDERR_PREFIX, 0) then Demux(wire[3..], Stderr, stream)
    else (if current == stream then [wire[0]] else []) + Demux(wire[1..], current, stream)
  }

  /** No marker begins within the data, be it to end in what follows. */
  ghost predicate NoMarkerIn(data: Bytes, rest: Bytes) {
    forall i :: 0 <= i < |data| ==> !MarkerAt(data + rest, i)
  }

  /** On the wire, markers begin at the heads of these frames or within a head, and nowhere else. */
  ghost predicate Clean(frames: seq<Frame>) {
    frames == [] || (NoMarkerIn(frames[0].data, Wire(frames[1..])) && Clean(frames[1..]))
  }

  lemma MarkerShifts(wire: Bytes, i: nat)
    requires wire != []
    ensures MarkerAt(wire[1..], i) <==> MarkerAt(wire, i + 1)
  {
    if i + 3 <= |wire[1..]| {
      assert wire[1..][i..i + 3] == wire[i + 1..i + 4];
    }
  }

  lemma NoMarkerInRest(data: Bytes, rest: Bytes)
    requires data != [] && NoMarkerIn(data, rest)
    ensures NoMarkerIn(data[1..], rest) && !MarkerAt(data + rest, 0)
  {
    assert (data + rest)[1..] == data[1..] + rest;
    forall i: nat | i < |data[1..]|
      ensures !MarkerAt(data[1..] + rest, i)
    {
      MarkerShifts(data + rest, i);
    }
  }

  lemma ByteIsRead(b: Byte, rest: Bytes, current: Stream, stream: Stream)
    requires !MarkerAt([b] + rest, 0)
    ensures Demux([b] + rest, current, stream) == (if current == stream then [b] else []) + Demux(rest, current, stream)
  {
    assert ([b] + rest)[1..] == rest;
  }

  lemma MarkerIsRead(marker: Stream, rest: Bytes, current: Stream, stream: Stream)
    ensures Demux(Prefix(marker) + rest, current, stream) == Demux(rest, marker, stream)
  {
    var wire := Prefix(marker) + rest;
    assert wire[0..3] == Prefix(marker) && wire[3..] == rest;
    assert STDOUT_PREFIX[0] != STDERR_PREFIX[0];
  }

  lemma {:induction false} DataIsRead(data: Bytes, rest: Bytes, current: Stream, stream: Stream)
    requires NoMarkerIn(data, rest)
    ensures Demux(data + rest, current, stream) == (if current == stream then data else []) + Demux(rest, current, stream)
    decreases |data|
  {
    if data == [] {
      assert data + rest == rest;
    } else {
      NoMarkerInRest(data, rest);
      DataIsRead(data[1..], rest, current, stream);
      assert [data[0]] + data[1..] == data;
      JoinedInTurn([data[0]], data[1..], rest);
      ByteIsRead(data[0], data[1..] + rest, current, stream);
      JoinedInTurn([data[0]], data[1..], Demux(rest, current, stream));
    }
  }

  lemma FrameIsRead(f: Frame, rest: Bytes, current: Stream, stream: Stream)
    requires NoMarkerIn(f.data, rest)
    ensures Demux(Framed(f) + rest, current, stream) == (if f.stream == stream then f.data else []) + Demux(rest, f.stream, stream)
  {
    JoinedInTurn(Prefix(f.stream), f.data, rest);
    MarkerIsRead(f.stream, f.data + rest, current, stream);
    DataIsRead(f.data, rest, f.stream, stream);
  }

  lemma {:induction false} BytesOfBoth(a: seq<Frame>, b: seq<Frame>, stream: Stream)
    ensures BytesOf(a + b, stream) == BytesOf(a, stream) + BytesOf(b, stream)
    decreases |b|
  {
    var n := |b|;
    if n == 0 {
      assert a + b == a;
    } else {
      BytesOfBoth(a, b[..n - 1], stream);
      assert (a + b)[..|a| + n - 1] == a + b[..n - 1];
    }
  }

  lemma BytesOfFirst(f: Frame, frames: seq<Frame>, stream: Stream)
    ensures BytesOf([f] + frames, stream) == (if f.stream == stream then f.data else []) + BytesOf(frames, stream)
  {
    BytesOfBoth([f], frames, stream);
    assert [f][..0] == [];
  }

  /** From a clean wire the client gets both streams as they were sent. */
  lemma {:induction false} WireReadsBack(frames: seq<Frame>, current: Stream, stream: Stream)
    requires Clean(frames)
    ensures Demux(Wire(frames), current, stream) == BytesOf(frames, stream)
    decreases |frames|
  {
    if frames != [] {
      FrameIsRead(frames[0], Wire(frames[1..]), current, stream);
      WireReadsBack(frames[1..], frames[0].stream, stream);
      BytesOfFirst(frames[0], frames[1..], stream);
      assert frames == [frames[0]] + frames[1..];
    }
  }

  // ----- Frame by frame -----

  /** How many bytes come before the next marker. */
  ghost function DataLength(wire: Bytes): (n: nat)
    ensures n <= |wire|
  {
    if wire == [] || MarkerAt(wire, 0) then 0 else 1 + DataLength(wire[1..])
  }

  /** The frames a client makes out: a marker, and the data up to the next one. */
  ghost function Split(wire: Bytes): seq<Frame>
    decreases |wire|
  {
    if !MarkerAt(wire, 0) then []
    else
      var n := 3 + DataLength(wire[3..]);
      [Frame(if OccursAt(wire, STDERR_PREFIX, 0) then Stderr else Stdout, wire[3..n])] + Split(wire[n..])
  }

  /** `rest` is all there is, or begins with a marker. */
  ghost predicate AtHead(rest: Bytes) {
    rest == [] || MarkerAt(rest, 0)
  }

  /** The data is made out whole if and only if no marker begins in it. */
  lemma {:induction false} DataLengthExactly(data: Bytes, rest: Bytes)
    requires AtHead(rest)
    ensures DataLength(data + rest) <= |data|
    ensures DataLength(data + rest) == |data| <==> NoMarkerIn(data, rest)
    decreases |data|
  {
    if data == [] {
      assert data + rest == rest;
    } else if !MarkerAt(data + rest, 0) {
      assert (data + rest)[1..] == data[1..] + rest;
      DataLengthExactly(data[1..], rest);
      if NoMarkerIn(data[1..], rest) {
        forall i: nat | 0 < i < |data|
          ensures !MarkerAt(data + rest, i)
        {
          MarkerShifts(data + rest, i - 1);
        }
      } else {
        var i: nat :| i < |data[1..]| && MarkerAt(data[1..] + rest, i);
        MarkerShifts(data + rest, i);
      }
    }
  }

  lemma WireAtHead(frames: seq<Frame>)
    ensures AtHead(Wire(frames))
  {
    if frames != [] {
      assert Wire(frames)[0..3] == Prefix(frames[0].stream);
    }
  }

  lemma Behind(head: Bytes, body: Bytes, n: nat)
    requires n <= |body|
    ensures (head + body)[|head|..] == body && (head + body)[..|head|] == head
    ensures (head + body)[|head|..|head| + n] == body[..n] && (head + body)[|head| + n..] == body[n..]
  {
  }

  lemma PrefixAt(stream: Stream, body: Bytes)
    ensures MarkerAt(Prefix(stream) + body, 0)
    ensures OccursAt(Prefix(stream) + body, STDERR_PREFIX, 0) <==> stream == Stderr
  {
    var wire := Prefix(stream) + body;
    assert wire[0..3] == Prefix(stream);
    assert STDOUT_PREFIX[0] != STDERR_PREFIX[0];
  }

  lemma SplitOnce(wire: Bytes, stream: Stream, n: nat)
    requires MarkerAt(wire, 0) && (OccursAt(wire, STDERR_PREFIX, 0) <==> stream == Stderr)
    requires n == DataLength(wire[3..])
    ensures Split(wire) == [Frame(stream, wire[3..3 + n])] + Split(wire[3 + n..])
  {
  }

  lemma SplitFirst(stream: Stream, body: Bytes, n: nat)
    requires n == DataLength(body)
    ensures Split(Prefix(stream) + body) == [Frame(stream, body[..n])] + Split(body[n..])
  {
    PrefixAt(stream, body);
    Behind(Prefix(stream), body, n);
    SplitOnce(Prefix(stream) + body, stream, n);
  }

  lemma SplitClean(f: Frame, rest: Bytes)
    requires AtHead(rest) && NoMarkerIn(f.data, rest)
    ensures Split(Framed(f) + rest) == [f] + Split(rest)
  {
    JoinedInTurn(Prefix(f.stream), f.data, rest);
    SplitFirst(f.stream, f.data + rest, DataLength(f.data + rest));
    DataLengthExactly(f.data, rest);
    Behind(f.data, rest, 0);
  }

  lemma SplitMarked(f: Frame, rest: Bytes)
    requires AtHead(rest) && !NoMarkerIn(f.data, rest)
    ensures !([f] <= Split(Framed(f) + rest))
  {
    JoinedInTurn(Prefix(f.stream), f.data, rest);
    SplitFirst(f.stream, f.data + rest, DataLength(f.data + rest));
    DataLengthExactly(f.data, rest);
    assert |Split(Framed(f) + rest)[0].data| < |f.data|;
  }

  /** The client makes out exactly the frames that were sent, if and only if the wire is clean. */
  lemma {:induction false} SplitExactly(frames: seq<Frame>)
    ensures Split(Wire(frames)) == frames <==> Clean(frames)
    decreases |frames|
  {
    if frames != [] {
      var f, rest := frames[0], Wire(frames[1..]);
      assert frames == [f] + frames[1..];
      WireAtHead(frames[1..]);
      if NoMarkerIn(f.data, rest) {
        SplitClean(f, rest);
        SplitExactly(frames[1..]);
        assert ([f] + Split(rest))[1..] == Split(rest);
      } else {
        SplitMarked(f, rest);
      }
    }
  }

  lemma BytesOfOne(f: Frame, stream: Stream)
    ensures BytesOf([f], stream) == if f.stream == stream then f.data else []
  {
    assert [f][..0] == [];
  }

  lemma ReplayIsBoth(stdout: Bytes, stderr: Bytes)
    ensures BytesOf(Replay(stdout, stderr), Stdout) == stdout && BytesOf(Replay(stdout, stderr), Stderr) == stderr
  {
    var out, err := Frame(Stdout, stdout), Frame(Stderr, stderr);
    var outs, errs := if |stdout| > 0 then [out] else [], if |stderr| > 0 then [err] else [];
    forall stream
      ensures BytesOf(Replay(stdout, stderr), stream) == if stream == Stdout then stdout else stderr
    {
      BytesOfBoth(outs, errs, stream);
      BytesOfOne(out, stream);
      BytesOfOne(err, stream);
    }
  }

  // ----- Which chunks are safe to send -----

  /** The chunk neither holds a marker nor ends in a byte one could begin with. */
  ghost predicate Unmarked(data: Bytes) {
    && (forall i :: !MarkerAt(data, i))
    && (|data| > 0 ==> data[|data| - 1] != 1 && data[|data| - 1] != 2)
  }

  lemma UnmarkedHasNone(data: Bytes, rest: Bytes)
    requires Unmarked(data)
    ensures NoMarkerIn(data, rest)
  {
    var all := data + rest;
    forall i | 0 <= i < |data|
      ensures !MarkerAt(all, i)
    {
      if i + 3 <= |data| {
        assert all[i..i + 3] == data[i..i + 3];
        assert !MarkerAt(data, i);
      } else if i + 3 <= |all| {
        assert all[i..i + 3][|data| - 1 - i] == data[|data| - 1];
      }
    }
  }

  /** Unmarked chunks make a clean wire. */
  lemma {:induction false} UnmarkedIsClean(frames: seq<Frame>)
    requires forall f :: f in frames ==> Unmarked(f.data)
    ensures Clean(frames)
    decreases |frames|
  {
    if frames != [] {
      UnmarkedHasNone(frames[0].data, Wire(frames[1..]));
      UnmarkedIsClean(frames[1..]);
    }
  }

  ghost predicate ReadsBack(frames: seq<Frame>) {
    forall stream :: Demux(Wire(frames), Stdout, stream) == BytesOf(frames, stream)
  }

  /** How many markers the client takes out. */
  ghost function Markers(wire: Bytes): nat
    decreases |wire|
  {
    if wire == [] then 0 else if MarkerAt(wire, 0) then 1 + Markers(wire[3..]) else Markers(wire[1..])
  }

  lemma {:induction false} RestIsData(wire: Bytes, current: Stream)
    ensures |Demux(wire, current, Stdout)| + |Demux(wire, current, Stderr)| + 3 * Markers(wire) == |wire|
    decreases |wire|
  {
    if wire != [] {
      if OccursAt(wire, STDOUT_PREFIX, 0) {
        RestIsData(wire[3..], Stdout);
      } else if OccursAt(wire, STDERR_PREFIX, 0) {
        RestIsData(wire[3..], Stderr);
      } else {
        RestIsData(wire[1..], current);
      }
    }
  }

  /** A marker in the data and one right behind it are both taken out, or others that overlap them. */
  lemma {:induction false} TwoMarkers(data: Bytes, rest: Bytes, i: int)
    requires MarkerAt(data, i) && MarkerAt(rest, 0)
    ensures Markers(data + rest) >= 2
    decreases |data|
  {
    var wire := data + rest;
    if MarkerAt(wire, 0) {
      assert wire[3..] == data[3..] + rest;
      OneMarker(data[3..], rest);
    } else {
      assert wire[1..] == data[1..] + rest;
      MarkerLater(data, rest, i);
      TwoMarkers(data[1..], rest, i - 1);
    }
  }

  lemma MarkerLater(data: Bytes, rest: Bytes, i: int)
    requires MarkerAt(data, i) && !MarkerAt(data + rest, 0)
    ensures i > 0 && MarkerAt(data[1..], i - 1)
  {
    assert (data + rest)[0..3] == data[0..3];
    assert i > 0 ==> data[1..][i - 1..i + 2] == data[i..i + 3];
  }

  lemma {:induction false} OneMarker(data: Bytes, rest: Bytes)
    requires MarkerAt(rest, 0)
    ensures Markers(data + rest) >= 1
    decreases |data|
  {
    var wire := data + rest;
    if data == [] {
      assert wire == rest;
    } else if !MarkerAt(wire, 0) {
      assert wire[1..] == data[1..] + rest;
      OneMarker(data[1..], rest);
    }
  }

  lemma FirstMarker(stream: Stream, rest: Bytes)
    ensures Markers(Prefix(stream) + rest) == 1 + Markers(rest)
  {
    var wire := Prefix(stream) + rest;
    assert wire[0..3] == Prefix(stream) && wire[3..] == rest;
  }

  lemma PairWire(f: Frame, g: Frame)
    ensures Wire([f, g]) == Prefix(f.stream) + (f.data + Framed(g))
    ensures |BytesOf([f, g], Stdout)| + |BytesOf([f, g], Stderr)| == |f.data| + |g.data|
  {
    assert [f, g][1..] == [g] && [f, g] == [f] + [g];
    WireOfOne(g);
    JoinedInTurn(Prefix(f.stream), f.data, Framed(g));
    forall stream
      ensures |BytesOf([f, g], stream)| == (if f.stream == stream then |f.data| else 0) + (if g.stream == stream then |g.data| else 0)
    {
      BytesOfBoth([f], [g], stream);
      BytesOfOne(f, stream);
      BytesOfOne(g, stream);
    }
  }

  /** Two markers where one frame begins: too few bytes are left for the data. */
  lemma MisreadPair(f: Frame, g: Frame)
    requires Markers(f.data + Framed(g)) >= 2
    ensures !ReadsBack([f, g])
  {
    PairWire(f, g);
    FirstMarker(f.stream, f.data + Framed(g));
    RestIsData(Wire([f, g]), Stdout);
  }

  /** A frame that starts in the two bytes completing a marker. */
  function Completing(b: Byte): Frame {
    Frame(if b == 2 then Stderr else Stdout, [b, b, 0])
  }

  lemma CompletingIsUnmarked(b: Byte)
    ensures Unmarked(Completing(b).data)
  {
    var data := Completing(b).data;
    assert data[0..3] == data && data[2] == 0;
  }

  lemma EndsInMarkerByte(f: Frame)
    requires |f.data| > 0 && (f.data[|f.data| - 1] == 1 || f.data[|f.data| - 1] == 2)
    ensures !ReadsBack([f, Completing(f.data[|f.data| - 1])])
  {
    var b := f.data[|f.data| - 1];
    var g := Completing(b);
    var data, rest := f.data + [b, b], [b, b, b, 0];
    assert f.data + Framed(g) == data + rest;
    assert data[|f.data| - 1..|f.data| + 2] == [b, b, b];
    assert MarkerAt(data, |f.data| - 1);
    assert rest[0..3] == [b, b, b];
    TwoMarkers(data, rest, |f.data| - 1);
    MisreadPair(f, g);
  }

  lemma HoldsMarker(f: Frame, g: Frame, i: int)
    requires MarkerAt(f.data, i)
    ensures !ReadsBack([f, g])
  {
    assert Framed(g)[0..3] == Prefix(g.stream);
    TwoMarkers(f.data, Framed(g), i);
    MisreadPair(f, g);
  }

  /** A chunk is read back whatever unmarked chunk comes next if and only if it is unmarked itself. */
  lemma UnmarkedExactly(f: Frame)
    ensures Unmarked(f.data) <==> forall g: Frame :: Unmarked(g.data) ==> ReadsBack([f, g])
  {
    if Unmarked(f.data) {
      forall g: Frame, stream | Unmarked(g.data)
        ensures Demux(Wire([f, g]), Stdout, stream) == BytesOf([f, g], stream)
      {
        UnmarkedIsClean([f, g]);
        WireReadsBack([f, g], Stdout, stream);
      }
    } else if i :| MarkerAt(f.data, i) {
      HoldsMarker(f, Completing(1), i);
      CompletingIsUnmarked(1);
    } else {
      assert forall i :: !MarkerAt(f.data, i);
      CompletingIsUnmarked(f.data[|f.data| - 1]);
      EndsInMarkerByte(f);
    }
  }

  /** Off a wire that is not clean both streams may still come out right: the byte moved to the next chunk is of the same stream. */
  lemma UncleanCanReadBack()
    ensures var f, g := Frame(Stdout, [1]), Frame(Stdout, [0]);
      ReadsBack([f, g]) && !Clean([f, g])
  {
    var f, g := Frame(Stdout, [1]), Frame(Stdout, [0]);
    var shifted: Bytes := [1, 0];
    PairWire(f, g);
    assert f.data + Framed(g) == Prefix(Stdout) + shifted;
    forall stream
      ensures Demux(Wire([f, g]), Stdout, stream) == BytesOf([f, g], stream)
    {
      MarkerIsRead(Stdout, Prefix(Stdout) + shifted, Stdout, stream);
      MarkerIsRead(Stdout, shifted, Stdout, stream);
      DataIsRead(shifted, [], Stdout, stream);
      BytesOfBoth([f], [g], stream);
      BytesOfOne(f, stream);
      BytesOfOne(g, stream);
      assert [f, g] == [f] + [g];
    }
    PrefixAt(Stdout, shifted);
    WireOfOne(g);
    assert [f, g][1..] == [g];
    assert MarkerAt(f.data + Wire([g]), 0);
  }
}
