/**
 What a buffered exec keeps of a command's output (exec_buffered.go): the first
 bytes of each stream up to its cap, cut at a whole character, frozen when the
 reply is sent; and the budget of readers left draining background jobs.
 */
module ExecBuffered {
  import opened ByteStrings
  import opened Utf8

  /** A requested cap, clamped to the ceiling; 0 asks for the ceiling alone. */
  function EffectiveLimit(requested: int, ceiling: nat): (limit: nat)
    requires ceiling > 0
    ensures 0 < limit <= ceiling && (requested > 0 ==> limit <= requested)
    ensures limit == ceiling || limit == requested
  {
    if 0 < requested < ceiling then requested else ceiling
  }

  function Take(s: Bytes, limit: nat): Bytes {
    if |s| <= limit then s else s[..limit]
  }

  // ----- trimPartialRune -----

  /**
   The loop of trimPartialRune, back from the end. It looks one byte further than
   wholeRunesLen and stops early at ASCII; the two agree on every byte sequence.
   */
  method TrimPartialRune(b: Bytes) returns (r: Bytes)
    ensures r == b[..WholeRunesLen(b)]
  {
    assert b[..|b|] == b;
    var back := 1;
    while back <= 4 && back <= |b|
      invariant 1 <= back <= 5 && back <= |b| + 1
      invariant back <= 4 ==> WholeFrom(b, |b| - back) == WholeRunesLen(b)
      invariant back == 5 ==> WholeRunesLen(b) == |b|
    {
      var c := b[|b| - back];
      if c < 0x80 {
        return b;
      }
      if RuneStart(c) {
        if !FullRune(b, |b| - back) {
          return b[..|b| - back];
        }
        return b;
      }
      back := back + 1;
    }
    return b;
  }

  // ----- capturedStream -----

  /** The kept bytes of one stream. `written` is everything the command wrote to it. */
  class CapturedStream {
    const limit: nat
    var data: Bytes
    var truncated: bool
    ghost var written: Bytes

    /** For every way the output was cut into reads: the first bytes are kept, and truncation is exact. */
    ghost predicate Valid()
      reads this
      ensures Valid() ==> |data| <= limit && data <= written
    {
      data == Take(written, limit) && truncated == (|written| > limit)
    }

    constructor (limit: nat)
      ensures Valid() && this.limit == limit && written == []
    {
      this.limit := limit;
      data, truncated, written := [], false, [];
    }

    method Add(p: Bytes)
      requires Valid()
      modifies this
      ensures Valid() && written == old(written) + p
    {
      var room := limit - |data|;
      written := written + p;
      if |p| <= room {
        data := data + p;
        return;
      }
      if room > 0 {
        data := data + p[..room];
      }
      truncated := true;
    }

    /** The kept output: whole when it fits, else cut before a character the cap split. */
    method Text() returns (text: Bytes)
      requires Valid()
      ensures text == KeptText(written, limit)
    {
      if !truncated {
        return data;
      }
      text := TrimPartialRune(data);
    }
  }

  /** What the reply holds of a stream that wrote `written` under a cap of `limit` bytes. */
  function KeptText(written: Bytes, limit: nat): Bytes {
    if |written| <= limit then written
    else var cut := written[..limit]; cut[..WholeRunesLen(cut)]
  }

  /** The reply is a prefix of the output within the cap, missing at most three bytes of it. */
  lemma KeptTextIsPrefix(written: Bytes, limit: nat)
    ensures var t := KeptText(written, limit);
      && t <= written && |t| <= limit
      && (if |written| <= limit then t == written else |t| >= limit - 3)
  {
    if |written| > limit {
      WholeRunesLenMeaning(written[..limit]);
    }
  }

  /** Valid UTF-8 stays valid: the cut never leaves part of a character. */
  lemma KeptTextIsValid(written: Bytes, limit: nat)
    requires Valid(written, 0)
    ensures Valid(KeptText(written, limit), 0)
  {
    if |written| > limit {
      var cut := written[..limit];
      var n := WholeRunesLen(cut);
      WholeRunesLenMeaning(cut);
      SettledStops(cut, written, 0, n, 0);
      ValidPrefix(cut[..n], written, 0);
    }
  }

  // ----- execCollector -----

  /** Both streams of one exec; after the reply is frozen, reads are dropped and truncate nothing. */
  class ExecCollector {
    const stdout: CapturedStream
    const stderr: CapturedStream
    var responded: bool

    ghost predicate Valid()
      reads this, stdout, stderr
    {
      stdout != stderr && stdout.Valid() && stderr.Valid()
    }

    constructor (outRequested: int, errRequested: int, ceiling: nat)
      requires ceiling > 0
      ensures Valid() && fresh(stdout) && fresh(stderr) && !responded
      ensures stdout.limit == EffectiveLimit(outRequested, ceiling) && stderr.limit == EffectiveLimit(errRequested, ceiling)
      ensures stdout.written == stderr.written == []
    {
      stdout := new CapturedStream(EffectiveLimit(outRequested, ceiling));
      stderr := new CapturedStream(EffectiveLimit(errRequested, ceiling));
      responded := false;
    }

    method OnRead(fromStderr: bool, p: Bytes)
      requires Valid()
      modifies stdout, stderr
      ensures Valid()
      ensures responded ==> unchanged(stdout) && unchanged(stderr)
      ensures !responded && fromStderr ==> stderr.written == old(stderr.written) + p && unchanged(stdout)
      ensures !responded && !fromStderr ==> stdout.written == old(stdout.written) + p && unchanged(stderr)
    {
      if !responded {
        if fromStderr {
          stderr.Add(p);
        } else {
          stdout.Add(p);
        }
      }
    }

    method Finish() returns (out: Bytes, err: Bytes, outTruncated: bool, errTruncated: bool)
      requires Valid()
      modifies this`responded
      ensures Valid() && responded
      ensures out == KeptText(stdout.written, stdout.limit) && err == KeptText(stderr.written, stderr.limit)
      ensures outTruncated == (|stdout.written| > stdout.limit) && errTruncated == (|stderr.written| > stderr.limit)
    {
      responded := true;
      out := stdout.Text();
      err := stderr.Text();
      outTruncated, errTruncated := stdout.truncated, stderr.truncated;
    }
  }

  // ----- detachExecDrainers -----

  /**
   The drainer counter, at the granularity of its atomic adds. A job that finds
   the counter past the limit is `leaving` until it has taken its own add back.
   */
  datatype Drainers = Drainers(count: int, draining: set<nat>, leaving: set<nat>)

  datatype DrainStep = Arrive(job: nat) | GiveUp(job: nat) | Drained(job: nat)

  ghost predicate DrainNext(max: nat, s: Drainers, e: DrainStep, t: Drainers) {
    match e
    case Arrive(job) =>
      && job !in s.draining && job !in s.leaving
      && t == (if s.count + 1 > max
               then Drainers(s.count + 1, s.draining, s.leaving + {job})
               else Drainers(s.count + 1, s.draining + {job}, s.leaving))
    case GiveUp(job) =>
      job in s.leaving && t == Drainers(s.count - 1, s.draining, s.leaving - {job})
    case Drained(job) =>
      job in s.draining && t == Drainers(s.count - 1, s.draining - {job}, s.leaving)
  }

  ghost predicate DrainInv(max: nat, s: Drainers) {
    s.draining !! s.leaving && s.count == |s.draining| + |s.leaving| && |s.draining| <= max
  }

  /** A run of the counter from empty. */
  ghost predicate DrainRun(max: nat, states: seq<Drainers>, steps: seq<DrainStep>) {
    && |states| == |steps| + 1 && states[0] == Drainers(0, {}, {})
    && forall i :: 0 <= i < |steps| ==> DrainNext(max, states[i], steps[i], states[i + 1])
  }

  lemma DrainStepKeeps(max: nat, s: Drainers, e: DrainStep, t: Drainers)
    requires DrainInv(max, s) && DrainNext(max, s, e, t)
    ensures DrainInv(max, t)
  {
  }

  /** In every interleaving of the adds, no more readers are left draining than the limit allows. */
  lemma {:induction false} DrainersBounded(max: nat, states: seq<Drainers>, steps: seq<DrainStep>, i: nat)
    requires DrainRun(max, states, steps) && i < |states|
    ensures |states[i].draining| <= max && 0 <= states[i].count && DrainInv(max, states[i])
  {
    if i > 0 {
      DrainersBounded(max, states, steps, i - 1);
      DrainStepKeeps(max, states[i - 1], steps[i - 1], states[i]);
    }
  }

  /**
   In every interleaving an arriving job is refused if and only if the readers left
   draining and the refused jobs yet to take their add back fill the limit; so one
   refused with room to spare arrived beside such a job.
   */
  lemma RefusedExactly(max: nat, states: seq<Drainers>, steps: seq<DrainStep>, i: nat)
    requires DrainRun(max, states, steps) && i < |steps| && steps[i].Arrive?
    ensures var s, t, job := states[i], states[i + 1], steps[i].job;
      && (job in t.leaving <==> |s.draining| + |s.leaving| >= max)
      && (job in t.draining <==> |s.draining| + |s.leaving| < max)
      && (job in t.leaving && |s.draining| < max ==> s.leaving != {})
  {
    DrainersBounded(max, states, steps, i);
    assert DrainNext(max, states[i], steps[i], states[i + 1]);
  }

  /**
   The bound is not always reached: a job that is still taking its add back counts,
   so another can be refused while no reader is draining at all.
   */
  lemma RefusedBelowLimit() returns (states: seq<Drainers>, steps: seq<DrainStep>)
    ensures DrainRun(1, states, steps) && |states| == 5
    ensures states[3].draining == {} && steps[3] == Arrive(2) && 2 in states[4].leaving
  {
    steps := [Arrive(0), Arrive(1), Drained(0), Arrive(2)];
    states := [
      Drainers(0, {}, {}), Drainers(1, {0}, {}), Drainers(2, {0}, {1}), Drainers(1, {0} - {0}, {1}),
      Drainers(2, {0} - {0}, {1} + {2})];
    assert DrainNext(1, states[0], steps[0], states[1]);
    assert DrainNext(1, states[1], steps[1], states[2]);
    assert DrainNext(1, states[2], steps[2], states[3]);
    assert DrainNext(1, states[3], steps[3], states[4]);
    assert DrainRun(1, states, steps);
  }
}
