/**
 The events one file watch collects between two flushes: a repeat of a path's
 latest event is folded into it, a full batch drops events and says so, and each
 reason for a loss is reported once.
 */
module WatchBatches {
  import opened Collections
  import opened Options

  /** One change of a file or folder; `kind` is create, modify, remove and so on. */
  datatype Change = Change(kind: string, path: string, isDir: bool)

  datatype Reason = KernelQueue | EventBuffer | WatchLimit

  datatype Entry = Changed(change: Change) | Lost(reason: Reason, path: string)

  /** watchBatch's fields; `last` finds a path's newest entry without a scan. */
  datatype Batch = Batch(events: seq<Entry>, last: map<string, nat>, overflow: set<Reason>)

  const NEW_BATCH := Batch([], map[], {})

  // ----- The batch's operations -----

  /** Where a scan from the back finds the path's latest event. */
  function LastIndex(events: seq<Entry>, path: string): (i: Option<nat>)
    ensures i.Some? ==> i.value < |events| && events[i.value].Changed? && events[i.value].change.path == path
  {
    if |events| == 0 then None
    else
      var n := |events| - 1;
      if events[n].Changed? && events[n].change.path == path then Some(n) else LastIndex(events[..n], path)
  }

  /** `last` agrees with the scan, and `overflow` holds the reasons reported. */
  ghost predicate Valid(b: Batch) {
    && (forall path :: LastIndex(b.events, path) == if path in b.last then Some(b.last[path]) else None)
    && (forall r :: r in b.overflow <==> Reported(b.events, r))
  }

  ghost predicate Reported(events: seq<Entry>, r: Reason) {
    exists i :: 0 <= i < |events| && events[i].Lost? && events[i].reason == r
  }

  predicate Folds(b: Batch, c: Change) {
    && c.path in b.last && b.last[c.path] < |b.events| && b.events[b.last[c.path]].Changed?
    && b.events[b.last[c.path]].change.kind == c.kind && b.events[b.last[c.path]].change.isDir == c.isDir
  }

  function Report(b: Batch, reason: Reason, path: string): Batch {
    if reason in b.overflow then b
    else Batch(b.events + [Lost(reason, path)], b.last, b.overflow + {reason})
  }

  function Add(b: Batch, c: Change, max: nat): Batch {
    if Folds(b, c) then b
    else if |b.events| >= max then Report(b, EventBuffer, "")
    else Batch(b.events + [Changed(c)], b.last[c.path := |b.events|], b.overflow)
  }

  datatype Op = AddChange(change: Change) | AddOverflow(reason: Reason, path: string)

  function Step(b: Batch, op: Op, max: nat): Batch {
    match op
    case AddChange(c) => Add(b, c, max)
    case AddOverflow(reason, path) => Report(b, reason, path)
  }

  /** The batch after these calls since it was last taken. */
  function After(ops: seq<Op>, max: nat): Batch {
    if |ops| == 0 then NEW_BATCH else Step(After(ops[..|ops| - 1], max), ops[|ops| - 1], max)
  }

  // ----- Changes, in order -----

  function Changes(events: seq<Entry>): seq<Change> {
    if |events| == 0 then []
    else
      var n := |events| - 1;
      if events[n].Changed? then Changes(events[..n]) + [events[n].change] else Changes(events[..n])
  }

  /** The changes the reader handed over. */
  function Raw(ops: seq<Op>): seq<Change> {
    if |ops| == 0 then []
    else
      var n := |ops| - 1;
      if ops[n].AddChange? then Raw(ops[..n]) + [ops[n].change] else Raw(ops[..n])
  }

  function OfPath(changes: seq<Change>, path: string): seq<Change> {
    if |changes| == 0 then []
    else
      var n := |changes| - 1;
      if changes[n].path == path then OfPath(changes[..n], path) + [changes[n]] else OfPath(changes[..n], path)
  }

  function LastOf(changes: seq<Change>, path: string): Option<Change> {
    var own := OfPath(changes, path);
    if |own| == 0 then None else Some(own[|own| - 1])
  }

  /** A sequence without the elements that repeat the one just before them. */
  function NoRepeats(changes: seq<Change>): seq<Change> {
    if |changes| == 0 then []
    else
      var n := |changes| - 1;
      if n > 0 && changes[n - 1] == changes[n] then NoRepeats(changes[..n]) else NoRepeats(changes[..n]) + [changes[n]]
  }

  /** All changes in order, without those that repeat their path's latest one. */
  function Folded(changes: seq<Change>): seq<Change> {
    if |changes| == 0 then []
    else
      var n := |changes| - 1;
      if LastOf(changes[..n], changes[n].path) == Some(changes[n]) then Folded(changes[..n])
      else Folded(changes[..n]) + [changes[n]]
  }

  lemma OfPathOneMore(changes: seq<Change>, c: Change, path: string)
    ensures OfPath(changes + [c], path) == if c.path == path then OfPath(changes, path) + [c] else OfPath(changes, path)
  {
  }

  /** Seen one path at a time, folding removes immediate repeats and nothing else. */
  lemma {:induction false} FoldedByPath(changes: seq<Change>, path: string)
    ensures OfPath(Folded(changes), path) == NoRepeats(OfPath(changes, path))
  {
    if |changes| > 0 {
      var n := |changes| - 1;
      var c, rest := changes[n], changes[..n];
      assert changes == rest + [c];
      FoldedByPath(rest, path);
      OfPathOneMore(rest, c, path);
      OfPathOneMore(Folded(rest), c, path);
      var own := OfPath(rest, path);
      assert (own + [c])[..|own|] == own;
    }
  }

  lemma FoldedKeepsLast(changes: seq<Change>, path: string)
    ensures LastOf(Folded(changes), path) == LastOf(changes, path)
  {
  }

  // ----- What every call keeps -----

  lemma LastIndexOneMore(events: seq<Entry>, e: Entry, path: string)
    ensures LastIndex(events + [e], path) ==
      if e.Changed? && e.change.path == path then Some(|events|) else LastIndex(events, path)
  {
  }

  lemma ReportedOneMore(events: seq<Entry>, e: Entry, r: Reason)
    ensures Reported(events + [e], r) <==> Reported(events, r) || (e.Lost? && e.reason == r)
  {
    var more := events + [e];
    assert more[|events|] == e;
    assert forall i :: 0 <= i < |events| ==> more[i] == events[i];
  }

  lemma OneMoreIsValid(b: Batch, e: Entry)
    requires Valid(b)
    ensures Valid(Batch(b.events + [e], if e.Changed? then b.last[e.change.path := |b.events|] else b.last,
                        if e.Lost? then b.overflow + {e.reason} else b.overflow))
  {
    forall path
      ensures LastIndex(b.events + [e], path) ==
        if e.Changed? && e.change.path == path then Some(|b.events|) else LastIndex(b.events, path)
    {
      LastIndexOneMore(b.events, e, path);
    }
    forall r
      ensures Reported(b.events + [e], r) <==> Reported(b.events, r) || (e.Lost? && e.reason == r)
    {
      ReportedOneMore(b.events, e, r);
    }
  }

  lemma StepKeepsValid(b: Batch, op: Op, max: nat)
    requires Valid(b)
    ensures Valid(Step(b, op, max))
  {
    match op
    case AddChange(c) =>
      OneMoreIsValid(b, Changed(c));
      OneMoreIsValid(b, Lost(EventBuffer, ""));
    case AddOverflow(reason, path) => OneMoreIsValid(b, Lost(reason, path));
  }

  /** After any calls, `last` agrees with a scan of the events from the back. */
  lemma {:induction false} LastAgreesWithScan(ops: seq<Op>, max: nat)
    ensures Valid(After(ops, max))
  {
    if |ops| > 0 {
      LastAgreesWithScan(ops[..|ops| - 1], max);
      StepKeepsValid(After(ops[..|ops| - 1], max), ops[|ops| - 1], max);
    }
  }

  lemma ChangesOneMore(events: seq<Entry>, e: Entry)
    ensures Changes(events + [e]) == if e.Changed? then Changes(events) + [e.change] else Changes(events)
  {
  }

  /** The scan finds the path's last change. */
  lemma {:induction false} ScanFindsLast(events: seq<Entry>, path: string)
    ensures LastOf(Changes(events), path) ==
      if LastIndex(events, path).Some? then Some(events[LastIndex(events, path).value].change) else None
  {
    if |events| > 0 {
      var n := |events| - 1;
      ScanFindsLast(events[..n], path);
      if events[n].Changed? {
        OfPathOneMore(Changes(events[..n]), events[n].change, path);
      }
    }
  }

  lemma FoldsIsRepeat(b: Batch, c: Change)
    requires Valid(b)
    ensures Folds(b, c) <==> LastOf(Changes(b.events), c.path) == Some(c)
  {
    ScanFindsLast(b.events, c.path);
    assert LastIndex(b.events, c.path) == if c.path in b.last then Some(b.last[c.path]) else None;
  }

  // ----- Nothing is lost in silence -----

  lemma FoldedOneMore(raw: seq<Change>, c: Change)
    ensures Folded(raw + [c]) == if LastOf(raw, c.path) == Some(c) then Folded(raw) else Folded(raw) + [c]
  {
  }

  lemma AddKeepsFolding(b: Batch, raw: seq<Change>, c: Change, max: nat)
    requires Valid(b) && Changes(b.events) == Folded(raw) && EventBuffer !in Add(b, c, max).overflow
    ensures Changes(Add(b, c, max).events) == Folded(raw + [c])
  {
    FoldsIsRepeat(b, c);
    FoldedKeepsLast(raw, c.path);
    FoldedOneMore(raw, c);
    ChangesOneMore(b.events, Changed(c));
  }

  lemma ReportKeepsChanges(b: Batch, reason: Reason, path: string)
    ensures Changes(Report(b, reason, path).events) == Changes(b.events)
  {
  }

  /** While the buffer has not overflowed, the batch holds every change but the folded ones, in order. */
  lemma {:induction false} NothingLost(ops: seq<Op>, max: nat)
    requires EventBuffer !in After(ops, max).overflow
    ensures Changes(After(ops, max).events) == Folded(Raw(ops))
  {
    if |ops| > 0 {
      var before, op := ops[..|ops| - 1], ops[|ops| - 1];
      var b := After(before, max);
      StepReports(b, op, max, EventBuffer);
      NothingLost(before, max);
      LastAgreesWithScan(before, max);
      match op
      case AddChange(c) => AddKeepsFolding(b, Raw(before), c, max);
      case AddOverflow(reason, path) => ReportKeepsChanges(b, reason, path);
    }
  }

  /** So each path's events are the raw ones with immediate repeats removed. */
  lemma NothingLostByPath(ops: seq<Op>, max: nat, path: string)
    requires EventBuffer !in After(ops, max).overflow
    ensures OfPath(Changes(After(ops, max).events), path) == NoRepeats(OfPath(Raw(ops), path))
  {
    NothingLost(ops, max);
    FoldedByPath(Raw(ops), path);
  }

  /** The i-th call's change was neither kept nor folded. */
  ghost predicate Dropped(ops: seq<Op>, max: nat, i: nat)
    requires i < |ops|
  {
    var b := After(ops[..i], max);
    ops[i].AddChange? && !Folds(b, ops[i].change) && |b.events| >= max
  }

  lemma StepReports(b: Batch, op: Op, max: nat, r: Reason)
    ensures r in Step(b, op, max).overflow <==>
      || r in b.overflow || (op.AddOverflow? && op.reason == r)
      || (r == EventBuffer && op.AddChange? && !Folds(b, op.change) && |b.events| >= max)
  {
  }

  /** Whether the i-th call lost a change, or says that one was lost. */
  ghost predicate Loses(ops: seq<Op>, max: nat, i: nat)
    requires i < |ops|
  {
    Dropped(ops, max, i) || (ops[i].AddOverflow? && ops[i].reason == EventBuffer)
  }

  lemma LosesBefore(ops: seq<Op>, max: nat, n: nat, i: nat)
    requires i < n <= |ops|
    ensures Loses(ops[..n], max, i) <==> Loses(ops, max, i)
  {
    assert ops[..n][..i] == ops[..i];
  }

  lemma LossOneMore(ops: seq<Op>, max: nat)
    requires |ops| > 0
    ensures var n := |ops| - 1;
      (exists i :: 0 <= i < |ops| && Loses(ops, max, i)) <==>
        (exists i :: 0 <= i < n && Loses(ops[..n], max, i)) || Loses(ops, max, n)
  {
    var n := |ops| - 1;
    forall i | 0 <= i < n
      ensures Loses(ops[..n], max, i) <==> Loses(ops, max, i)
    {
      LosesBefore(ops, max, n, i);
    }
  }

  /** The batch reports an event_buffer loss exactly when a change was dropped, or the reader reported one itself. */
  lemma {:induction false} LossIsReported(ops: seq<Op>, max: nat)
    ensures EventBuffer in After(ops, max).overflow <==> exists i :: 0 <= i < |ops| && Loses(ops, max, i)
  {
    if |ops| > 0 {
      var n := |ops| - 1;
      LossIsReported(ops[..n], max);
      StepReports(After(ops[..n], max), ops[n], max, EventBuffer);
      LossOneMore(ops, max);
    }
  }

  function AllReasons(): set<Reason> {
    {KernelQueue, EventBuffer, WatchLimit}
  }

  lemma AtMostThree(reasons: set<Reason>)
    ensures |reasons| <= 3
  {
    forall r | r in reasons
      ensures r in AllReasons()
    {
      match r
      case KernelQueue =>
      case EventBuffer =>
      case WatchLimit =>
    }
    SubsetSize(reasons, AllReasons());
  }

  ghost predicate Sized(b: Batch, max: nat) {
    |b.events| == |Changes(b.events)| + |b.overflow| && |Changes(b.events)| <= max
  }

  lemma StepKeepsSize(b: Batch, op: Op, max: nat)
    requires Sized(b, max)
    ensures Sized(Step(b, op, max), max)
  {
  }

  lemma {:induction false} AfterIsSized(ops: seq<Op>, max: nat)
    ensures Sized(After(ops, max), max)
  {
    if |ops| > 0 {
      AfterIsSized(ops[..|ops| - 1], max);
      StepKeepsSize(After(ops[..|ops| - 1], max), ops[|ops| - 1], max);
    }
  }

  /** A batch holds at most `max` changes and one report for each of the three reasons. */
  lemma SizeIsBounded(ops: seq<Op>, max: nat)
    ensures |Changes(After(ops, max).events)| <= max && |After(ops, max).events| <= max + 3
  {
    AfterIsSized(ops, max);
    AtMostThree(After(ops, max).overflow);
  }

  lemma EmptyIsNew(b: Batch)
    requires Valid(b) && b.events == []
    ensures b == NEW_BATCH
  {
  }

  // ----- The batch's own code -----

  class WatchBatch {
    var events: seq<Entry>
    var last: map<string, nat>
    var overflow: set<Reason>
    const max: nat

    ghost function View(): Batch
      reads this
    {
      Batch(events, last, overflow)
    }

    constructor (max: nat)
      ensures View() == NEW_BATCH && this.max == max && Valid(View())
    {
      this.max := max;
      events, last, overflow := [], map[], {};
    }

    method OverflowLocked(reason: Reason, path: string)
      requires Valid(View())
      modifies this
      ensures View() == Report(old(View()), reason, path) && Valid(View())
    {
      StepKeepsValid(View(), Op.AddOverflow(reason, path), max);
      if reason !in overflow {
        overflow := overflow + {reason};
        events := events + [Lost(reason, path)];
      }
    }

    method AddEvent(c: Change)
      requires Valid(View())
      modifies this
      ensures View() == Add(old(View()), c, max) && Valid(View())
    {
      StepKeepsValid(View(), AddChange(c), max);
      if c.path in last {
        assert LastIndex(events, c.path) == Some(last[c.path]);
        var latest := events[last[c.path]].change;
        if latest.kind == c.kind && latest.isDir == c.isDir {
          return;
        }
      }
      if |events| >= max {
        OverflowLocked(EventBuffer, "");
        return;
      }
      last := last[c.path := |events|];
      events := events + [Changed(c)];
    }

    method Take() returns (out: seq<Entry>)
      requires Valid(View())
      modifies this
      ensures out == old(events) && View() == NEW_BATCH && Valid(View())
    {
      out := events;
      if |events| == 0 {
        EmptyIsNew(View());
        return;
      }
      events, last, overflow := [], map[], {};
    }
  }
}
