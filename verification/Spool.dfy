/**
 The read-ahead spool of one audit day: workers download the day's batches ahead
 of the verifier, which opens them in any order. The walk's goroutine and the
 workers are the parties of a state machine whose steps are channel operations;
 a download ends with any result.
 */
module Spool {
  import opened Collections
  import opened Options

  const FETCH_AHEAD_FACTOR: nat := 2

  /** What one download gives: a spool file, or an error. */
  datatype Fetched = Path(path: string) | Error(text: string)

  /** `result` is set once the batch's ready channel is closed. */
  datatype Slot = Slot(claimed: bool, prefetched: bool, seen: bool, result: Option<Fetched>)

  const NEW_SLOT := Slot(false, false, false, None)

  datatype Day = Day(order: seq<string>, slots: map<string, Slot>, next: nat, outstanding: int, jobs: seq<string>)

  // ----- Starting a day -----

  /** The names as listed, a repeated one only where it first appears. */
  function Distinct(names: seq<string>): (order: seq<string>)
    ensures forall n :: n in order <==> n in names
    ensures forall i, j :: 0 <= i < j < |order| ==> order[i] != order[j]
  {
    if |names| == 0 then []
    else
      var order := Distinct(names[..|names| - 1]);
      var last := names[|names| - 1];
      assert names == names[..|names| - 1] + [last];
      if last in order then order else order + [last]
  }

  function NewDay(names: seq<string>): Day {
    var order := Distinct(names);
    Day(order, map n | n in order :: NEW_SLOT, 0, 0, [])
  }

  // ----- Dispatch -----

  predicate MoreToDispatch(d: Day, ahead: nat) {
    d.outstanding < ahead && d.next < |d.order|
  }

  /** One turn of dispatch's loop. */
  function DispatchOne(d: Day): Day
    requires d.next < |d.order| && d.order[d.next] in d.slots
  {
    var name := d.order[d.next];
    if d.slots[name].claimed then d.(next := d.next + 1)
    else d.(next := d.next + 1, outstanding := d.outstanding + 1, jobs := d.jobs + [name],
            slots := d.slots[name := d.slots[name].(claimed := true, prefetched := true)])
  }

  // ----- The parties -----

  /** What the walk is doing: nothing, downloading a batch itself, waiting for one, in dispatch, or about to return one. */
  datatype Walk =
    | Idle
    | Fetching(name: string)
    | Waiting(name: string)
    | Dispatching(after: Walk)
    | Ending(name: string)

  datatype Delivery = Delivery(name: string, result: Fetched)

  /**
   `busy` holds the batches the workers are downloading, `started` every download
   begun, `log` what each download that ended gave, `served` what each Open ended with.
   */
  datatype State = State(
    day: Day, ahead: nat, workers: nat, walk: Walk, busy: set<string>,
    started: multiset<string>, log: map<string, Fetched>, served: seq<Delivery>)

  datatype Event =
    | OpenBegins(name: string)
    | WalkFetched(result: Fetched)
    | HandOver
    | Dispatch
    | DispatchEnds
    | OpenEnds
    | WorkerTakes
    | WorkerDone(name: string, result: Fetched)

  /** concurrency is raised to one; no more workers start than there are batches. */
  function Start(names: seq<string>, concurrency: int): State {
    var c: nat := if concurrency < 1 then 1 else concurrency;
    var n := |Distinct(names)|;
    State(NewDay(names), FETCH_AHEAD_FACTOR * c, if c < n then c else n, Dispatching(Idle), {}, multiset{}, map[], [])
  }

  function SlotOf(d: Day, name: string): Slot {
    if name in d.slots then d.slots[name] else NEW_SLOT
  }

  /** Open, up to its wait: an unclaimed batch is downloaded here, and one not in the listing gets a slot. */
  function Begin(s: State, name: string): State {
    var slot := SlotOf(s.day, name);
    if slot.claimed then s.(walk := Waiting(name))
    else s.(walk := Fetching(name), started := s.started + multiset{name},
            day := s.day.(slots := s.day.slots[name := slot.(claimed := true)]))
  }

  function Publish(s: State, name: string, result: Fetched): State
    requires name in s.day.slots
  {
    s.(day := s.day.(slots := s.day.slots[name := s.day.slots[name].(result := Some(result))]),
       log := s.log[name := result])
  }

  /** Open, after its wait: the first Open of a prefetched batch frees its place and dispatches. */
  function MarkOpened(d: Day, name: string): Day
    requires name in d.slots
  {
    var slot := d.slots[name];
    if slot.seen then d
    else d.(slots := d.slots[name := slot.(seen := true)],
            outstanding := if slot.prefetched then d.outstanding - 1 else d.outstanding)
  }

  predicate FreesPlace(d: Day, name: string)
    requires name in d.slots
  {
    !d.slots[name].seen && d.slots[name].prefetched
  }

  /** A send on the jobs channel needs room for it: the channel holds `ahead`. */
  ghost predicate Next(s: State, e: Event, t: State) {
    var d := s.day;
    match e
    case OpenBegins(name) => s.walk.Idle? && t == Begin(s, name)
    case WalkFetched(r) =>
      s.walk.Fetching? && s.walk.name in d.slots && t == Publish(s, s.walk.name, r).(walk := Waiting(s.walk.name))
    case HandOver =>
      && s.walk.Waiting? && s.walk.name in d.slots && d.slots[s.walk.name].result.Some?
      && t == s.(day := MarkOpened(d, s.walk.name),
                 walk := if FreesPlace(d, s.walk.name) then Dispatching(Ending(s.walk.name)) else Ending(s.walk.name))
    case Dispatch =>
      && s.walk.Dispatching? && MoreToDispatch(d, s.ahead) && d.order[d.next] in d.slots
      && (!d.slots[d.order[d.next]].claimed ==> |d.jobs| < s.ahead)
      && t == s.(day := DispatchOne(d))
    case DispatchEnds => s.walk.Dispatching? && !MoreToDispatch(d, s.ahead) && t == s.(walk := s.walk.after)
    case OpenEnds =>
      && s.walk.Ending? && s.walk.name in d.slots && d.slots[s.walk.name].result.Some?
      && t == s.(walk := Idle, served := s.served + [Delivery(s.walk.name, d.slots[s.walk.name].result.value)])
    case WorkerTakes =>
      && |s.busy| < s.workers && |d.jobs| > 0
      && t == s.(day := d.(jobs := d.jobs[1..]), busy := s.busy + {d.jobs[0]}, started := s.started + multiset{d.jobs[0]})
    case WorkerDone(name, r) =>
      name in s.busy && name in d.slots && t == Publish(s, name, r).(busy := s.busy - {name})
  }

  // ----- What every step keeps -----

  /** The batches prefetched and not yet opened. */
  function Ahead(d: Day): set<string> {
    set n | n in d.slots && d.slots[n].prefetched && !d.slots[n].seen
  }

  /** A claimed batch is in exactly one place, and its download has begun unless it is still queued. */
  ghost predicate SlotSound(s: State, n: string)
    requires n in s.day.slots
  {
    var slot := s.day.slots[n];
    var queued, running, own := n in s.day.jobs, n in s.busy, s.walk == Fetching(n);
    && (slot.claimed <==> queued || running || own || slot.result.Some?)
    && (queued ==> !running) && (queued || running ==> slot.prefetched && !own && slot.result.None?)
    && (own ==> !slot.prefetched && slot.result.None?)
    && (slot.prefetched ==> slot.claimed) && (slot.seen ==> slot.result.Some?)
    && s.started[n] == if slot.claimed && !queued then 1 else 0
  }

  ghost predicate SlotsSound(s: State) {
    forall n :: n in s.day.slots ==> SlotSound(s, n)
  }

  /** The batch the walk holds is known, and once its wait is over it is there. */
  ghost predicate WalkSound(s: State) {
    var w := if s.walk.Dispatching? then s.walk.after else s.walk;
    && (s.walk.Dispatching? ==> w.Idle? || w.Ending?)
    && (w.Idle? || (w.name in s.day.slots && s.day.slots[w.name].claimed))
    && (w.Ending? ==> s.day.slots[w.name].result.Some?)
  }

  ghost predicate JobsSound(d: Day) {
    Unique(d.jobs) && (forall n :: n in d.jobs ==> n in d.slots) && (d.jobs != [] ==> d.order != [])
  }

  ghost predicate NamesSound(s: State) {
    var d := s.day;
    && JobsSound(d)
    && (forall n :: n in d.order ==> n in d.slots) && d.next <= |d.order|
    && (forall n :: n in s.busy ==> n in d.slots)
    && (forall n :: n in s.started ==> n in d.slots)
    && (d.order != [] ==> s.workers > 0) && s.ahead > 0
  }

  ghost predicate Counted(s: State) {
    s.day.outstanding == |Ahead(s.day)| && s.day.outstanding <= s.ahead && |s.busy| <= s.workers
  }

  ghost predicate LogSound(s: State, n: string)
    requires n in s.day.slots
  {
    s.day.slots[n].result == if n in s.log then Some(s.log[n]) else None
  }

  ghost predicate LogsSound(s: State) {
    (forall n :: n in s.day.slots ==> LogSound(s, n)) && (forall n :: n in s.log ==> n in s.day.slots)
  }

  ghost predicate ServedSound(s: State) {
    forall i :: 0 <= i < |s.served| ==> s.served[i].name in s.log && s.served[i].result == s.log[s.served[i].name]
  }

  ghost predicate Inv(s: State) {
    SlotsSound(s) && WalkSound(s) && NamesSound(s) && Counted(s) && LogsSound(s) && ServedSound(s)
  }

  lemma SlotKeptByWalk(s: State, e: Event, t: State, n: string)
    requires WalkSound(s) && NamesSound(s) && Next(s, e, t) && (e.OpenBegins? || e.WalkFetched? || e.HandOver? || e.Dispatch?)
    requires n in s.day.slots ==> SlotSound(s, n)
    requires n in t.day.slots
    ensures SlotSound(t, n)
  {
  }

  lemma SlotKeptByWorker(s: State, e: Event, t: State, n: string)
    requires NamesSound(s) && Next(s, e, t) && (e.WorkerTakes? || e.WorkerDone?)
    requires n in s.day.slots && SlotSound(s, n)
    ensures SlotSound(t, n)
  {
  }

  lemma SlotsKept(s: State, e: Event, t: State)
    requires Inv(s) && Next(s, e, t)
    ensures SlotsSound(t)
  {
    forall n | n in t.day.slots
      ensures SlotSound(t, n)
    {
      match e {
        case DispatchEnds => assert SlotSound(s, n);
        case OpenEnds => assert SlotSound(s, n);
        case WorkerTakes => SlotKeptByWorker(s, e, t, n);
        case WorkerDone(_, _) => SlotKeptByWorker(s, e, t, n);
        case _ => SlotKeptByWalk(s, e, t, n);
      }
    }
  }

  lemma WalkKept(s: State, e: Event, t: State)
    requires WalkSound(s) && Next(s, e, t)
    requires e.HandOver? ==> SlotsSound(s)
    ensures WalkSound(t)
  {
  }

  lemma JobsKept(s: State, e: Event, t: State)
    requires JobsSound(s.day) && SlotsSound(s) && Next(s, e, t)
    ensures JobsSound(t.day)
  {
  }

  lemma NamesKept(s: State, e: Event, t: State)
    requires NamesSound(s) && JobsSound(t.day) && Next(s, e, t)
    ensures NamesSound(t)
  {
  }

  lemma LogsKept(s: State, e: Event, t: State)
    requires LogsSound(s) && Next(s, e, t)
    ensures LogsSound(t)
  {
  }

  /** What a download gave is never replaced. */
  lemma LogGrows(s: State, e: Event, t: State, n: string)
    requires SlotsSound(s) && LogsSound(s) && Next(s, e, t) && n in s.log
    ensures n in t.log && t.log[n] == s.log[n]
  {
  }

  lemma ServedKept(s: State, e: Event, t: State)
    requires Inv(s) && Next(s, e, t)
    ensures ServedSound(t)
  {
  }

  /** Only dispatch and the first Open of a prefetched batch change which batches are ahead. */
  lemma AheadOf(s: State, e: Event, t: State)
    requires SlotsSound(s) && Next(s, e, t)
    ensures e.Dispatch? ==> var n := s.day.order[s.day.next];
      Ahead(t.day) == if s.day.slots[n].claimed then Ahead(s.day) else Ahead(s.day) + {n}
    ensures e.HandOver? ==> Ahead(t.day) == if FreesPlace(s.day, s.walk.name) then Ahead(s.day) - {s.walk.name} else Ahead(s.day)
    ensures !e.Dispatch? && !e.HandOver? ==> Ahead(t.day) == Ahead(s.day)
  {
    if e.OpenBegins? {
      assert e.name in s.day.slots ==> SlotSound(s, e.name);
    }
  }

  lemma CountKept(s: State, e: Event, t: State)
    requires SlotsSound(s) && Counted(s) && Next(s, e, t)
    ensures Counted(t)
  {
    AheadOf(s, e, t);
    if e.Dispatch? {
      assert SlotSound(s, s.day.order[s.day.next]);
    }
  }

  lemma NextKeeps(s: State, e: Event, t: State)
    requires Inv(s) && Next(s, e, t)
    ensures Inv(t)
  {
    SlotsKept(s, e, t);
    WalkKept(s, e, t);
    JobsKept(s, e, t);
    NamesKept(s, e, t);
    CountKept(s, e, t);
    LogsKept(s, e, t);
    ServedKept(s, e, t);
  }

  ghost predicate Run(names: seq<string>, concurrency: int, states: seq<State>, events: seq<Event>) {
    && |states| == |events| + 1 && states[0] == Start(names, concurrency)
    && forall i :: 0 <= i < |events| ==> Next(states[i], events[i], states[i + 1])
  }

  lemma {:induction false} RunKeeps(names: seq<string>, concurrency: int, states: seq<State>, events: seq<Event>, i: nat)
    requires Run(names, concurrency, states, events) && i < |states|
    ensures Inv(states[i])
  {
    if i == 0 {
      assert Ahead(states[0].day) == {};
    } else {
      RunKeeps(names, concurrency, states, events, i - 1);
      NextKeeps(states[i - 1], events[i - 1], states[i]);
    }
  }

  // ----- What the spool promises -----

  lemma {:induction false} UniqueFits(jobs: seq<string>, within: set<string>)
    requires Unique(jobs) && forall i :: 0 <= i < |jobs| ==> jobs[i] in within
    ensures |jobs| <= |within|
  {
    if |jobs| > 0 {
      UniqueFits(jobs[1..], within - {jobs[0]});
    }
  }

  lemma QueueFits(s: State)
    requires Inv(s)
    ensures |s.day.jobs| <= s.day.outstanding
  {
    forall i | 0 <= i < |s.day.jobs|
      ensures s.day.jobs[i] in Ahead(s.day)
    {
      assert SlotSound(s, s.day.jobs[i]);
    }
    UniqueFits(s.day.jobs, Ahead(s.day));
  }

  /**
   In every interleaving no batch is fetched twice, outstanding is the number of
   batches fetched ahead and not opened yet, it never passes the cap, and the jobs
   channel holds no more than that.
   */
  lemma ReadAheadIsBounded(names: seq<string>, concurrency: int, states: seq<State>, events: seq<Event>, i: nat, name: string)
    requires Run(names, concurrency, states, events) && i < |states|
    ensures var s := states[i];
      && s.started[name] <= 1
      && s.day.outstanding == |Ahead(s.day)| && |s.day.jobs| <= s.day.outstanding <= s.ahead
  {
    RunKeeps(names, concurrency, states, events, i);
    QueueFits(states[i]);
    var s := states[i];
    if name in s.day.slots {
      assert SlotSound(s, name);
    } else {
      assert name !in s.started;
    }
  }

  lemma SizesKept(s: State, e: Event, t: State)
    requires Next(s, e, t)
    ensures t.workers == s.workers && t.ahead == s.ahead
  {
  }

  /** There are as many workers as asked for, one at least and no more than batches, and no more downloads than that run at once. */
  lemma {:induction false} WorkersAreBounded(names: seq<string>, concurrency: int, states: seq<State>, events: seq<Event>, i: nat)
    requires Run(names, concurrency, states, events) && i < |states|
    ensures var s, asked, batches := states[i], if concurrency > 1 then concurrency else 1, |Distinct(names)|;
      s.workers == (if asked < batches then asked else batches) && s.ahead == 2 * asked
    ensures |states[i].busy| <= states[i].workers
  {
    if i > 0 {
      WorkersAreBounded(names, concurrency, states, events, i - 1);
      SizesKept(states[i - 1], events[i - 1], states[i]);
    }
    RunKeeps(names, concurrency, states, events, i);
  }

  lemma FullKept(s: State, e: Event, t: State)
    requires Next(s, e, t) && (s.walk.Dispatching? || !MoreToDispatch(s.day, s.ahead))
    ensures t.walk.Dispatching? || !MoreToDispatch(t.day, t.ahead)
  {
  }

  lemma {:induction false} StaysFull(names: seq<string>, concurrency: int, states: seq<State>, events: seq<Event>, i: nat)
    requires Run(names, concurrency, states, events) && i < |states|
    ensures states[i].walk.Dispatching? || !MoreToDispatch(states[i].day, states[i].ahead)
  {
    if i > 0 {
      StaysFull(names, concurrency, states, events, i - 1);
      FullKept(states[i - 1], events[i - 1], states[i]);
    }
  }

  /** Whenever the walk is not dispatching, as much is fetched ahead as may be, or every batch has been handed out. */
  lemma {:induction false} ReadAheadIsFull(names: seq<string>, concurrency: int, states: seq<State>, events: seq<Event>, i: nat)
    requires Run(names, concurrency, states, events) && i < |states|
    ensures states[i].walk.Dispatching? || states[i].day.outstanding >= states[i].ahead || states[i].day.next == |states[i].day.order|
  {
    RunKeeps(names, concurrency, states, events, i);
    StaysFull(names, concurrency, states, events, i);
  }

  lemma {:induction false} LogStays(names: seq<string>, concurrency: int, states: seq<State>, events: seq<Event>, i: nat, j: nat, n: string)
    requires Run(names, concurrency, states, events) && i <= j < |states| && n in states[i].log
    ensures n in states[j].log && states[j].log[n] == states[i].log[n]
    decreases j - i
  {
    if i < j {
      RunKeeps(names, concurrency, states, events, i);
      LogGrows(states[i], events[i], states[i + 1], n);
      LogStays(names, concurrency, states, events, i + 1, j, n);
    }
  }

  /** Every Open of a batch ends with what its one download gave, whichever goroutine made it and however often it is opened. */
  lemma OpensAreDirectReads(names: seq<string>, concurrency: int, states: seq<State>, events: seq<Event>, i: nat, k: nat)
    requires Run(names, concurrency, states, events) && i < |states| && k < |states[i].served|
    ensures var d := states[i].served[k];
      d.name in states[|events|].log && d.result == states[|events|].log[d.name]
  {
    RunKeeps(names, concurrency, states, events, i);
    LogStays(names, concurrency, states, events, i, |events|, states[i].served[k].name);
  }

  /** The names opened by these events, in order. */
  function Opened(events: seq<Event>): seq<string> {
    if events == [] then []
    else
      var e := events[|events| - 1];
      Opened(events[..|events| - 1]) + if e.OpenBegins? then [e.name] else []
  }

  /** The name of the Open under way, if there is one. */
  function InHand(walk: Walk): seq<string> {
    match walk
    case Idle => []
    case Fetching(name) => [name]
    case Waiting(name) => [name]
    case Dispatching(after) => InHand(after)
    case Ending(name) => [name]
  }

  function NamesOf(served: seq<Delivery>): (names: seq<string>)
    ensures |names| == |served|
  {
    seq(|served|, k requires 0 <= k < |served| => served[k].name)
  }

  lemma ServedNext(s: State, e: Event, t: State)
    requires Next(s, e, t)
    ensures NamesOf(t.served) + InHand(t.walk) == NamesOf(s.served) + InHand(s.walk) + if e.OpenBegins? then [e.name] else []
  {
    if e.OpenEnds? {
      assert NamesOf(t.served) == NamesOf(s.served) + [s.walk.name];
    }
  }

  /** Every Open that began has ended, in the order they began, but for the one under way. */
  lemma {:induction false} OpensEndInOrder(names: seq<string>, concurrency: int, states: seq<State>, events: seq<Event>, i: nat)
    requires Run(names, concurrency, states, events) && i < |states|
    ensures NamesOf(states[i].served) + InHand(states[i].walk) == Opened(events[..i])
  {
    if i > 0 {
      OpensEndInOrder(names, concurrency, states, events, i - 1);
      ServedNext(states[i - 1], events[i - 1], states[i]);
      assert events[..i][..i - 1] == events[..i - 1];
    }
  }

  /** While an Open or a dispatch is under way there is a step to take that is not a new Open. */
  lemma NeverStuck(names: seq<string>, concurrency: int, states: seq<State>, events: seq<Event>) returns (e: Event, t: State)
    requires Run(names, concurrency, states, events) && !states[|events|].walk.Idle?
    ensures !e.OpenBegins? && Next(states[|events|], e, t)
  {
    var s := states[|events|];
    RunKeeps(names, concurrency, states, events, |events|);
    QueueFits(s);
    match s.walk
    case Fetching(name) => e, t := WalkFetched(Error("")), Publish(s, name, Error("")).(walk := Waiting(name));
    case Waiting(name) => e, t := WaitEnds(s, name);
    case Dispatching(after) =>
      if MoreToDispatch(s.day, s.ahead) {
        e, t := Dispatch, s.(day := DispatchOne(s.day));
      } else {
        e, t := DispatchEnds, s.(walk := after);
      }
    case Ending(name) =>
      e, t := OpenEnds, s.(walk := Idle, served := s.served + [Delivery(name, s.day.slots[name].result.value)]);
  }

  lemma WaitEnds(s: State, name: string) returns (e: Event, t: State)
    requires Inv(s) && s.walk == Waiting(name)
    ensures !e.OpenBegins? && Next(s, e, t)
  {
    var d := s.day;
    assert SlotSound(s, name);
    if d.slots[name].result.Some? {
      e := HandOver;
      t := s.(day := MarkOpened(d, name), walk := if FreesPlace(d, name) then Dispatching(Ending(name)) else Ending(name));
    } else if s.busy != {} {
      var other :| other in s.busy;
      e, t := WorkerDone(other, Error("")), Publish(s, other, Error("")).(busy := s.busy - {other});
    } else {
      e := WorkerTakes;
      t := s.(day := d.(jobs := d.jobs[1..]), busy := s.busy + {d.jobs[0]}, started := s.started + multiset{d.jobs[0]});
    }
  }

  function Phase(w: Walk): nat {
    match w
    case Idle => 0
    case Ending(_) => 1
    case Dispatching(_) => 2
    case Waiting(_) => 3
    case Fetching(_) => 4
  }

  /** What is left of the Open under way and of the downloads handed out; every step but a new Open lowers it. */
  function Left(s: State): int {
    3 * (|s.day.order| - s.day.next) + 2 * |s.day.jobs| + |s.busy| + Phase(s.walk)
  }

  lemma NextLowers(s: State, e: Event, t: State)
    requires s.day.next <= |s.day.order| && WalkSound(s) && Next(s, e, t) && !e.OpenBegins?
    ensures 0 <= Left(t) < Left(s)
  {
  }

  /** So an Open ends: between two Opens a run takes only so many steps, and it cannot stop before the walk is idle. */
  lemma {:induction false} OpenEndsInTime(names: seq<string>, concurrency: int, states: seq<State>, events: seq<Event>, i: nat, j: nat)
    requires Run(names, concurrency, states, events) && i <= j <= |events|
    requires forall k :: i <= k < j ==> !events[k].OpenBegins?
    ensures j - i <= Left(states[i])
    decreases j - i
  {
    RunKeeps(names, concurrency, states, events, i);
    if i < j {
      OpenEndsInTime(names, concurrency, states, events, i + 1, j);
      NextLowers(states[i], events[i], states[i + 1]);
    }
  }

  // ----- The day's own code -----

  /** dispatch's loop run to its end. */
  function DispatchAll(d: Day, ahead: nat): (r: Day)
    requires forall n :: n in d.order ==> n in d.slots
    ensures !MoreToDispatch(r, ahead) && r.order == d.order && d.jobs <= r.jobs
    decreases |d.order| - d.next
  {
    if MoreToDispatch(d, ahead) then DispatchAll(DispatchOne(d), ahead) else d
  }

  /** spoolDay: the state the walk's goroutine keeps of one day. */
  class SpoolDay {
    var order: seq<string>
    var slots: map<string, Slot>
    var next: nat
    var outstanding: int
    var jobs: seq<string>

    ghost function View(): Day
      reads this
    {
      Day(order, slots, next, outstanding, jobs)
    }

    constructor (names: seq<string>)
      ensures View() == NewDay(names)
    {
      order, slots, next, outstanding, jobs := [], map[], 0, 0, [];
      new;
      for i := 0 to |names|
        invariant order == Distinct(names[..i]) && slots == map n | n in order :: NEW_SLOT
        invariant next == 0 && outstanding == 0 && jobs == []
      {
        assert names[..i + 1][..i] == names[..i];
        if names[i] !in slots {
          slots := slots[names[i] := NEW_SLOT];
          order := order + [names[i]];
        }
      }
      assert names[..|names|] == names;
    }

    method Dispatch(ahead: nat)
      requires forall n :: n in order ==> n in slots
      modifies this
      ensures View() == DispatchAll(old(View()), ahead)
    {
      while outstanding < ahead && next < |order|
        invariant forall n :: n in order ==> n in slots
        invariant DispatchAll(View(), ahead) == DispatchAll(old(View()), ahead)
        decreases |order| - next
      {
        ghost var before := View();
        var name := order[next];
        next := next + 1;
        if slots[name].claimed {
          assert View() == DispatchOne(before);
          continue;
        }
        slots := slots[name := slots[name].(claimed := true, prefetched := true)];
        outstanding := outstanding + 1;
        jobs := jobs + [name];
        assert View() == DispatchOne(before);
      }
    }

    /** Open up to its wait; `here` says the walk downloads the batch itself. */
    method OpenClaim(name: string) returns (here: bool)
      modifies this`slots
      ensures here == !SlotOf(old(View()), name).claimed
      ensures View() == if here
        then old(View()).(slots := old(slots)[name := SlotOf(old(View()), name).(claimed := true)])
        else old(View())
      ensures name in slots && slots[name].claimed
    {
      var known := name in slots;
      if !known {
        slots := slots[name := NEW_SLOT];
      }
      here := !slots[name].claimed;
      if here {
        slots := slots[name := slots[name].(claimed := true)];
      }
    }

    /** Open once the batch is there: the result every Open of it ends with. */
    method OpenHandOver(name: string, ahead: nat) returns (result: Fetched)
      requires name in slots && slots[name].result.Some?
      requires forall n :: n in order ==> n in slots
      modifies this
      ensures Some(result) == old(slots[name].result)
      ensures var d := MarkOpened(old(View()), name);
        View() == if FreesPlace(old(View()), name) then DispatchAll(d, ahead) else d
    {
      result := slots[name].result.value;
      if !slots[name].seen {
        var freed := slots[name].prefetched;
        slots := slots[name := slots[name].(seen := true)];
        if freed {
          outstanding := outstanding - 1;
          Dispatch(ahead);
        }
      }
    }
  }
}
