/**
 The slots file watches share: a watch takes one before it is armed, gives it back
 when arming fails, and otherwise when it is first closed, however often it is.
 */
module WatchBudgets {
  /** A watch whose slot is taken before the kernel has it, one that is open, and one that is over. */
  datatype Watch = Arming | Open | Over

  datatype State = State(streams: int, maxStreams: nat, watches: map<nat, Watch>)

  datatype Event = OpenStream(w: nat) | Refused | Armed(w: nat, ok: bool) | Close(w: nat)

  ghost predicate Next(s: State, e: Event, t: State) {
    match e
    case OpenStream(w) =>
      w !in s.watches && s.streams < s.maxStreams && t == s.(streams := s.streams + 1, watches := s.watches[w := Arming])
    case Refused => s.streams >= s.maxStreams && t == s
    case Armed(w, ok) =>
      && w in s.watches && s.watches[w].Arming?
      && t == if ok then s.(watches := s.watches[w := Open]) else s.(streams := s.streams - 1, watches := s.watches[w := Over])
    case Close(w) =>
      && w in s.watches && !s.watches[w].Arming?
      && t == if s.watches[w].Open? then s.(streams := s.streams - 1, watches := s.watches[w := Over]) else s
  }

  function Holding(s: State): set<nat> {
    set w | w in s.watches && !s.watches[w].Over?
  }

  ghost predicate Run(states: seq<State>, events: seq<Event>) {
    && |states| == |events| + 1 && states[0].streams == 0 && states[0].watches == map[]
    && forall i :: 0 <= i < |events| ==> Next(states[i], events[i], states[i + 1])
  }

  lemma HoldingAfter(s: State, n: int, w: nat, x: Watch)
    ensures var t := s.(streams := n, watches := s.watches[w := x]);
      Holding(t) == if x.Over? then Holding(s) - {w} else Holding(s) + {w}
  {
  }

  lemma NextKeeps(s: State, e: Event, t: State)
    requires s.streams == |Holding(s)| && s.streams <= s.maxStreams && Next(s, e, t)
    ensures t.streams == |Holding(t)| && t.streams <= t.maxStreams && t.maxStreams == s.maxStreams
  {
    match e
    case OpenStream(w) => HoldingAfter(s, s.streams + 1, w, Arming);
    case Refused =>
    case Armed(w, ok) =>
      assert w in Holding(s);
      if ok {
        HoldingAfter(s, s.streams, w, Open);
        assert Holding(s) + {w} == Holding(s);
      } else {
        HoldingAfter(s, s.streams - 1, w, Over);
      }
    case Close(w) =>
      if s.watches[w].Open? {
        assert w in Holding(s);
        HoldingAfter(s, s.streams - 1, w, Over);
      }
  }

  /** In every run the count is the number of watches that hold a slot: never negative, never past the cap, and zero once all are over. */
  lemma {:induction false} CountIsExact(states: seq<State>, events: seq<Event>, i: nat)
    requires Run(states, events) && i < |states|
    ensures states[i].streams == |Holding(states[i])| && states[i].streams <= states[i].maxStreams
  {
    if i == 0 {
      assert Holding(states[0]) == {};
    } else {
      CountIsExact(states, events, i - 1);
      NextKeeps(states[i - 1], events[i - 1], states[i]);
    }
  }

  /** What has become of a watch by then. */
  function Status(past: seq<Event>, w: nat): Watch {
    if Armed(w, true) !in past && Armed(w, false) !in past then Arming
    else if Armed(w, true) in past && Close(w) !in past then Open
    else Over
  }

  /** In every run a watch is there once it was opened, and over once its arming failed or it was closed. */
  lemma {:induction false} WatchIs(states: seq<State>, events: seq<Event>, i: nat, w: nat)
    requires Run(states, events) && i < |states|
    ensures w in states[i].watches <==> OpenStream(w) in events[..i]
    ensures w in states[i].watches ==> states[i].watches[w] == Status(events[..i], w)
    ensures w !in states[i].watches ==> Armed(w, true) !in events[..i] && Armed(w, false) !in events[..i]
    ensures w !in states[i].watches || states[i].watches[w].Arming? ==> Close(w) !in events[..i]
  {
    if i > 0 {
      WatchIs(states, events, i - 1, w);
      assert Next(states[i - 1], events[i - 1], states[i]);
      assert events[..i] == events[..i - 1] + [events[i - 1]];
    }
  }

  // ----- The budget's own code -----

  class WatchBudget {
    var streams: int
    const maxStreams: nat

    constructor (maxStreams: nat)
      ensures streams == 0 && this.maxStreams == maxStreams
    {
      this.maxStreams, streams := maxStreams, 0;
    }

    method OpenStream() returns (ok: bool)
      modifies this
      ensures ok <==> old(streams) < maxStreams
      ensures streams == if ok then old(streams) + 1 else old(streams)
    {
      if streams >= maxStreams {
        return false;
      }
      streams := streams + 1;
      return true;
    }

    method CloseStream()
      modifies this
      ensures streams == old(streams) - 1
    {
      streams := streams - 1;
    }
  }

  /** One open watch; closeOnce is its flag. */
  class FileWatch {
    const budget: WatchBudget
    var closed: bool

    constructor (budget: WatchBudget)
      ensures this.budget == budget && !closed
    {
      this.budget, closed := budget, false;
    }

    /** Closing twice gives the slot back once. */
    method Close()
      modifies this, budget
      ensures closed && budget.streams == old(budget.streams) - (if old(closed) then 0 else 1)
    {
      if !closed {
        closed := true;
        budget.CloseStream();
      }
    }
  }
}
