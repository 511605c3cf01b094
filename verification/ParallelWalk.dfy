/**
 The access review reads every node of the cluster four at a time and merges the
 shares in node order. The walk is a state machine over its goroutines: the
 spawner, which takes a slot for each node; the readers; and the merge loop,
 which frees the slots. Each step is one channel operation.
 */
module ParallelWalk {
  import opened Options

  const PARALLEL_NODES: nat := 4

  datatype Error = NodeError(text: string) | Canceled

  /** What reading one node gives: its share of the review, or an error. */
  datatype Outcome<S> = Read(share: S) | Failed(error: Error)

  // ----- The simple form: one node after the other -----

  /** The first node, in order, whose read fails; the number of nodes when none does. */
  function FirstFailed<S>(outcomes: seq<Outcome<S>>): (k: nat)
    ensures k <= |outcomes|
    ensures forall i :: 0 <= i < k ==> outcomes[i].Read?
    ensures k < |outcomes| ==> outcomes[k].Failed?
  {
    if |outcomes| == 0 || outcomes[0].Failed? then 0 else 1 + FirstFailed(outcomes[1..])
  }

  function Shares<S>(outcomes: seq<Outcome<S>>): (shares: seq<S>)
    requires forall i :: 0 <= i < |outcomes| ==> outcomes[i].Read?
    ensures |shares| == |outcomes| && forall i :: 0 <= i < |shares| ==> shares[i] == outcomes[i].share
  {
    seq(|outcomes|, i requires 0 <= i < |outcomes| => outcomes[i].share)
  }

  /** What the left-to-right loop hands to the report before it stops. */
  function Added<S>(outcomes: seq<Outcome<S>>): seq<S> {
    Shares(outcomes[..FirstFailed(outcomes)])
  }

  /** What the left-to-right loop returns. */
  function Verdict<S>(outcomes: seq<Outcome<S>>): Option<Error> {
    var k := FirstFailed(outcomes);
    if k < |outcomes| then Some(outcomes[k].error) else None
  }

  lemma FirstFailedOfPrefix<S>(outcomes: seq<Outcome<S>>, n: nat)
    requires n <= |outcomes|
    ensures FirstFailed(outcomes[..n]) == if FirstFailed(outcomes) < n then FirstFailed(outcomes) else n
  {
    var k, j := FirstFailed(outcomes), FirstFailed(outcomes[..n]);
    assert j < n ==> outcomes[j].Failed?;
    assert k < n ==> outcomes[..n][k].Failed?;
  }

  /** The loop taken one node further. */
  lemma OneMore<S>(outcomes: seq<Outcome<S>>, n: nat)
    requires n < |outcomes|
    ensures Verdict(outcomes[..n]).Some? ==>
      Added(outcomes[..n + 1]) == Added(outcomes[..n]) && Verdict(outcomes[..n + 1]) == Verdict(outcomes[..n])
    ensures Verdict(outcomes[..n]).None? && outcomes[n].Failed? ==>
      Added(outcomes[..n + 1]) == Added(outcomes[..n]) && Verdict(outcomes[..n + 1]) == Some(outcomes[n].error)
    ensures Verdict(outcomes[..n]).None? && outcomes[n].Read? ==>
      Added(outcomes[..n + 1]) == Added(outcomes[..n]) + [outcomes[n].share] && Verdict(outcomes[..n + 1]).None?
  {
  }

  // ----- The concurrent form -----

  /** One node: not reached, being read, its result waiting in its channel, or received. */
  datatype Node<S> = Waiting | Reading | Delivered(outcome: Outcome<S>) | Received

  /**
   `spawned` is the spawner's loop index and `holding` says it has taken that
   node's slot; `merged` is the merge loop's index and `took` says it has received
   that node's result and not yet freed the slot. `used` counts the slots taken.
   */
  datatype State<S> = State(
    nodes: seq<Node<S>>, spawned: nat, holding: bool,
    merged: nat, took: bool, used: nat,
    canceled: bool, added: seq<S>, firstErr: Option<Error>)

  datatype Event<S> = TakeSlot | Launch | Finish(i: nat, outcome: Outcome<S>) | Receive | FreeSlot

  function Start<S>(n: nat): State<S> {
    State(seq(n, i => Waiting), 0, false, 0, false, 0, false, [], None)
  }

  /** The merge loop's handling of one result. */
  function Merge<S>(s: State<S>, o: Outcome<S>): State<S> {
    if s.firstErr.Some? then s
    else if o.Failed? then s.(firstErr := Some(o.error), canceled := true)
    else s.(added := s.added + [o.share])
  }

  /**
   A reader returns its node's own outcome; once the review is canceled it may
   instead return any error.
   */
  ghost predicate Next<S>(outcomes: seq<Outcome<S>>, s: State<S>, e: Event<S>, t: State<S>) {
    match e
    case TakeSlot =>
      !s.holding && s.spawned < |s.nodes| && s.used < PARALLEL_NODES && t == s.(used := s.used + 1, holding := true)
    case Launch =>
      && s.holding && s.spawned < |s.nodes|
      && t == s.(holding := false, spawned := s.spawned + 1,
                 nodes := s.nodes[s.spawned := if s.canceled then Delivered(Failed(Canceled)) else Reading])
    case Finish(i, o) =>
      && i < |s.nodes| && i < |outcomes| && s.nodes[i].Reading?
      && (o == outcomes[i] || (s.canceled && o.Failed?))
      && t == s.(nodes := s.nodes[i := Delivered(o)])
    case Receive =>
      && s.merged < |s.nodes| && !s.took && s.nodes[s.merged].Delivered?
      && t == Merge(s, s.nodes[s.merged].outcome).(took := true, nodes := s.nodes[s.merged := Received])
    case FreeSlot =>
      s.took && s.used > 0 && t == s.(took := false, used := s.used - 1, merged := s.merged + 1)
  }

  function One(b: bool): nat {
    if b then 1 else 0
  }

  /** How many results the merge loop has received. */
  function Handled<S>(s: State<S>): nat {
    s.merged + One(s.took)
  }

  ghost predicate Counted<S>(s: State<S>) {
    && Handled(s) <= s.spawned && s.spawned + One(s.holding) <= |s.nodes|
    && s.used == s.spawned + One(s.holding) - s.merged && s.used <= PARALLEL_NODES
  }

  ghost predicate Marked<S>(s: State<S>) {
    forall i :: 0 <= i < |s.nodes| ==>
      (s.nodes[i].Waiting? <==> s.spawned <= i) && (s.nodes[i].Received? <==> i < Handled(s))
  }

  ghost predicate Ordered<S>(s: State<S>) {
    Counted(s) && Marked(s)
  }

  ghost predicate Faithful<S>(outcomes: seq<Outcome<S>>, s: State<S>)
    requires |outcomes| == |s.nodes|
  {
    forall i :: 0 <= i < |s.nodes| ==> s.nodes[i].Delivered? ==> s.nodes[i].outcome == outcomes[i] || s.canceled
  }

  ghost predicate InStep<S>(outcomes: seq<Outcome<S>>, s: State<S>)
    requires Handled(s) <= |outcomes|
  {
    && s.added == Added(outcomes[..Handled(s)]) && s.firstErr == Verdict(outcomes[..Handled(s)])
    && s.canceled == s.firstErr.Some?
  }

  ghost predicate Inv<S>(outcomes: seq<Outcome<S>>, s: State<S>) {
    |s.nodes| == |outcomes| && Ordered(s) && Faithful(outcomes, s) && InStep(outcomes, s)
  }

  lemma CountKept<S>(outcomes: seq<Outcome<S>>, s: State<S>, e: Event<S>, t: State<S>)
    requires Ordered(s) && Next(outcomes, s, e, t)
    ensures |t.nodes| == |s.nodes| && Counted(t)
  {
  }

  lemma MarksKept<S>(outcomes: seq<Outcome<S>>, s: State<S>, e: Event<S>, t: State<S>)
    requires Ordered(s) && Next(outcomes, s, e, t)
    ensures Marked(t)
  {
  }

  lemma ReceiveKeeps<S>(outcomes: seq<Outcome<S>>, s: State<S>)
    requires Inv(outcomes, s) && s.merged < |s.nodes| && !s.took && s.nodes[s.merged].Delivered?
    ensures InStep(outcomes, Merge(s, s.nodes[s.merged].outcome).(took := true))
  {
    OneMore(outcomes, s.merged);
  }

  lemma FaithKept<S>(outcomes: seq<Outcome<S>>, s: State<S>, e: Event<S>, t: State<S>)
    requires |s.nodes| == |outcomes| && Faithful(outcomes, s) && Next(outcomes, s, e, t)
    ensures |t.nodes| == |outcomes| && Faithful(outcomes, t)
  {
  }

  lemma NextKeeps<S>(outcomes: seq<Outcome<S>>, s: State<S>, e: Event<S>, t: State<S>)
    requires Inv(outcomes, s) && Next(outcomes, s, e, t)
    ensures Inv(outcomes, t)
  {
    CountKept(outcomes, s, e, t);
    MarksKept(outcomes, s, e, t);
    FaithKept(outcomes, s, e, t);
    if e.Receive? {
      ReceiveKeeps(outcomes, s);
    } else {
      assert Handled(t) == Handled(s);
    }
  }

  ghost predicate Run<S>(outcomes: seq<Outcome<S>>, states: seq<State<S>>, events: seq<Event<S>>) {
    && |states| == |events| + 1 && states[0] == Start(|outcomes|)
    && forall i :: 0 <= i < |events| ==> Next(outcomes, states[i], events[i], states[i + 1])
  }

  lemma {:induction false} RunKeeps<S>(outcomes: seq<Outcome<S>>, states: seq<State<S>>, events: seq<Event<S>>, i: nat)
    requires Run(outcomes, states, events) && i < |states|
    ensures Inv(outcomes, states[i])
  {
    if i == 0 {
      assert outcomes[..0] == [];
    } else {
      RunKeeps(outcomes, states, events, i - 1);
      NextKeeps(outcomes, states[i - 1], events[i - 1], states[i]);
    }
  }

  /** The nodes whose slot is still taken: being read, waiting to be merged, or being merged. */
  function Unmerged<S>(s: State<S>): set<nat> {
    set i: nat | s.merged <= i < |s.nodes| && !s.nodes[i].Waiting?
  }

  lemma {:induction false} SizeOfRange(a: nat, b: nat, xs: set<nat>)
    requires a <= b && forall i: nat :: i in xs <==> a <= i < b
    ensures |xs| == b - a
  {
    if a < b {
      SizeOfRange(a, b - 1, xs - {b - 1});
    } else {
      assert xs == {};
    }
  }

  /** At every moment the report holds what the left-to-right loop would have added, and at most four nodes are unmerged. */
  lemma AlwaysBounded<S>(outcomes: seq<Outcome<S>>, states: seq<State<S>>, events: seq<Event<S>>, i: nat)
    requires Run(outcomes, states, events) && i < |states|
    ensures |Unmerged(states[i])| <= PARALLEL_NODES
    ensures states[i].added <= Added(outcomes)
  {
    RunKeeps(outcomes, states, events, i);
    var s := states[i];
    SizeOfRange(s.merged, s.spawned, Unmerged(s));
    FirstFailedOfPrefix(outcomes, Handled(s));
  }

  /**
   When the merge loop ends it has added exactly the shares before the first
   failing node, in node order, and returns that node's error; the spawner is done,
   no node is still being read and every slot is free.
   */
  lemma EndsAsTheSimpleLoop<S>(outcomes: seq<Outcome<S>>, states: seq<State<S>>, events: seq<Event<S>>)
    requires Run(outcomes, states, events) && states[|events|].merged == |outcomes|
    ensures var s := states[|events|];
      && s.added == Added(outcomes) && s.firstErr == Verdict(outcomes)
      && s.spawned == |outcomes| && s.used == 0 && forall i :: 0 <= i < |s.nodes| ==> s.nodes[i].Received?
  {
    RunKeeps(outcomes, states, events, |events|);
    assert outcomes[..|outcomes|] == outcomes;
  }

  // ----- No schedule deadlocks -----

  /** Before the merge loop ends there is always a step to take. */
  lemma NeverStuck<S>(outcomes: seq<Outcome<S>>, states: seq<State<S>>, events: seq<Event<S>>) returns (e: Event<S>, t: State<S>)
    requires Run(outcomes, states, events) && states[|events|].merged < |outcomes|
    ensures Next(outcomes, states[|events|], e, t)
  {
    var s := states[|events|];
    RunKeeps(outcomes, states, events, |events|);
    if s.took {
      e, t := FreeSlot, s.(took := false, used := s.used - 1, merged := s.merged + 1);
    } else if s.nodes[s.merged].Delivered? {
      e := Receive;
      t := Merge(s, s.nodes[s.merged].outcome).(took := true, nodes := s.nodes[s.merged := Received]);
    } else if s.nodes[s.merged].Reading? {
      e := Finish(s.merged, outcomes[s.merged]);
      t := s.(nodes := s.nodes[s.merged := Delivered(outcomes[s.merged])]);
    } else if s.holding {
      e := Launch;
      t := s.(holding := false, spawned := s.spawned + 1,
              nodes := s.nodes[s.spawned := if s.canceled then Delivered(Failed(Canceled)) else Reading]);
    } else {
      e, t := TakeSlot, s.(used := s.used + 1, holding := true);
    }
  }

  function Weight<S>(n: Node<S>): nat {
    match n
    case Waiting => 3
    case Reading => 2
    case Delivered(_) => 1
    case Received => 0
  }

  function Work<S>(nodes: seq<Node<S>>): nat {
    if |nodes| == 0 then 0 else Weight(nodes[0]) + Work(nodes[1..])
  }

  lemma {:induction false} WorkOfUpdate<S>(nodes: seq<Node<S>>, i: nat, n: Node<S>)
    requires i < |nodes|
    ensures Work(nodes[i := n]) + Weight(nodes[i]) == Work(nodes) + Weight(n)
  {
    if i == 0 {
      assert nodes[0 := n][1..] == nodes[1..];
    } else {
      WorkOfUpdate(nodes[1..], i - 1, n);
      assert nodes[i := n][1..] == nodes[1..][i - 1 := n];
    }
  }

  lemma {:induction false} WorkAtStart<S>(nodes: seq<Node<S>>)
    requires forall i :: 0 <= i < |nodes| ==> nodes[i].Waiting?
    ensures Work(nodes) == 3 * |nodes|
  {
    if |nodes| > 0 {
      WorkAtStart(nodes[1..]);
    }
  }

  /** What is left to do; every step lowers it. */
  function Left<S>(s: State<S>): nat {
    2 * Work(s.nodes) + One(!s.holding) + One(s.took)
  }

  lemma NextLowers<S>(outcomes: seq<Outcome<S>>, s: State<S>, e: Event<S>, t: State<S>)
    requires Ordered(s) && Next(outcomes, s, e, t)
    ensures Left(t) < Left(s)
  {
    match e
    case TakeSlot =>
    case Launch => WorkOfUpdate(s.nodes, s.spawned, t.nodes[s.spawned]);
    case Finish(i, o) => WorkOfUpdate(s.nodes, i, Delivered(o));
    case Receive => WorkOfUpdate(s.nodes, s.merged, Received);
    case FreeSlot =>
  }

  lemma {:induction false} RunLowers<S>(outcomes: seq<Outcome<S>>, states: seq<State<S>>, events: seq<Event<S>>, i: nat)
    requires Run(outcomes, states, events) && i < |states|
    ensures Left(states[i]) + i <= 6 * |outcomes| + 1
  {
    if i == 0 {
      WorkAtStart(states[0].nodes);
    } else {
      RunLowers(outcomes, states, events, i - 1);
      RunKeeps(outcomes, states, events, i - 1);
      NextLowers(outcomes, states[i - 1], events[i - 1], states[i]);
    }
  }

  /** Every schedule ends: no run is longer than six steps a node and one more. */
  lemma EveryRunEnds<S>(outcomes: seq<Outcome<S>>, states: seq<State<S>>, events: seq<Event<S>>)
    requires Run(outcomes, states, events)
    ensures |events| <= 6 * |outcomes| + 1
  {
    RunLowers(outcomes, states, events, |events|);
  }

  // ----- The merge loop -----

  /**
   The merge loop, given what it receives on each node's channel in turn: the
   outcomes themselves up to the first failure, anything after it.
   */
  method MergeLoop<S>(outcomes: seq<Outcome<S>>, received: seq<Outcome<S>>) returns (added: seq<S>, firstErr: Option<Error>)
    requires |received| == |outcomes|
    requires forall i :: 0 <= i < |outcomes| && i <= FirstFailed(outcomes) ==> received[i] == outcomes[i]
    ensures added == Added(outcomes) && firstErr == Verdict(outcomes)
  {
    added, firstErr := [], None;
    assert outcomes[..0] == [];
    for i := 0 to |received|
      invariant added == Added(outcomes[..i]) && firstErr == Verdict(outcomes[..i])
    {
      OneMore(outcomes, i);
      FirstFailedOfPrefix(outcomes, i);
      var res := received[i];
      if res.Failed? {
        if firstErr.None? {
          firstErr := Some(res.error);
        }
      } else if firstErr.None? {
        added := added + [res.share];
      }
    }
    assert outcomes[..|outcomes|] == outcomes;
  }
}
