/**
 toolboxd's PID-1 reaper against the waiters of its own exec children
 (child_table.go). The kernel, the table under its lock, the reaper's wait4 and
 the delivery that follows it under the same lock, cmd.Wait and settle are
 separate steps; processes exit, and freed pids are taken again, at any time.
 */
module ChildTable {
  import opened Options

  // ----- The table -----

  /** byPID, and the statuses waiting in each child's channel. */
  datatype Table = Table(byPid: map<nat, nat>, channel: map<nat, seq<int>>)

  const CHANNEL_CAPACITY := 1

  function Register(t: Table, pid: nat, child: nat): Table {
    Table(t.byPid[pid := child], t.channel[child := []])
  }

  /** Hand a reaped status to whoever is registered under the pid. */
  function Deliver(t: Table, pid: nat, status: int): Table
    requires forall c :: c in t.byPid.Values ==> c in t.channel
  {
    if pid in t.byPid
    then assert t.byPid[pid] in t.byPid.Values; Table(t.byPid - {pid}, t.channel[t.byPid[pid] := t.channel[t.byPid[pid]] + [status]])
    else t
  }

  /** settle takes out the entry only while it is this child's own. */
  function Unregister(t: Table, pid: nat, child: nat): Table {
    if pid in t.byPid && t.byPid[pid] == child then t.(byPid := t.byPid - {pid}) else t
  }

  function TakeStatus(t: Table, child: nat): Table
    requires child in t.channel && t.channel[child] != []
  {
    t.(channel := t.channel[child := t.channel[child][1..]])
  }

  // ----- The system -----

  datatype Taker = Reaper | Waiter

  datatype Phase = Running | Zombie(status: int) | Gone(status: int, taker: Taker)

  /** A process; `tracked` ones are exec children, the others orphans handed to PID 1. */
  datatype Process = Process(pid: nat, tracked: bool, phase: Phase)

  /** What cmd.Wait returned: the status it collected, or ECHILD/ESRCH. */
  datatype WaitResult = Own(status: int) | Elsewhere

  /** A child's waiter: in cmd.Wait, past it, or settled with a status or with the error "status gone". */
  datatype Wait = Waiting | Returned(result: WaitResult) | Settled(status: Option<int>)

  /** Which process the reaper took while it still holds the lock. */
  datatype Lock = Free | Reaping(process: nat)

  datatype State = State(processes: map<nat, Process>, table: Table, waits: map<nat, Wait>, lock: Lock)

  /** How cmd.Wait names its child: by pidfd, or by the bare number. */
  datatype Naming = Pidfd | Number

  datatype Event =
    | Start(child: nat, pid: nat)
    | Adopt(process: nat, pid: nat)
    | Exit(process: nat, status: int)
    | Wait4(process: nat)
    | HandOver
    | CmdWait(child: nat, target: Option<nat>)
    | Settle(child: nat)

  /** A process the kernel still knows: running, or a zombie nobody has collected. */
  predicate Alive(s: State, p: nat) {
    p in s.processes && !s.processes[p].phase.Gone?
  }

  predicate InUse(s: State, pid: nat) {
    exists p :: p in s.processes && Alive(s, p) && s.processes[p].pid == pid
  }

  /** The process a cmd.Wait for `child` waits on, if there is one. */
  ghost predicate Target(naming: Naming, s: State, child: nat, target: Option<nat>)
    requires child in s.processes
  {
    match target
    case Some(p) =>
      && p in s.processes && s.processes[p].phase.Zombie?
      && (if naming.Pidfd? then p == child else s.processes[p].pid == s.processes[child].pid)
    case None =>
      if naming.Pidfd? then s.processes[child].phase.Gone? else !InUse(s, s.processes[child].pid)
  }

  ghost predicate Next(naming: Naming, s: State, e: Event, t: State) {
    match e
    case Start(c, pid) =>
      && s.lock.Free? && c !in s.processes && c !in s.waits && !InUse(s, pid)
      && t == State(s.processes[c := Process(pid, true, Running)], Register(s.table, pid, c), s.waits[c := Waiting], Free)
    case Adopt(p, pid) =>
      && p !in s.processes && p !in s.waits && !InUse(s, pid)
      && t == s.(processes := s.processes[p := Process(pid, false, Running)])
    case Exit(p, status) =>
      && p in s.processes && s.processes[p].phase.Running?
      && t == s.(processes := s.processes[p := s.processes[p].(phase := Zombie(status))])
    case Wait4(p) =>
      && s.lock.Free? && p in s.processes && s.processes[p].phase.Zombie?
      && t == s.(processes := s.processes[p := s.processes[p].(phase := Gone(s.processes[p].phase.status, Reaper))],
                 lock := Reaping(p))
    case HandOver =>
      && s.lock.Reaping? && s.lock.process in s.processes && s.processes[s.lock.process].phase.Gone?
      && var p := s.processes[s.lock.process];
         && (forall c :: c in s.table.byPid.Values ==> c in s.table.channel)
         && (p.pid in s.table.byPid ==>
               s.table.byPid[p.pid] in s.table.byPid.Values && |s.table.channel[s.table.byPid[p.pid]]| < CHANNEL_CAPACITY)
         && t == s.(table := Deliver(s.table, p.pid, p.phase.status), lock := Free)
    case CmdWait(c, target) =>
      && c in s.processes && s.processes[c].tracked && c in s.waits && s.waits[c].Waiting? && Target(naming, s, c, target)
      && t == (match target
               case Some(p) =>
                 s.(processes := s.processes[p := s.processes[p].(phase := Gone(s.processes[p].phase.status, Waiter))],
                    waits := s.waits[c := Returned(Own(s.processes[p].phase.status))])
               case None => s.(waits := s.waits[c := Returned(Elsewhere)]))
    case Settle(c) =>
      && s.lock.Free? && c in s.processes && c in s.waits && s.waits[c].Returned? && c in s.table.channel
      && var table := Unregister(s.table, s.processes[c].pid, c);
         t == (match s.waits[c].result
               case Own(status) => s.(table := table, waits := s.waits[c := Settled(Some(status))])
               case Elsewhere =>
                 if table.channel[c] != []
                 then s.(table := TakeStatus(table, c), waits := s.waits[c := Settled(Some(table.channel[c][0]))])
                 else s.(table := table, waits := s.waits[c := Settled(None)]))
  }

  const BOOT := State(map[], Table(map[], map[]), map[], Free)

  // ----- What every step keeps -----

  /** No two live processes share a pid. */
  ghost predicate PidsUnique(s: State) {
    forall p, q {:trigger Alive(s, p), Alive(s, q)} ::
      (Alive(s, p) && Alive(s, q) && s.processes[p].pid == s.processes[q].pid ==> p == q)
  }

  ghost predicate WellTyped(s: State) {
    && (forall c :: c in s.waits <==> c in s.processes && s.processes[c].tracked)
    && (forall c :: c in s.table.channel <==> c in s.waits)
    && (s.lock.Reaping? ==> s.lock.process in s.processes && s.processes[s.lock.process].phase.Gone?
                            && s.processes[s.lock.process].phase.taker.Reaper?)
  }

  ghost predicate Registered(s: State, c: nat)
    requires c in s.processes
  {
    s.processes[c].pid in s.table.byPid && s.table.byPid[s.processes[c].pid] == c
  }

  /** Every entry is its own child's, its channel is empty, and its child was not handed over yet. */
  ghost predicate EntriesSound(s: State)
    requires WellTyped(s)
  {
    forall pid :: pid in s.table.byPid ==>
      var c := s.table.byPid[pid];
      && c in s.waits && s.processes[c].pid == pid && s.table.channel[c] == []
      && (s.processes[c].phase.Gone? ==>
            || (s.processes[c].phase.taker.Waiter? && s.waits[c].Returned?)
            || (s.processes[c].phase.taker.Reaper? && s.lock == Reaping(c)))
  }

  /** Where one child's status is. */
  ghost predicate ChildSound(s: State, c: nat)
    requires WellTyped(s) && c in s.waits
  {
    var p := s.processes[c];
    match p.phase
    case Running => Registered(s, c) && s.waits[c].Waiting?
    case Zombie(_) => Registered(s, c) && s.waits[c].Waiting?
    case Gone(status, Waiter) => s.waits[c] == Returned(Own(status)) || s.waits[c] == Settled(Some(status))
    case Gone(status, Reaper) =>
      && (s.waits[c].Waiting? || s.waits[c] == Returned(Elsewhere) || s.waits[c] == Settled(Some(status)))
      && (if s.lock == Reaping(c) then Registered(s, c) && !s.waits[c].Settled?
          else s.table.channel[c] == if s.waits[c].Settled? then [] else [status])
  }

  /** What the reaper is about to deliver belongs to the entry, or to nobody who will read it. */
  ghost predicate DeliverySound(s: State)
    requires WellTyped(s)
  {
    s.lock.Reaping? ==>
      var pid := s.processes[s.lock.process].pid;
      pid in s.table.byPid ==>
        var c := s.table.byPid[pid];
        c == s.lock.process || (c in s.processes && s.processes[c].phase.Gone? && s.processes[c].phase.taker.Waiter?)
  }

  /** A child whose waiter is still in cmd.Wait. */
  predicate Awaited(s: State, c: nat) {
    c in s.waits && s.waits[c].Waiting? && c in s.processes
  }

  /** Waiting by number is sound while no live process has taken a waiting child's pid. */
  ghost predicate NumbersMeanChildren(s: State)
    requires WellTyped(s)
  {
    forall c, q {:trigger Awaited(s, c), Alive(s, q)} ::
      (Awaited(s, c) && Alive(s, q) && s.processes[q].pid == s.processes[c].pid ==> q == c)
  }

  ghost predicate Inv(naming: Naming, s: State) {
    && WellTyped(s) && PidsUnique(s) && EntriesSound(s) && DeliverySound(s)
    && (forall c :: c in s.waits ==> ChildSound(s, c))
    && (naming.Number? ==> NumbersMeanChildren(s))
  }

  /** No pid is handed out while a waiter still waits for the process that had it. */
  ghost predicate Prudent(s: State, e: Event) {
    e.Start? || e.Adopt? ==>
      forall c :: Awaited(s, c) ==> s.processes[c].pid != e.pid
  }

  /** Numbers keep their meaning when no process or waiter is added. */
  lemma NumbersKeep(naming: Naming, s: State, t: State)
    requires Inv(naming, s) && WellTyped(t)
    requires forall p {:trigger Alive(t, p)} :: Alive(t, p) ==> Alive(s, p) && t.processes[p].pid == s.processes[p].pid
    requires forall c {:trigger Awaited(t, c)} :: Awaited(t, c) ==> Awaited(s, c) && t.processes[c].pid == s.processes[c].pid
    ensures PidsUnique(t) && (naming.Number? ==> NumbersMeanChildren(t))
  {
  }

  /** A pid that is not in use can be handed out. */
  lemma NumbersGrow(naming: Naming, s: State, e: Event, t: State, p: nat)
    requires Inv(naming, s) && WellTyped(t) && (e.Start? || e.Adopt?) && (naming.Number? ==> Prudent(s, e))
    requires p !in s.processes && !InUse(s, e.pid)
    requires t.processes == s.processes[p := Process(e.pid, e.Start?, Running)]
    requires t.waits == s.waits || t.waits == s.waits[p := Waiting]
    ensures PidsUnique(t) && (naming.Number? ==> NumbersMeanChildren(t))
  {
    forall q | Alive(t, q) && q != p ensures Alive(s, q) && t.processes[q].pid == s.processes[q].pid != e.pid {
      assert Alive(s, q);
    }
    forall c | Awaited(t, c) && c != p ensures Awaited(s, c) {
    }
    if naming.Number? {
      forall c, q | Awaited(t, c) && Alive(t, q) && t.processes[q].pid == t.processes[c].pid ensures q == c {
        if c != p && q != p {
          assert Awaited(s, c) && Alive(s, q);
        }
      }
    }
  }

  ghost predicate TableSound(s: State) {
    WellTyped(s) && EntriesSound(s) && DeliverySound(s)
  }

  ghost predicate ChildrenSound(s: State) {
    WellTyped(s) && forall c :: c in s.waits ==> ChildSound(s, c)
  }

  lemma StartTable(naming: Naming, s: State, e: Event, t: State)
    requires Inv(naming, s) && e.Start? && Next(naming, s, e, t)
    ensures TableSound(t)
  {
  }

  lemma StartChildren(naming: Naming, s: State, e: Event, t: State)
    requires Inv(naming, s) && e.Start? && Next(naming, s, e, t) && TableSound(t)
    ensures ChildrenSound(t)
  {
    forall c | c in t.waits ensures ChildSound(t, c) {
      assert c in s.waits ==> ChildSound(s, c);
    }
  }

  lemma StartKeeps(naming: Naming, s: State, e: Event, t: State)
    requires Inv(naming, s) && e.Start? && Next(naming, s, e, t) && (naming.Number? ==> Prudent(s, e))
    ensures Inv(naming, t)
  {
    StartTable(naming, s, e, t);
    StartChildren(naming, s, e, t);
    NumbersGrow(naming, s, e, t, e.child);
  }

  lemma AdoptTable(naming: Naming, s: State, e: Event, t: State)
    requires Inv(naming, s) && e.Adopt? && Next(naming, s, e, t)
    ensures TableSound(t)
  {
  }

  lemma AdoptChildren(naming: Naming, s: State, e: Event, t: State)
    requires Inv(naming, s) && e.Adopt? && Next(naming, s, e, t) && TableSound(t)
    ensures ChildrenSound(t)
  {
  }

  lemma AdoptKeeps(naming: Naming, s: State, e: Event, t: State)
    requires Inv(naming, s) && e.Adopt? && Next(naming, s, e, t) && (naming.Number? ==> Prudent(s, e))
    ensures Inv(naming, t)
  {
    AdoptTable(naming, s, e, t);
    AdoptChildren(naming, s, e, t);
    NumbersGrow(naming, s, e, t, e.process);
  }

  lemma ExitTable(naming: Naming, s: State, e: Event, t: State)
    requires Inv(naming, s) && e.Exit? && Next(naming, s, e, t)
    ensures TableSound(t)
  {
  }

  lemma ExitChildren(naming: Naming, s: State, e: Event, t: State)
    requires Inv(naming, s) && e.Exit? && Next(naming, s, e, t) && TableSound(t)
    ensures ChildrenSound(t)
  {
  }

  lemma ExitKeeps(naming: Naming, s: State, e: Event, t: State)
    requires Inv(naming, s) && e.Exit? && Next(naming, s, e, t)
    ensures Inv(naming, t)
  {
    ExitTable(naming, s, e, t);
    ExitChildren(naming, s, e, t);
    NumbersKeep(naming, s, t);
  }

  lemma Wait4Table(naming: Naming, s: State, e: Event, t: State)
    requires Inv(naming, s) && e.Wait4? && Next(naming, s, e, t)
    ensures TableSound(t)
  {
    if e.process in s.waits {
      assert ChildSound(s, e.process);
    }
    var pid := s.processes[e.process].pid;
    if pid in s.table.byPid && s.table.byPid[pid] != e.process {
      assert Alive(s, e.process);
      assert !Alive(s, s.table.byPid[pid]);
    }
  }

  lemma Wait4Children(naming: Naming, s: State, e: Event, t: State)
    requires Inv(naming, s) && e.Wait4? && Next(naming, s, e, t) && TableSound(t)
    ensures ChildrenSound(t)
  {
  }

  lemma Wait4Keeps(naming: Naming, s: State, e: Event, t: State)
    requires Inv(naming, s) && e.Wait4? && Next(naming, s, e, t)
    ensures Inv(naming, t)
  {
    Wait4Table(naming, s, e, t);
    Wait4Children(naming, s, e, t);
    NumbersKeep(naming, s, t);
  }

  lemma HandOverTable(naming: Naming, s: State, e: Event, t: State)
    requires Inv(naming, s) && e.HandOver? && Next(naming, s, e, t)
    ensures TableSound(t)
  {
  }

  lemma HandOverChildren(naming: Naming, s: State, e: Event, t: State)
    requires Inv(naming, s) && e.HandOver? && Next(naming, s, e, t) && TableSound(t)
    ensures ChildrenSound(t)
  {
  }

  lemma HandOverKeeps(naming: Naming, s: State, e: Event, t: State)
    requires Inv(naming, s) && e.HandOver? && Next(naming, s, e, t)
    ensures Inv(naming, t)
  {
    HandOverTable(naming, s, e, t);
    HandOverChildren(naming, s, e, t);
    NumbersKeep(naming, s, t);
  }

  /** What cmd.Wait collects is its own child; what it misses the reaper has. */
  lemma CmdWaitTarget(naming: Naming, s: State, e: Event, t: State)
    requires Inv(naming, s) && e.CmdWait? && Next(naming, s, e, t)
    ensures e.target.Some? ==> e.target.value == e.child
    ensures e.target.None? ==> s.processes[e.child].phase.Gone?
  {
    assert Alive(s, e.child) ==> InUse(s, s.processes[e.child].pid);
    assert e.target.Some? ==> Alive(s, e.target.value) && Awaited(s, e.child);
  }

  lemma CmdWaitTable(naming: Naming, s: State, e: Event, t: State)
    requires Inv(naming, s) && e.CmdWait? && Next(naming, s, e, t)
    ensures TableSound(t)
  {
    CmdWaitTarget(naming, s, e, t);
    assert ChildSound(s, e.child);
  }

  lemma CmdWaitChildren(naming: Naming, s: State, e: Event, t: State)
    requires Inv(naming, s) && e.CmdWait? && Next(naming, s, e, t) && TableSound(t)
    ensures ChildrenSound(t)
  {
    CmdWaitTarget(naming, s, e, t);
    assert ChildSound(s, e.child);
    forall c | c in t.waits ensures ChildSound(t, c) {
      assert c in s.waits ==> ChildSound(s, c);
    }
  }

  lemma CmdWaitKeeps(naming: Naming, s: State, e: Event, t: State)
    requires Inv(naming, s) && e.CmdWait? && Next(naming, s, e, t)
    ensures Inv(naming, t)
  {
    CmdWaitTable(naming, s, e, t);
    CmdWaitChildren(naming, s, e, t);
    NumbersKeep(naming, s, t);
  }

  lemma SettleTable(naming: Naming, s: State, e: Event, t: State)
    requires Inv(naming, s) && e.Settle? && Next(naming, s, e, t)
    ensures TableSound(t)
  {
    assert ChildSound(s, e.child);
  }

  lemma SettleChildren(naming: Naming, s: State, e: Event, t: State)
    requires Inv(naming, s) && e.Settle? && Next(naming, s, e, t) && TableSound(t)
    ensures ChildrenSound(t)
  {
    assert ChildSound(s, e.child);
    forall c | c in t.waits ensures ChildSound(t, c) {
      assert c in s.waits ==> ChildSound(s, c);
    }
  }

  lemma SettleKeeps(naming: Naming, s: State, e: Event, t: State)
    requires Inv(naming, s) && e.Settle? && Next(naming, s, e, t)
    ensures Inv(naming, t)
  {
    SettleTable(naming, s, e, t);
    SettleChildren(naming, s, e, t);
    NumbersKeep(naming, s, t);
  }

  lemma NextKeeps(naming: Naming, s: State, e: Event, t: State)
    requires Inv(naming, s) && Next(naming, s, e, t) && (naming.Number? ==> Prudent(s, e))
    ensures Inv(naming, t)
  {
    match e
    case Start(_, _) => StartKeeps(naming, s, e, t);
    case Adopt(_, _) => AdoptKeeps(naming, s, e, t);
    case Exit(_, _) => ExitKeeps(naming, s, e, t);
    case Wait4(_) => Wait4Keeps(naming, s, e, t);
    case HandOver => HandOverKeeps(naming, s, e, t);
    case CmdWait(_, _) => CmdWaitKeeps(naming, s, e, t);
    case Settle(_) => SettleKeeps(naming, s, e, t);
  }

  // ----- Whole runs -----

  /** A run from boot. With waiting by number, `prudent` runs never reuse an awaited pid. */
  ghost predicate Run(naming: Naming, prudent: bool, states: seq<State>, events: seq<Event>) {
    && |states| == |events| + 1 && states[0] == BOOT
    && forall i :: 0 <= i < |events| ==>
         Next(naming, states[i], events[i], states[i + 1]) && (prudent ==> Prudent(states[i], events[i]))
  }

  lemma {:induction false} RunKeeps(naming: Naming, prudent: bool, states: seq<State>, events: seq<Event>, i: nat)
    requires Run(naming, prudent, states, events) && i < |states| && (naming.Number? ==> prudent)
    ensures Inv(naming, states[i])
  {
    if i > 0 {
      RunKeeps(naming, prudent, states, events, i - 1);
      NextKeeps(naming, states[i - 1], events[i - 1], states[i]);
    }
  }

  /**
   Waiting by pidfd, pids reused freely: whatever the interleaving, every settled
   waiter holds its own child's status, never another's and never "gone".
   */
  lemma EveryWaiterGetsItsOwnStatus(states: seq<State>, events: seq<Event>, i: nat, c: nat)
    requires Run(Pidfd, false, states, events) && i < |states| && c in states[i].waits
    ensures states[i].waits[c].Settled? ==>
      c in states[i].processes && states[i].processes[c].phase.Gone? &&
      states[i].waits[c] == Settled(Some(states[i].processes[c].phase.status))
  {
    RunKeeps(Pidfd, false, states, events, i);
    assert ChildSound(states[i], c);
  }

  /** The same holds for waiting by number in runs that reuse no awaited pid. */
  lemma NumbersAreSafeWithoutReuse(states: seq<State>, events: seq<Event>, i: nat, c: nat)
    requires Run(Number, true, states, events) && i < |states| && c in states[i].waits
    ensures states[i].waits[c].Settled? ==>
      c in states[i].processes && states[i].processes[c].phase.Gone? &&
      states[i].waits[c] == Settled(Some(states[i].processes[c].phase.status))
  {
    RunKeeps(Number, true, states, events, i);
    assert ChildSound(states[i], c);
  }

  /** A settled waiter leaves nothing behind: its entry is gone and a status it was handed is handed to nobody else. */
  lemma NothingLeftBehind(states: seq<State>, events: seq<Event>, i: nat, c: nat)
    requires Run(Pidfd, false, states, events) && i < |states| && c in states[i].waits && states[i].waits[c].Settled?
    ensures c !in states[i].table.byPid.Values && c in states[i].table.channel && c in states[i].processes
    ensures states[i].processes[c].phase.Gone?
    ensures states[i].processes[c].phase.taker.Reaper? ==> states[i].table.channel[c] == []
  {
    RunKeeps(Pidfd, false, states, events, i);
    assert ChildSound(states[i], c);
  }

  /** The reaper's send never blocks: whenever it holds the lock, the delivery can go ahead. */
  lemma DeliveryNeverBlocks(states: seq<State>, events: seq<Event>, i: nat)
    requires Run(Pidfd, false, states, events) && i < |states| && states[i].lock.Reaping?
    ensures exists t :: Next(Pidfd, states[i], HandOver, t)
    ensures forall pid :: pid in states[i].table.byPid ==>
      var c := states[i].table.byPid[pid]; c in states[i].table.channel && |states[i].table.channel[c]| < CHANNEL_CAPACITY
  {
    RunKeeps(Pidfd, false, states, events, i);
    var s := states[i];
    var p := s.processes[s.lock.process];
    if p.pid in s.table.byPid {
      assert s.table.byPid[p.pid] in s.table.byPid.Values;
    }
    assert Next(Pidfd, s, HandOver, s.(table := Deliver(s.table, p.pid, p.phase.status), lock := Free));
  }

  /** One child with pid 5 that exited with 3, as the run below leads it to the reaper. */
  function OneChild(phase: Phase, byPid: map<nat, nat>, queued: seq<int>, lock: Lock): State {
    State(map[0 := Process(5, true, phase)], Table(byPid, map[0 := queued]), map[0 := Waiting], lock)
  }

  /** The second child has pid 5 too; the first one's status 3 lies in its channel. */
  function TwoChildren(phase: Phase, byPid: map<nat, nat>, wait0: Wait, wait1: Wait): State {
    State(map[0 := Process(5, true, Gone(3, Reaper)), 1 := Process(5, true, phase)],
          Table(byPid, map[0 := [3], 1 := []]), map[0 := wait0, 1 := wait1], Free)
  }

  lemma ReapedFirst()
    ensures Next(Number, BOOT, Start(0, 5), OneChild(Running, map[5 := 0], [], Free))
    ensures Next(Number, OneChild(Running, map[5 := 0], [], Free), Exit(0, 3), OneChild(Zombie(3), map[5 := 0], [], Free))
    ensures Next(Number, OneChild(Zombie(3), map[5 := 0], [], Free), Wait4(0),
                 OneChild(Gone(3, Reaper), map[5 := 0], [], Reaping(0)))
    ensures Next(Number, OneChild(Gone(3, Reaper), map[5 := 0], [], Reaping(0)), HandOver,
                 OneChild(Gone(3, Reaper), map[], [3], Free))
  {
    var byPid: map<nat, nat> := map[5 := 0];
    assert byPid[5] in byPid.Values && byPid - {5} == map[];
    var channel: map<nat, seq<int>> := map[0 := []];
    assert [] + [3] == [3];
    assert channel[0 := channel[0] + [3]] == map[0 := [3]];
  }

  lemma ReusedPid()
    ensures Next(Number, OneChild(Gone(3, Reaper), map[], [3], Free), Start(1, 5),
                 TwoChildren(Running, map[5 := 1], Waiting, Waiting))
    ensures Next(Number, TwoChildren(Running, map[5 := 1], Waiting, Waiting), Exit(1, 7),
                 TwoChildren(Zombie(7), map[5 := 1], Waiting, Waiting))
  {
  }

  lemma BorrowedStatus()
    ensures Next(Number, TwoChildren(Zombie(7), map[5 := 1], Waiting, Waiting), CmdWait(0, Some(1)),
                 TwoChildren(Gone(7, Waiter), map[5 := 1], Returned(Own(7)), Waiting))
    ensures Next(Number, TwoChildren(Gone(7, Waiter), map[5 := 1], Returned(Own(7)), Waiting), Settle(0),
                 TwoChildren(Gone(7, Waiter), map[5 := 1], Settled(Some(7)), Waiting))
  {
  }

  lemma LostStatus()
    ensures Next(Number, TwoChildren(Gone(7, Waiter), map[5 := 1], Settled(Some(7)), Waiting), CmdWait(1, None),
                 TwoChildren(Gone(7, Waiter), map[5 := 1], Settled(Some(7)), Returned(Elsewhere)))
    ensures Next(Number, TwoChildren(Gone(7, Waiter), map[5 := 1], Settled(Some(7)), Returned(Elsewhere)), Settle(1),
                 TwoChildren(Gone(7, Waiter), map[], Settled(Some(7)), Settled(None)))
  {
  }

  /**
   Waiting by number is not safe in general: once the reaper has taken a child and
   its pid has gone to another, the first waiter collects the second child's
   status, and the second waiter finds its own gone.
   */
  lemma NumbersAreUnsafeWithReuse() returns (states: seq<State>, events: seq<Event>)
    ensures Run(Number, false, states, events)
    ensures states[|states| - 1] == TwoChildren(Gone(7, Waiter), map[], Settled(Some(7)), Settled(None))
  {
    ReapedFirst();
    states, events := Extend([BOOT], [], Start(0, 5), OneChild(Running, map[5 := 0], [], Free));
    states, events := Extend(states, events, Exit(0, 3), OneChild(Zombie(3), map[5 := 0], [], Free));
    states, events := Extend(states, events, Wait4(0), OneChild(Gone(3, Reaper), map[5 := 0], [], Reaping(0)));
    states, events := Extend(states, events, HandOver, OneChild(Gone(3, Reaper), map[], [3], Free));
    ReusedPid();
    states, events := Extend(states, events, Start(1, 5), TwoChildren(Running, map[5 := 1], Waiting, Waiting));
    states, events := Extend(states, events, Exit(1, 7), TwoChildren(Zombie(7), map[5 := 1], Waiting, Waiting));
    BorrowedStatus();
    states, events := Extend(states, events, CmdWait(0, Some(1)),
                             TwoChildren(Gone(7, Waiter), map[5 := 1], Returned(Own(7)), Waiting));
    states, events := Extend(states, events, Settle(0), TwoChildren(Gone(7, Waiter), map[5 := 1], Settled(Some(7)), Waiting));
    LostStatus();
    states, events := Extend(states, events, CmdWait(1, None),
                             TwoChildren(Gone(7, Waiter), map[5 := 1], Settled(Some(7)), Returned(Elsewhere)));
    states, events := Extend(states, events, Settle(1), TwoChildren(Gone(7, Waiter), map[], Settled(Some(7)), Settled(None)));
  }

  lemma Extend(states: seq<State>, events: seq<Event>, e: Event, t: State) returns (longer: seq<State>, more: seq<Event>)
    requires Run(Number, false, states, events) && Next(Number, states[|states| - 1], e, t)
    ensures Run(Number, false, longer, more) && longer == states + [t] && more == events + [e]
  {
    longer, more := states + [t], events + [e];
  }

  lemma AliveUsesPid(s: State, p: nat)
    requires Alive(s, p)
    ensures InUse(s, s.processes[p].pid)
  {
  }

  /** The reaper, holding the lock, can deliver; nobody's wait or phase changes, and every channel stays. */
  lemma LockIsFreed(s: State) returns (t: State)
    requires TableSound(s) && s.lock.Reaping?
    ensures Next(Number, s, HandOver, t)
    ensures t.lock.Free? && t.processes == s.processes && t.waits == s.waits && t.table.channel.Keys == s.table.channel.Keys
  {
    var p := s.processes[s.lock.process];
    if p.pid in s.table.byPid {
      assert s.table.byPid[p.pid] in s.table.byPid.Values;
    }
    t := s.(table := Deliver(s.table, p.pid, p.phase.status), lock := Free);
  }

  /** A waiter in cmd.Wait whose pid another process has takes that process's status, whatever it is, for its own. */
  lemma NumberIsBorrowed(states: seq<State>, events: seq<Event>, c: nat, p: nat, status: int) returns (longer: seq<State>, more: seq<Event>)
    requires Run(Number, false, states, events)
    requires var s := states[|events|];
      && s.lock.Free? && p in s.processes && s.processes[p].phase.Running? && p != c
      && Awaited(s, c) && s.processes[c].tracked && c in s.table.channel && s.processes[c].pid == s.processes[p].pid
    ensures Run(Number, false, longer, more) && states <= longer && events <= more
    ensures c in longer[|more|].waits && longer[|more|].waits[c] == Settled(Some(status))
    ensures c in longer[|more|].processes && longer[|more|].processes[c] == states[|events|].processes[c]
  {
    var s := states[|events|];
    var s1 := s.(processes := s.processes[p := s.processes[p].(phase := Zombie(status))]);
    var s2 := s1.(processes := s1.processes[p := s1.processes[p].(phase := Gone(status, Waiter))],
                  waits := s1.waits[c := Returned(Own(status))]);
    var s3 := s2.(table := Unregister(s2.table, s2.processes[c].pid, c), waits := s2.waits[c := Settled(Some(status))]);
    longer, more := Extend(states, events, Exit(p, status), s1);
    longer, more := Extend(longer, more, CmdWait(c, Some(p)), s2);
    longer, more := Extend(longer, more, Settle(c), s3);
  }

  /**
   The condition is exact: after any run that reused no awaited pid, a step that does
   hand one out can be followed by steps that settle its waiter with a status that is
   not its child's.
   */
  lemma ReuseBreaksNumbers(states: seq<State>, events: seq<Event>, e: Event, t: State, c: nat)
      returns (longer: seq<State>, more: seq<Event>)
    requires Run(Number, true, states, events) && Next(Number, states[|events|], e, t)
    requires (e.Start? || e.Adopt?) && Awaited(states[|events|], c) && states[|events|].processes[c].pid == e.pid
    ensures Run(Number, false, longer, more) && states + [t] <= longer && events + [e] <= more
    ensures var last := longer[|more|];
      && c in last.waits && last.waits[c].Settled? && c in last.processes && last.processes[c].phase.Gone?
      && last.waits[c] != Settled(Some(last.processes[c].phase.status))
  {
    var s := states[|events|];
    RunKeeps(Number, true, states, events, |events|);
    assert ChildSound(s, c);
    if Alive(s, c) {
      AliveUsesPid(s, c);
    }
    var p := if e.Start? then e.child else e.process;
    longer, more := Extend(states, events, e, t);
    if t.lock.Reaping? {
      assert TableSound(t) by {
        AdoptTable(Number, s, e, t);
      }
      var u := LockIsFreed(t);
      longer, more := Extend(longer, more, HandOver, u);
    }
    longer, more := NumberIsBorrowed(longer, more, c, p, s.processes[c].phase.status + 1);
  }

  // ----- The object -----

  /** childTable: its methods are the table's part of the steps above. */
  class Children {
    var byPid: map<nat, nat>
    var channel: map<nat, seq<int>>

    ghost function View(): Table
      reads this
    {
      Table(byPid, channel)
    }

    constructor ()
      ensures View() == Table(map[], map[])
    {
      byPid, channel := map[], map[];
    }

    /** start: `started` is what startFn reported; nothing is registered for a child that did not start. */
    method Start(started: bool, pid: nat, child: nat)
      modifies this
      ensures View() == if started then Register(old(View()), pid, child) else old(View())
    {
      if !started {
        return;
      }
      channel := channel[child := []];
      byPid := byPid[pid := child];
    }

    /** reap after its wait4: `reaped` is the pid it collected, or nothing. */
    method Reap(reaped: Option<nat>, status: int) returns (tracked: bool, ok: bool)
      requires forall c :: c in byPid.Values ==> c in channel
      modifies this
      ensures ok == reaped.Some? && tracked == (reaped.Some? && reaped.value in old(byPid))
      ensures View() == if ok then Deliver(old(View()), reaped.value, status) else old(View())
    {
      if reaped.None? {
        return false, false;
      }
      if reaped.value in byPid {
        var child := byPid[reaped.value];
        assert child in byPid.Values;
        channel := channel[child := channel[child] + [status]];
        byPid := byPid - {reaped.value};
        return true, true;
      }
      return false, true;
    }

    /** settle: the status cmd.Wait collected, the status the reaper left, or nothing when it is gone. */
    method Settle(child: nat, pid: nat, result: WaitResult) returns (status: Option<int>)
      requires child in channel
      modifies this
      ensures var t := Unregister(old(View()), pid, child);
        if result.Own? then status == Some(result.status) && View() == t
        else if old(channel)[child] != [] then status == Some(old(channel)[child][0]) && View() == TakeStatus(t, child)
        else status == None && View() == t
    {
      if pid in byPid && byPid[pid] == child {
        byPid := byPid - {pid};
      }
      if result.Own? {
        return Some(result.status);
      }
      if channel[child] != [] {
        status := Some(channel[child][0]);
        channel := channel[child := channel[child][1..]];
        return;
      }
      return None;
    }
  }
}
