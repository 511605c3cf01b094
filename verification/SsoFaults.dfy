/**
 What no refresh token being sent twice rests on is exact: after any run of benign
 steps, whichever step first is not benign can be followed by benign ones up to the
 sending of a spent token. The same goes for replacing the login under two processes.
 */
module SsoFaults {
  import opened Options
  import opened Sso

  // ----- Continuing a run -----

  /** By these steps, all benign, `s` comes to have sent a spent token. */
  ghost predicate Reuses(s: State, steps: seq<Event>)
    decreases |steps|
  {
    if steps == [] then s.reused
    else Enabled(s, steps[0]) && Benign(s, steps[0]) && Reuses(Do(s, steps[0]), steps[1..])
  }

  lemma First(s: State, e: Event, rest: seq<Event>) returns (steps: seq<Event>)
    requires Enabled(s, e) && Benign(s, e) && Reuses(Do(s, e), rest)
    ensures Reuses(s, steps)
  {
    steps := [e] + rest;
    assert steps[1..] == rest;
  }

  lemma OneMore(states: seq<State>, events: seq<Event>, e: Event) returns (longer: seq<State>, more: seq<Event>)
    requires Run(states, events) && Enabled(states[|events|], e)
    ensures Run(longer, more) && longer == states + [Do(states[|events|], e)] && more == events + [e]
  {
    longer, more := states + [Do(states[|events|], e)], events + [e];
  }

  /** The run goes on, by benign steps alone, to a state in which a spent token was sent. */
  ghost predicate GoesOnToReuse(states: seq<State>, events: seq<Event>, longer: seq<State>, more: seq<Event>) {
    && Run(longer, more) && states <= longer && events <= more
    && AllBenign(longer, more, |events|, |more|) && longer[|more|].reused
  }

  lemma {:induction false} GoOn(states: seq<State>, events: seq<Event>, steps: seq<Event>) returns (longer: seq<State>, more: seq<Event>)
    requires Run(states, events) && Reuses(states[|events|], steps)
    ensures GoesOnToReuse(states, events, longer, more)
    decreases |steps|
  {
    if steps == [] {
      longer, more := states, events;
    } else {
      var t, f := OneMore(states, events, steps[0]);
      longer, more := GoOn(t, f, steps[1..]);
      assert longer[|events|] == t[|events|] && more[|events|] == f[|events|];
    }
  }

  // ----- A spent token in the file, or one token in two hands -----

  lemma {:induction false} NewProcess(processes: map<nat, Process>) returns (p: nat)
    ensures forall q :: q in processes ==> q < p
    decreases |processes|
  {
    if processes == map[] {
      p := 0;
    } else {
      var q :| q in processes;
      var rest := processes - {q};
      assert rest.Keys == processes.Keys - {q};
      p := NewProcess(rest);
      p := if q < p then p else q + 1;
      assert forall r :: r in processes ==> r == q || r in rest;
    }
  }

  /** A new process, the lock taken and the file's login adopted for renewal. */
  ghost function Renewing(s: State, p: nat): State
    requires s.file.Some?
  {
    Put(s, p, Process(s.file.value, Ready(true))).(lock := true)
  }

  lemma Begin(s: State, p: nat, rest: seq<Event>) returns (steps: seq<Event>)
    requires s.file.Some? && !s.lock && p !in s.processes && Reuses(Renewing(s, p), rest)
    ensures Reuses(s, steps)
  {
    var s1 := Do(s, Spawn(p));
    var s2 := Do(s1, Lock(p));
    var load := Load(p, s.file.value.expiry);
    assert Do(s2, load).processes == Renewing(s, p).processes;
    steps := First(s2, load, rest);
    steps := First(s1, Lock(p), steps);
    steps := First(s, Spawn(p), steps);
  }

  ghost predicate SpentFile(s: State) {
    s.file.Some? && s.file.value.refresh.Some? && s.file.value.refresh.value in s.spent
  }

  lemma SpentFileReuses(s: State) returns (steps: seq<Event>)
    requires SpentFile(s) && !s.lock
    ensures Reuses(s, steps)
  {
    var p := NewProcess(s.processes);
    steps := First(Renewing(s, p), Exchange(p, 0), []);
    steps := Begin(s, p, steps);
  }

  lemma LeavingSpentFile(s: State, p: nat) returns (steps: seq<Event>)
    requires SpentFile(s) && p in s.processes && s.processes[p].stage.Leaving?
    ensures Reuses(s, steps)
  {
    steps := SpentFileReuses(Do(s, Unlock(p)));
    steps := First(s, Unlock(p), steps);
  }

  /** p is about to send the file's token. */
  ghost predicate Sending(s: State, p: nat) {
    && p in s.processes && s.processes[p].stage.Ready?
    && s.file.Some? && s.file.value.refresh.Some? && s.processes[p].login.refresh == s.file.value.refresh
  }

  lemma TwoSend(s: State, p: nat) returns (steps: seq<Event>)
    requires Sending(s, p) && !s.lock
    ensures Reuses(s, steps)
  {
    var q := NewProcess(s.processes);
    var s1 := Renewing(s, q);
    var s2 := Do(s1, Exchange(p, 0));
    steps := First(s2, Exchange(q, 0), []);
    steps := First(s1, Exchange(p, 0), steps);
    steps := Begin(s, q, steps);
  }

  /** A holder that leaves removes the next one's lock, and a third process comes in. */
  lemma LeavingTwoSend(s: State, p: nat) returns (steps: seq<Event>)
    requires s.file.Some? && s.file.value.refresh.Some? && !s.lock && p in s.processes && s.processes[p].stage.Leaving?
    ensures Reuses(s, steps)
  {
    var q := NewProcess(s.processes);
    var s1 := Renewing(s, q);
    steps := TwoSend(Do(s1, Unlock(p)), q);
    steps := First(s1, Unlock(p), steps);
    steps := Begin(s, q, steps);
  }

  // ----- The steps that are not benign -----

  lemma LoadFailsReuses(s: State, p: nat) returns (steps: seq<Event>)
    requires TokenInv(s) && Enabled(s, LoadFails(p))
    ensures Reuses(Do(s, LoadFails(p)), steps)
  {
    assert ProcessSound(s, p);
    var s1 := Do(s, LoadFails(p));
    var s2 := Do(s1, Exchange(p, 0));
    if s2.reused {
      steps := [];
    } else {
      steps := LeavingSpentFile(s2, p);
    }
    steps := First(s1, Exchange(p, 0), steps);
  }

  lemma TakeoverReuses(s: State) returns (steps: seq<Event>)
    requires TokenInv(s) && Enabled(s, Takeover) && !Benign(s, Takeover)
    ensures Reuses(Do(s, Takeover), steps)
  {
    var t := Do(s, Takeover);
    if SpentFile(t) {
      steps := SpentFileReuses(t);
    } else {
      var p :| Critical(s, p);
      assert ProcessSound(s, p);
      if s.processes[p].stage.Leaving? {
        steps := LeavingTwoSend(t, p);
      } else if s.processes[p].stage.Locked? {
        var load := Load(p, t.file.value.expiry);
        steps := TwoSend(Do(t, load), p);
        steps := First(t, load, steps);
      } else {
        steps := TwoSend(t, p);
      }
    }
  }

  lemma NotBenignReuses(s: State, e: Event) returns (steps: seq<Event>)
    requires Inv(s) && Enabled(s, e) && !Benign(s, e) && !e.Replace?
    ensures Reuses(Do(s, e), steps)
  {
    match e
    case LoadFails(p) => steps := LoadFailsReuses(s, p);
    case SaveFails(p) =>
      assert ProcessSound(s, p);
      steps := LeavingSpentFile(Do(s, e), p);
    case ExchangeFails(p, _) =>
      SenderHoldsTheFile(s, p);
      steps := LeavingSpentFile(Do(s, e), p);
    case Takeover => steps := TakeoverReuses(s);
  }

  /**
   After any benign run, any step but a replaced login that is not benign can be
   followed by benign steps up to the sending of a spent token.
   */
  lemma FaultReuses(states: seq<State>, events: seq<Event>, e: Event, t: State) returns (longer: seq<State>, more: seq<Event>)
    requires Run(states, events) && AllBenign(states, events, 0, |events|)
    requires Next(states[|events|], e, t) && !Benign(states[|events|], e) && !e.Replace?
    ensures GoesOnToReuse(states + [t], events + [e], longer, more)
  {
    RunKeeps(states, events, |events|);
    var steps := NotBenignReuses(states[|events|], e);
    longer, more := OneMore(states, events, e);
    longer, more := GoOn(longer, more, steps);
  }

  // ----- Replacing the login -----

  /** Alone with its login, p renews it once the lock is free, and lets go of the lock. */
  lemma RenewsAlone(s: State, p: nat, rest: seq<Event>) returns (steps: seq<Event>)
    requires !s.lock && p in s.processes && s.processes[p].stage.Outside? && s.processes[p].login.refresh.Some?
    requires s.file.Some? ==> s.file.value.who != s.processes[p].login.who
    requires var s3 := Do(Do(Do(s, Lock(p)), Load(p, 0)), Exchange(p, 0));
      s3.reused || Reuses(Do(s3, Unlock(p)), rest)
    ensures Reuses(s, steps)
  {
    var s1 := Do(s, Lock(p));
    var s2 := Do(s1, Load(p, 0));
    var s3 := Do(s2, Exchange(p, 0));
    if s3.reused {
      steps := [];
    } else {
      steps := First(s3, Unlock(p), rest);
    }
    steps := First(s2, Exchange(p, 0), steps);
    steps := First(s1, Load(p, 0), steps);
    steps := First(s, Lock(p), steps);
  }

  lemma TwoAloneReuse(s: State, p: nat, q: nat) returns (steps: seq<Event>)
    requires !s.lock && p != q && p in s.processes && q in s.processes
    requires s.processes[p].stage.Outside? && s.processes[q].stage.Outside?
    requires s.processes[p].login.refresh.Some? && s.processes[q].login.refresh.Some?
    requires s.file.Some? ==> s.file.value.who != s.processes[p].login.who && s.file.value.who != s.processes[q].login.who
    requires s.processes[p].login.refresh.value in s.spent || s.processes[q].login.refresh.value in s.spent
      || s.processes[p].login.refresh == s.processes[q].login.refresh
    ensures Reuses(s, steps)
  {
    var s1 := Do(Do(Do(s, Lock(p)), Load(p, 0)), Exchange(p, 0));
    if s1.reused {
      steps := RenewsAlone(s, p, []);
    } else {
      steps := RenewsAlone(Do(s1, Unlock(p)), q, []);
      steps := RenewsAlone(s, p, steps);
    }
  }

  /**
   A login signed out of, or replaced by another, lives on in each process by itself:
   after any benign run that left the lock free and two processes alive, these can go
   on to send one token twice.
   */
  lemma SignedOutReuses(states: seq<State>, events: seq<Event>, login: Option<Login>, t: State, p: nat, q: nat)
      returns (longer: seq<State>, more: seq<Event>)
    requires Run(states, events) && AllBenign(states, events, 0, |events|) && Next(states[|events|], Replace(login), t)
    requires var s := states[|events|];
      && s.file.Some? && s.file.value.refresh.Some? && (login.Some? ==> login.value.who != s.file.value.who)
      && !s.lock && p != q && p in s.processes && q in s.processes
    ensures GoesOnToReuse(states + [t], events + [Replace(login)], longer, more)
  {
    var s := states[|events|];
    RunKeeps(states, events, |events|);
    assert ProcessSound(s, p) && ProcessSound(s, q) && !Critical(s, p) && !Critical(s, q);
    var steps := TwoAloneReuse(t, p, q);
    longer, more := OneMore(states, events, Replace(login));
    longer, more := GoOn(longer, more, steps);
  }

  // ----- They can happen -----

  const FIRST := Login(0, Some(0), 0)

  const SIGNED_IN := State(Some(FIRST), false, map[], {}, 1, false)

  ghost predicate Breaks(s: State, e: Event) {
    Enabled(s, e) && !Benign(s, e)
  }

  /** Signed in, and one process on its way through a renewal. */
  ghost function Midway(stage: Stage): State {
    SIGNED_IN.(processes := map[1 := Process(FIRST, stage)], lock := !stage.Outside?)
  }

  lemma StepsOfARenewal()
    ensures Next(SIGNED_IN, Spawn(1), Midway(Outside)) && Next(Midway(Outside), Lock(1), Midway(Locked))
    ensures Next(Midway(Locked), Load(1, 0), Midway(Ready(true)))
  {
    assert map[][1 := Process(FIRST, Outside)] == map[1 := Process(FIRST, Outside)];
    assert Midway(Outside).processes[1 := Process(FIRST, Locked)] == Midway(Locked).processes;
    assert Midway(Locked).processes[1 := Process(FIRST, Ready(true))] == Midway(Ready(true)).processes;
  }

  /** The end of it but for the save: token 0 is spent and token 1 still to be saved. */
  ghost function Renewed(): State {
    Do(Midway(Ready(true)), Exchange(1, 0))
  }

  lemma StepsThatBreak()
    ensures Breaks(Midway(Locked), LoadFails(1)) && Breaks(Midway(Ready(true)), ExchangeFails(1, true))
    ensures Breaks(Midway(Ready(true)), Takeover) && Breaks(Renewed(), SaveFails(1))
  {
    assert Critical(Midway(Ready(true)), 1);
  }

  /** One renewal, during which each of the steps that are not benign can be taken in its turn. */
  lemma FaultsHappen() returns (states: seq<State>, events: seq<Event>)
    ensures Run(states, events) && AllBenign(states, events, 0, |events|) && |events| == 4
    ensures Breaks(states[2], LoadFails(1)) && Breaks(states[3], ExchangeFails(1, true))
    ensures Breaks(states[3], Takeover) && Breaks(states[4], SaveFails(1))
  {
    StepsOfARenewal();
    StepsThatBreak();
    states, events := [SIGNED_IN], [];
    states, events := OneMore(states, events, Spawn(1));
    states, events := OneMore(states, events, Lock(1));
    states, events := OneMore(states, events, Load(1, 0));
    states, events := OneMore(states, events, Exchange(1, 0));
  }
}
