/**
 The table of Daytona terminals. A terminal is claimed under the lock, its shell
 is started outside it, and it may then exit, be killed, be deleted through the
 sessions API, be released after its retention, or be forgotten to make room. Each
 locked section is one step; the steps of any number of requests interleave.
 */
module Terminals {
  import opened Collections

  /** Where a terminal's shell is: being started, running, gone, or never started. */
  datatype Stage = Pending | Running | Exited | Failed

  /**
   One terminal object. `settings` stands for its folder and environment, `deleted`
   says its session is gone from the session manager, `killed` that a kill took it.
   */
  datatype Pty = Pty(id: string, settings: nat, createdAt: int, stage: Stage, released: bool, deleted: bool, killed: bool)

  /** Every terminal object made so far, by number, and the table byID of those the sandbox still knows. */
  datatype State = State(ptys: map<nat, Pty>, byId: map<string, nat>, limit: nat, keep: nat)

  ghost predicate Sound(s: State) {
    forall id :: id in s.byId ==> s.byId[id] in s.ptys && s.ptys[s.byId[id]].id == id
  }

  /** Those counted against the limit. */
  function Held(s: State): set<string>
    requires Sound(s)
  {
    set id | id in s.byId && !s.ptys[s.byId[id]].released
  }

  function Finished(s: State): set<string>
    requires Sound(s)
  {
    set id | id in s.byId && s.ptys[s.byId[id]].released
  }

  predicate Known(s: State, p: nat) {
    p in s.ptys && s.ptys[p].id in s.byId && s.byId[s.ptys[p].id] == p
  }

  // ----- The locked sections -----

  predicate Prunable(s: State, id: string)
    requires Sound(s) && id in s.byId
  {
    !s.ptys[s.byId[id]].stage.Pending? && s.ptys[s.byId[id]].deleted
  }

  /** pruneLocked: the table forgets every created terminal of a session that is gone. */
  function Prune(s: State): (t: State)
    requires Sound(s)
    ensures Sound(t)
  {
    s.(byId := map id | id in s.byId && !Prunable(s, id) :: s.byId[id])
  }

  /** forgetLocked: p leaves the table, if it is there, and its session the manager. */
  function Forget(s: State, p: nat): (t: State)
    requires Sound(s) && p in s.ptys
    ensures Sound(t)
  {
    s.(byId := if Known(s, p) then s.byId - {s.ptys[p].id} else s.byId, ptys := s.ptys[p := s.ptys[p].(deleted := true)])
  }

  /** What one turn of create's loop answers. */
  datatype Answer = Waits | Existing | Conflict | TooMany | Claimed

  function Occupant(s: State, id: string): Pty
    requires Sound(s) && id in s.byId
  {
    s.ptys[s.byId[id]]
  }

  /** The table once pruned and, if the id's terminal has finished, without it. */
  function Cleared(s: State, id: string): (t: State)
    requires Sound(s)
    ensures Sound(t)
  {
    var t := Prune(s);
    if id in t.byId && Occupant(t, id).stage.Exited? then Forget(t, t.byId[id]) else t
  }

  function AnswerFor(s: State, id: string, settings: nat): Answer
    requires Sound(s)
  {
    var t := Prune(s);
    if id in t.byId && Occupant(t, id).stage.Pending? then Waits
    else if id in t.byId && !Occupant(t, id).stage.Exited? then
      if Occupant(t, id).settings == settings then Existing else Conflict
    else if |Held(Cleared(s, id))| >= s.limit then TooMany
    else Claimed
  }

  /** The claim: a terminal whose shell is being started. */
  function Insert(s: State, p: nat, id: string, settings: nat, now: int): State {
    s.(ptys := s.ptys[p := Pty(id, settings, now, Pending, false, false, false)], byId := s.byId[id := p])
  }

  function AfterTurn(s: State, p: nat, id: string, settings: nat, now: int): State
    requires Sound(s)
  {
    match AnswerFor(s, id, settings)
    case Waits => Prune(s)
    case Existing => Prune(s)
    case Conflict => Prune(s)
    case TooMany => Cleared(s, id)
    case Claimed => Insert(Cleared(s, id), p, id, settings, now)
  }

  /** create's second locked section: the shell has started, or its claim is dropped. */
  function AfterStart(s: State, p: nat, ok: bool): State
    requires p in s.ptys
  {
    if ok then s.(ptys := s.ptys[p := s.ptys[p].(stage := Running)])
    else s.(ptys := s.ptys[p := s.ptys[p].(stage := Failed)],
            byId := if Known(s, p) then s.byId - {s.ptys[p].id} else s.byId)
  }

  function Mark(s: State, p: nat): State
    requires p in s.ptys
  {
    s.(ptys := s.ptys[p := s.ptys[p].(released := true)])
  }

  /** The table without the terminals of some ids, their session records deleted. */
  function Purge(s: State, gone: set<string>): State {
    s.(byId := s.byId - gone,
       ptys := map p | p in s.ptys :: if Known(s, p) && s.ptys[p].id in gone then s.ptys[p].(deleted := true) else s.ptys[p])
  }

  /** None of those kept was created before one of those gone. */
  ghost predicate Oldest(s: State, gone: set<string>)
    requires Sound(s)
  {
    && gone <= Finished(s)
    && forall a, b :: a in gone && b in Finished(s) - gone ==> Occupant(s, a).createdAt <= Occupant(s, b).createdAt
  }

  /** release: if p is still in the table, the oldest finished terminals beyond `keep` are forgotten. */
  ghost predicate Released(s: State, p: nat, t: State, gone: set<string>)
    requires Sound(s) && p in s.ptys
  {
    var m := Mark(s, p);
    && |gone| == (if Known(s, p) && |Finished(m)| > s.keep then |Finished(m)| - s.keep else 0)
    && Oldest(m, gone) && t == Purge(m, gone)
  }

  datatype Event =
    | Create(p: nat, id: string, settings: nat, now: int)
    | Started(p: nat, ok: bool)
    | Exits(p: nat)
    | Release(p: nat, gone: set<string>)
    | DeletedElsewhere(p: nat)
    | LookUp
    | KillTakes(p: nat)

  ghost predicate Next(s: State, e: Event, t: State) {
    && Sound(s)
    && match e
       case Create(p, id, settings, now) => p !in s.ptys && t == AfterTurn(s, p, id, settings, now)
       case Started(p, ok) => p in s.ptys && s.ptys[p].stage.Pending? && t == AfterStart(s, p, ok)
       case Exits(p) => p in s.ptys && s.ptys[p].stage.Running? && t == s.(ptys := s.ptys[p := s.ptys[p].(stage := Exited)])
       case Release(p, gone) => p in s.ptys && s.ptys[p].stage.Exited? && Released(s, p, t, gone)
       case DeletedElsewhere(p) =>
         p in s.ptys && (s.ptys[p].stage.Running? || s.ptys[p].stage.Exited?) && t == s.(ptys := s.ptys[p := s.ptys[p].(deleted := true)])
       case LookUp => t == Prune(s)
       case KillTakes(p) =>
         && p in s.ptys && (s.ptys[p].stage.Running? || s.ptys[p].stage.Exited?)
         && t == s.(byId := if Known(s, p) then s.byId - {s.ptys[p].id} else s.byId,
                    ptys := s.ptys[p := s.ptys[p].(killed := true)])
  }

  // ----- What every step keeps -----

  /** Neither exited, killed nor deleted; a terminal whose creation is under way counts. */
  ghost predicate Live(s: State, p: nat) {
    p in s.ptys && (s.ptys[p].stage.Pending? || (s.ptys[p].stage.Running? && !s.ptys[p].killed && !s.ptys[p].deleted))
  }

  ghost predicate Bounded(s: State)
    requires Sound(s)
  {
    |Held(s)| <= s.limit && |Finished(s)| <= s.keep
  }

  ghost predicate RecordSound(s: State, p: nat)
    requires p in s.ptys
  {
    && (Live(s, p) ==> Known(s, p))
    && (Known(s, p) ==> !s.ptys[p].stage.Failed? && !s.ptys[p].killed)
    && (s.ptys[p].released ==> s.ptys[p].stage.Exited?)
    && (s.ptys[p].stage.Pending? ==> !s.ptys[p].deleted && !s.ptys[p].killed)
  }

  ghost predicate RecordsSound(s: State) {
    forall p :: p in s.ptys ==> RecordSound(s, p)
  }

  ghost predicate Inv(s: State) {
    Sound(s) && Bounded(s) && RecordsSound(s)
  }

  /** Steps that only take entries out of the table, or leave it alone. */
  lemma SmallerKept(s: State, t: State)
    requires Sound(s) && Sound(t) && Bounded(s)
    requires Held(t) <= Held(s) && Finished(t) <= Finished(s) && t.limit == s.limit && t.keep == s.keep
    ensures Bounded(t)
  {
    SubsetSize(Held(t), Held(s));
    SubsetSize(Finished(t), Finished(s));
  }

  lemma PruneKeeps(s: State)
    requires Inv(s)
    ensures Inv(Prune(s))
  {
    SmallerKept(s, Prune(s));
  }

  lemma ForgetKeeps(s: State, p: nat)
    requires Inv(s) && p in s.ptys && s.ptys[p].stage.Exited?
    ensures Inv(Forget(s, p))
  {
    SmallerKept(s, Forget(s, p));
  }

  lemma ClearedKeeps(s: State, id: string)
    requires Inv(s)
    ensures Inv(Cleared(s, id))
  {
    PruneKeeps(s);
    var t := Prune(s);
    if id in t.byId && Occupant(t, id).stage.Exited? {
      ForgetKeeps(t, t.byId[id]);
    }
  }

  lemma InsertLeaves(s: State, p: nat, id: string, settings: nat, now: int)
    requires Sound(s) && p !in s.ptys && id !in s.byId
    ensures Sound(Insert(s, p, id, settings, now))
    ensures Held(Insert(s, p, id, settings, now)) == Held(s) + {id}
    ensures Finished(Insert(s, p, id, settings, now)) == Finished(s)
  {
  }

  lemma InsertRecords(s: State, p: nat, id: string, settings: nat, now: int)
    requires Sound(s) && RecordsSound(s) && p !in s.ptys && id !in s.byId
    ensures RecordsSound(Insert(s, p, id, settings, now))
  {
  }

  lemma InsertKeeps(s: State, p: nat, id: string, settings: nat, now: int)
    requires Inv(s) && p !in s.ptys && id !in s.byId && |Held(s)| < s.limit
    ensures Inv(Insert(s, p, id, settings, now))
  {
    InsertLeaves(s, p, id, settings, now);
    InsertRecords(s, p, id, settings, now);
  }

  lemma CreateKeeps(s: State, p: nat, id: string, settings: nat, now: int)
    requires Inv(s) && p !in s.ptys
    ensures Inv(AfterTurn(s, p, id, settings, now))
  {
    PruneKeeps(s);
    ClearedKeeps(s, id);
    if AnswerFor(s, id, settings).Claimed? {
      InsertKeeps(Cleared(s, id), p, id, settings, now);
    }
  }

  /** Changing one terminal's record without releasing it. */
  lemma UpdateKeeps(s: State, p: nat, q: Pty)
    requires Inv(s) && p in s.ptys && q.id == s.ptys[p].id && q.released == s.ptys[p].released
    requires (q.stage.Running? && !q.deleted && !q.killed) || q.stage.Pending? ==> Live(s, p)
    requires q.stage.Pending? ==> !q.deleted && !q.killed
    requires q.released ==> q.stage.Exited?
    requires q.stage.Failed? || q.killed ==> !Known(s, p)
    ensures Inv(s.(ptys := s.ptys[p := q]))
  {
    SmallerKept(s, s.(ptys := s.ptys[p := q]));
  }

  function Drop(s: State, p: nat): State
    requires p in s.ptys
  {
    s.(byId := if Known(s, p) then s.byId - {s.ptys[p].id} else s.byId)
  }

  /** Dropping one entry, and only then ending its life. */
  lemma DropKeeps(s: State, p: nat, q: Pty)
    requires Inv(s) && p in s.ptys && q.id == s.ptys[p].id && q.released == s.ptys[p].released
    requires !q.stage.Pending? && (q.stage.Running? ==> q.killed || q.deleted)
    requires q.released ==> q.stage.Exited?
    ensures Inv(Drop(s, p).(ptys := s.ptys[p := q]))
  {
    SmallerKept(s, Drop(s, p).(ptys := s.ptys[p := q]));
  }

  lemma PurgeLeaves(s: State, gone: set<string>)
    requires Sound(s) && gone <= Finished(s)
    ensures Sound(Purge(s, gone))
    ensures Held(Purge(s, gone)) <= Held(s) && Finished(Purge(s, gone)) == Finished(s) - gone
  {
  }

  lemma MarkLeaves(s: State, p: nat)
    requires Sound(s) && p in s.ptys
    ensures Sound(Mark(s, p)) && Held(Mark(s, p)) <= Held(s)
    ensures !Known(s, p) ==> Finished(Mark(s, p)) == Finished(s)
  {
  }

  lemma SizeAfter(a: set<string>, gone: set<string>)
    requires gone <= a
    ensures |a - gone| == |a| - |gone|
  {
  }

  lemma ReleaseBounded(s: State, p: nat, t: State, gone: set<string>)
    requires Sound(s) && Bounded(s) && p in s.ptys && Released(s, p, t, gone)
    ensures Sound(t) && Bounded(t)
  {
    var m := Mark(s, p);
    MarkLeaves(s, p);
    PurgeLeaves(m, gone);
    SizeAfter(Finished(m), gone);
    SubsetSize(Held(t), Held(s));
  }

  lemma ReleaseRecord(s: State, p: nat, t: State, gone: set<string>, q: nat)
    requires Sound(s) && p in s.ptys && s.ptys[p].stage.Exited? && Released(s, p, t, gone)
    requires q in s.ptys && RecordSound(s, q)
    ensures q in t.ptys && RecordSound(t, q)
  {
  }

  lemma ReleaseKeeps(s: State, p: nat, t: State, gone: set<string>)
    requires Inv(s) && p in s.ptys && s.ptys[p].stage.Exited? && Released(s, p, t, gone)
    ensures Inv(t)
  {
    ReleaseBounded(s, p, t, gone);
    forall q | q in t.ptys
      ensures RecordSound(t, q)
    {
      assert q in s.ptys;
      ReleaseRecord(s, p, t, gone, q);
    }
  }

  lemma NextKeeps(s: State, e: Event, t: State)
    requires Inv(s) && Next(s, e, t)
    ensures Inv(t)
  {
    match e
    case Create(p, id, settings, now) => CreateKeeps(s, p, id, settings, now);
    case Started(p, ok) =>
      if ok {
        UpdateKeeps(s, p, s.ptys[p].(stage := Running));
      } else {
        DropKeeps(s, p, s.ptys[p].(stage := Failed));
      }
    case Exits(p) => UpdateKeeps(s, p, s.ptys[p].(stage := Exited));
    case Release(p, gone) => ReleaseKeeps(s, p, t, gone);
    case DeletedElsewhere(p) => UpdateKeeps(s, p, s.ptys[p].(deleted := true));
    case LookUp => PruneKeeps(s);
    case KillTakes(p) => DropKeeps(s, p, s.ptys[p].(killed := true));
  }

  // ----- Whole runs -----

  ghost predicate Run(states: seq<State>, events: seq<Event>) {
    && |states| == |events| + 1 && states[0].ptys == map[] && states[0].byId == map[]
    && forall i :: 0 <= i < |events| ==> Next(states[i], events[i], states[i + 1])
  }

  lemma {:induction false} RunKeeps(states: seq<State>, events: seq<Event>, i: nat)
    requires Run(states, events) && i < |states|
    ensures Inv(states[i]) && states[i].limit == states[0].limit && states[i].keep == states[0].keep
  {
    if i == 0 {
      assert Held(states[0]) == {} && Finished(states[0]) == {};
    } else {
      RunKeeps(states, events, i - 1);
      NextKeeps(states[i - 1], events[i - 1], states[i]);
    }
  }

  /** No run holds more than `limit` terminals or keeps more than `keep` finished ones, and every entry past its creation has a session. */
  lemma TableIsBounded(states: seq<State>, events: seq<Event>, i: nat)
    requires Run(states, events) && i < |states|
    ensures var s := states[i];
      && Sound(s) && |Held(s)| <= states[0].limit && |Finished(s)| <= states[0].keep
      && forall id :: id in s.byId && !Occupant(s, id).stage.Pending? ==> Occupant(s, id).stage.Running? || Occupant(s, id).stage.Exited?
  {
    RunKeeps(states, events, i);
    var s := states[i];
    forall id | id in s.byId
      ensures !Occupant(s, id).stage.Failed?
    {
      assert RecordSound(s, s.byId[id]) && Known(s, s.byId[id]);
    }
  }

  lemma OneLiveTerminal(s: State, p: nat, q: nat)
    requires Inv(s) && Live(s, p) && Live(s, q) && s.ptys[p].id == s.ptys[q].id
    ensures p == q
  {
  }

  ghost predicate StartedOnce(s: State, p: nat) {
    p in s.ptys && (s.ptys[p].stage.Running? || s.ptys[p].stage.Exited?)
  }

  lemma {:induction false} StaysStarted(states: seq<State>, events: seq<Event>, i: nat, j: nat, p: nat)
    requires Run(states, events) && i <= j < |states| && StartedOnce(states[i], p)
    ensures StartedOnce(states[j], p) && states[j].ptys[p].id == states[i].ptys[p].id
    decreases j - i
  {
    if i < j {
      assert Next(states[i], events[i], states[i + 1]);
      StaysStarted(states, events, i + 1, j, p);
    }
  }

  /** Between two successful creations of one id the earlier terminal has exited, been killed or been deleted. */
  lemma CreatedAgain(states: seq<State>, events: seq<Event>, i: nat, j: nat, p: nat, q: nat)
    requires Run(states, events) && i < j < |events| && events[i] == Started(p, true) && events[j] == Started(q, true)
    requires p in states[j].ptys && q in states[j].ptys && states[j].ptys[p].id == states[j].ptys[q].id
    ensures var earlier := states[j].ptys[p]; p != q && (earlier.stage.Exited? || earlier.killed || earlier.deleted)
  {
    assert Next(states[i], events[i], states[i + 1]) && Next(states[j], events[j], states[j + 1]);
    StaysStarted(states, events, i + 1, j, p);
    RunKeeps(states, events, j);
    if Live(states[j], p) {
      OneLiveTerminal(states[j], p, q);
    }
  }

  /**
   While a terminal runs, every create of its id is answered with it, or with a
   conflict when folder or environment differ; while it is being created they wait.
   So of the creates that overlap it, exactly one reports a new terminal.
   */
  lemma OverlappingCreates(states: seq<State>, events: seq<Event>, i: nat, p: nat, settings: nat)
    requires Run(states, events) && i < |states| && Live(states[i], p)
    ensures Sound(states[i])
    ensures var s := states[i];
      AnswerFor(s, s.ptys[p].id, settings) ==
        if s.ptys[p].stage.Pending? then Waits else if s.ptys[p].settings == settings then Existing else Conflict
  {
    RunKeeps(states, events, i);
    var s := states[i];
    assert RecordSound(s, p);
    assert !Prunable(s, s.ptys[p].id);
  }

  // ----- What each step does to the table -----

  /** The terminal of id is being created, or the session manager still has its session. */
  ghost predicate Here(s: State, id: string)
    requires Sound(s) && id in s.byId
  {
    s.ptys[s.byId[id]].stage.Pending? || !s.ptys[s.byId[id]].deleted
  }

  /** The terminals beside id's that take up room. */
  ghost function Others(s: State, id: string): set<string>
    requires Sound(s)
  {
    set other | other in s.byId && other != id && Here(s, other) && !s.ptys[s.byId[other]].released
  }

  ghost predicate Free(s: State, id: string) {
    forall p :: Live(s, p) ==> s.ptys[p].id != id
  }

  /** Beside id's, the table has the same entries, but for those whose session is gone. */
  ghost predicate OthersKept(s: State, t: State, id: string)
    requires Sound(s)
  {
    forall other :: other != id ==>
      && (other in t.byId <==> other in s.byId && Here(s, other))
      && (other in t.byId ==> t.byId[other] == s.byId[other])
  }

  /** No terminal object but p is changed. */
  ghost predicate OnlyTouched(s: State, t: State, p: nat) {
    t.ptys.Keys == s.ptys.Keys + {p} && forall q :: q in s.ptys && q != p ==> t.ptys[q] == s.ptys[q]
  }

  /** An id no live terminal has: the old one's session is gone, and p is made while there is room. */
  ghost predicate MakesNew(s: State, p: nat, id: string, settings: nat, now: int, answer: Answer, t: State)
    requires Sound(s)
  {
    && OthersKept(s, t, id)
    && (id in s.byId ==> s.byId[id] in t.ptys && t.ptys[s.byId[id]].deleted)
    && (forall q :: q in s.ptys && (id in s.byId ==> q != s.byId[id]) ==> q in t.ptys && t.ptys[q] == s.ptys[q])
    && (if |Others(s, id)| < s.limit then
          && answer == Claimed && id in t.byId && t.byId[id] == p
          && p in t.ptys && t.ptys[p] == Pty(id, settings, now, Pending, false, false, false)
        else
          answer == TooMany && id !in t.byId && p !in t.ptys)
  }

  lemma FinishedIsKnown(s: State, id: string)
    requires Inv(s) && id in s.byId && Free(s, id)
    ensures !s.ptys[s.byId[id]].stage.Pending?
    ensures s.ptys[s.byId[id]].stage.Exited? || s.ptys[s.byId[id]].deleted
  {
    assert Known(s, s.byId[id]) && RecordSound(s, s.byId[id]) && !Live(s, s.byId[id]);
  }

  lemma ClearedHolds(s: State, id: string)
    requires Inv(s) && Free(s, id)
    ensures Held(Cleared(s, id)) == Others(s, id) && id !in Cleared(s, id).byId
    ensures OthersKept(s, Cleared(s, id), id)
  {
    if id in s.byId {
      FinishedIsKnown(s, id);
    }
  }

  lemma NewTerminal(s: State, p: nat, id: string, settings: nat, now: int)
    requires Inv(s) && Free(s, id) && p !in s.ptys
    ensures MakesNew(s, p, id, settings, now, AnswerFor(s, id, settings), AfterTurn(s, p, id, settings, now))
  {
    ClearedHolds(s, id);
    if id in s.byId {
      FinishedIsKnown(s, id);
    }
  }

  /**
   In every run, a create of an id no live terminal has makes a new one if and only if
   fewer terminals than the limit take up room beside the id's own, finished one; that
   one's session is gone from the manager either way, and nothing else changes but that
   entries whose session is gone leave the table.
   */
  lemma FreshCreate(states: seq<State>, events: seq<Event>, i: nat)
    requires Run(states, events) && i < |events| && events[i].Create? && Free(states[i], events[i].id)
    ensures Sound(states[i])
    ensures var e := events[i];
      MakesNew(states[i], e.p, e.id, e.settings, e.now, AnswerFor(states[i], e.id, e.settings), states[i + 1])
  {
    RunKeeps(states, events, i);
    var e := events[i];
    assert Next(states[i], e, states[i + 1]);
    NewTerminal(states[i], e.p, e.id, e.settings, e.now);
  }

  /** A create of a live terminal's id changes no terminal, and leaves that one in the table. */
  lemma OverlappingLeave(states: seq<State>, events: seq<Event>, i: nat, q: nat)
    requires Run(states, events) && i < |events| && events[i].Create?
    requires Live(states[i], q) && states[i].ptys[q].id == events[i].id
    ensures Sound(states[i])
    ensures var s, t := states[i], states[i + 1];
      t.ptys == s.ptys && OthersKept(s, t, events[i].id) && events[i].id in t.byId && t.byId[events[i].id] == q
  {
    OverlappingCreates(states, events, i, q, events[i].settings);
    RunKeeps(states, events, i);
    assert RecordSound(states[i], q);
    assert Next(states[i], events[i], states[i + 1]);
  }

  /** A shell that started makes its terminal a live one; one that would not gives the id back. */
  lemma StartedEffect(states: seq<State>, events: seq<Event>, i: nat)
    requires Run(states, events) && i < |events| && events[i].Started?
    ensures var s, t, p := states[i], states[i + 1], events[i].p;
      && p in s.ptys && OnlyTouched(s, t, p)
      && (if events[i].ok then Live(t, p) && t.byId == s.byId
          else t.byId == s.byId - {s.ptys[p].id} && Free(t, s.ptys[p].id))
  {
    RunKeeps(states, events, i);
    var s, t, p := states[i], states[i + 1], events[i].p;
    assert Next(s, events[i], t);
    assert RecordSound(s, p) && Live(s, p);
    if !events[i].ok {
      forall q | Live(t, q)
        ensures t.ptys[q].id != s.ptys[p].id
      {
        assert Live(s, q);
        if s.ptys[q].id == s.ptys[p].id {
          OneLiveTerminal(s, p, q);
        }
      }
    }
  }

  /** A shell that exits, is deleted or is killed is no live terminal any more; only a kill takes it out of the table at once. */
  lemma EndedEffect(states: seq<State>, events: seq<Event>, i: nat)
    requires Run(states, events) && i < |events|
    requires events[i].Exits? || events[i].DeletedElsewhere? || events[i].KillTakes?
    ensures var s, e, t := states[i], events[i], states[i + 1];
      && e.p in s.ptys && e.p in t.ptys && !Live(t, e.p) && OnlyTouched(s, t, e.p)
      && (e.Exits? ==> t.ptys[e.p].stage.Exited?) && (e.DeletedElsewhere? ==> t.ptys[e.p].deleted)
      && (if e.KillTakes? then !Known(t, e.p) && (forall id :: id != s.ptys[e.p].id ==> (id in t.byId <==> id in s.byId))
          else t.byId == s.byId)
  {
    RunKeeps(states, events, i);
    assert Next(states[i], events[i], states[i + 1]);
  }

  lemma MarkMoves(s: State, p: nat)
    requires Sound(s) && p in s.ptys
    ensures Sound(Mark(s, p)) && Mark(s, p).byId == s.byId
    ensures Known(s, p) ==> Held(Mark(s, p)) == Held(s) - {s.ptys[p].id} && Finished(Mark(s, p)) == Finished(s) + {s.ptys[p].id}
    ensures !Known(s, p) ==> Held(Mark(s, p)) == Held(s) && Finished(Mark(s, p)) == Finished(s)
  {
  }

  lemma PurgeHolds(s: State, gone: set<string>)
    requires Sound(s) && gone <= Finished(s)
    ensures Sound(Purge(s, gone)) && Held(Purge(s, gone)) == Held(s) && Purge(s, gone).byId == s.byId - gone
    ensures forall id :: id in gone ==> id in s.byId && Purge(s, gone).ptys[s.byId[id]].deleted
  {
  }

  /** The finished terminals past `keep` are gone from the table and the manager, and none of them is newer than one kept. */
  ghost predicate NewestKept(s: State, t: State, finished: set<string>, gone: set<string>)
    requires Sound(s) && finished <= s.byId.Keys
  {
    && gone <= finished && t.byId == s.byId - gone
    && |gone| == (if |finished| > s.keep then |finished| - s.keep else 0)
    && (forall id :: id in gone ==> s.byId[id] in t.ptys && t.ptys[s.byId[id]].deleted)
    && (forall a, b :: a in gone && b in finished - gone ==>
          s.ptys[s.byId[a]].createdAt <= s.ptys[s.byId[b]].createdAt)
  }

  lemma ReleasedKeepsNewest(s: State, p: nat, t: State, gone: set<string>)
    requires Sound(s) && Known(s, p) && Released(s, p, t, gone)
    ensures NewestKept(s, t, Finished(s) + {s.ptys[p].id}, gone)
  {
    var m := Mark(s, p);
    MarkMoves(s, p);
    PurgeHolds(m, gone);
    forall a, b | a in gone && b in Finished(m) - gone
      ensures s.ptys[s.byId[a]].createdAt <= s.ptys[s.byId[b]].createdAt
    {
      assert Occupant(m, a).createdAt <= Occupant(m, b).createdAt;
    }
  }

  lemma ReleasedIsMarked(s: State, p: nat, t: State, gone: set<string>)
    requires Sound(s) && p in s.ptys && Released(s, p, t, gone)
    ensures Sound(t) && p in t.ptys && t.ptys[p].released
    ensures Held(t) == Held(s) - (if Known(s, p) then {s.ptys[p].id} else {})
    ensures !Known(s, p) ==> t.byId == s.byId
  {
    var m := Mark(s, p);
    MarkMoves(s, p);
    PurgeHolds(m, gone);
  }

  /** A release frees the terminal's slot, and of the finished terminals only the newest stay. */
  lemma ReleaseEffect(states: seq<State>, events: seq<Event>, i: nat)
    requires Run(states, events) && i < |events| && events[i].Release?
    ensures Sound(states[i]) && Sound(states[i + 1])
    ensures var s, t, p := states[i], states[i + 1], events[i].p;
      && p in s.ptys && p in t.ptys && t.ptys[p].released
      && Held(t) == Held(s) - (if Known(s, p) then {s.ptys[p].id} else {})
      && (if Known(s, p) then NewestKept(s, t, Finished(s) + {s.ptys[p].id}, events[i].gone) else t.byId == s.byId)
  {
    RunKeeps(states, events, i);
    var s, t, p := states[i], states[i + 1], events[i].p;
    assert Next(s, events[i], t);
    ReleasedIsMarked(s, p, t, events[i].gone);
    if Known(s, p) {
      ReleasedKeepsNewest(s, p, t, events[i].gone);
    }
  }

  // ----- The table's own code -----

  lemma PurgeOneMore(s: State, gone: set<string>, id: string)
    requires Sound(s) && gone <= Finished(s) && id in Finished(s) - gone && Sound(Purge(s, gone))
    ensures Forget(Purge(s, gone), s.byId[id]) == Purge(s, gone + {id})
  {
    var t := Purge(s, gone);
    assert t.byId[id] == s.byId[id] && Known(t, s.byId[id]);
    assert Forget(t, s.byId[id]).byId == Purge(s, gone + {id}).byId;
    assert Forget(t, s.byId[id]).ptys == Purge(s, gone + {id}).ptys;
  }

  /** Forgetting the oldest of the finished terminals left. */
  lemma OldestOneMore(s: State, gone: set<string>, id: string)
    requires Sound(s) && Oldest(s, gone) && Sound(Purge(s, gone)) && id in Finished(s) - gone
    requires forall other :: other in Finished(s) - gone ==> other in Purge(s, gone).byId
    requires forall other :: other in Finished(s) - gone ==>
      Occupant(Purge(s, gone), id).createdAt <= Occupant(Purge(s, gone), other).createdAt
    ensures Oldest(s, gone + {id})
  {
    forall other | other in Finished(s) - gone
      ensures Occupant(Purge(s, gone), other).createdAt == Occupant(s, other).createdAt
    {
    }
  }

  lemma PurgeNone(s: State)
    ensures Purge(s, {}) == s
  {
  }

  lemma OneFewer(finished: set<string>, all: set<string>, gone: set<string>, id: string)
    requires gone <= all && finished == all - gone && id in finished
    ensures finished - {id} == all - (gone + {id}) && gone + {id} <= all
    ensures |finished - {id}| == |finished| - 1 && |gone + {id}| == |gone| + 1
  {
  }

  /** daytonaPTYs: the table under its lock, and the terminals it points at. */
  class Table {
    var ptys: map<nat, Pty>
    var byId: map<string, nat>
    const limit: nat
    const keep: nat

    ghost function View(): State
      reads this
    {
      State(ptys, byId, limit, keep)
    }

    constructor (limit: nat, keep: nat)
      ensures View() == State(map[], map[], limit, keep)
    {
      this.limit, this.keep := limit, keep;
      ptys, byId := map[], map[];
    }

    method PruneLocked()
      requires Sound(View())
      modifies this`byId
      ensures View() == Prune(old(View()))
    {
      var left := byId.Keys;
      while left != {}
        invariant left <= old(byId.Keys)
        invariant byId == map id | id in old(byId) && (id in left || !Prunable(old(View()), id)) :: old(byId[id])
        decreases |left|
      {
        var id :| id in left;
        left := left - {id};
        var pty := ptys[byId[id]];
        if !pty.stage.Pending? && pty.deleted {
          byId := byId - {id};
        }
      }
    }

    method HeldLocked() returns (held: nat)
      requires Sound(View())
      ensures held == |Held(View())|
    {
      held := 0;
      var left := byId.Keys;
      ghost var counted: set<string> := {};
      while left != {}
        invariant left <= byId.Keys
        invariant counted == set id | id in Held(View()) && id !in left
        invariant held == |counted|
        decreases |left|
      {
        var id :| id in left;
        left := left - {id};
        if !ptys[byId[id]].released {
          held := held + 1;
          counted := counted + {id};
        }
      }
      assert counted == Held(View());
    }

    method ForgetLocked(p: nat)
      requires Sound(View()) && p in ptys
      modifies this
      ensures View() == Forget(old(View()), p)
    {
      var id := ptys[p].id;
      if id in byId && byId[id] == p {
        byId := byId - {id};
      }
      ptys := ptys[p := ptys[p].(deleted := true)];
    }

    /** One turn of create's loop; p is the terminal object it would make. */
    method CreateTurn(p: nat, id: string, settings: nat, now: int) returns (answer: Answer)
      requires Sound(View()) && p !in ptys
      modifies this
      ensures answer == AnswerFor(old(View()), id, settings)
      ensures View() == AfterTurn(old(View()), p, id, settings, now)
    {
      PruneLocked();
      if id in byId && ptys[byId[id]].stage.Pending? {
        return Waits;
      }
      if id in byId && !ptys[byId[id]].stage.Exited? {
        return if ptys[byId[id]].settings == settings then Existing else Conflict;
      }
      if id in byId {
        ForgetLocked(byId[id]);
      }
      var held := HeldLocked();
      if held >= limit {
        return TooMany;
      }
      ptys := ptys[p := Pty(id, settings, now, Pending, false, false, false)];
      byId := byId[id := p];
      return Claimed;
    }

    /** create once its shell has started, or would not. */
    method CreateDone(p: nat, ok: bool)
      requires p in ptys
      modifies this
      ensures View() == AfterStart(old(View()), p, ok)
    {
      var id := ptys[p].id;
      ptys := ptys[p := ptys[p].(stage := if ok then Running else Failed)];
      if !ok && id in byId && byId[id] == p {
        byId := byId - {id};
      }
    }

    method FinishedLocked() returns (finished: set<string>)
      requires Sound(View())
      ensures finished == Finished(View())
    {
      finished := {};
      var left := byId.Keys;
      while left != {}
        invariant left <= byId.Keys
        invariant finished == set id | id in Finished(View()) && id !in left
        decreases |left|
      {
        var id :| id in left;
        left := left - {id};
        if ptys[byId[id]].released {
          finished := finished + {id};
        }
      }
    }

    method OldestOf(ids: set<string>) returns (oldest: string)
      requires Sound(View()) && ids != {} && ids <= byId.Keys
      ensures oldest in ids && forall id :: id in ids ==> Occupant(View(), oldest).createdAt <= Occupant(View(), id).createdAt
    {
      oldest :| oldest in ids;
      var left := ids - {oldest};
      while left != {}
        invariant left <= ids && oldest in ids
        invariant forall id :: id in ids - left ==> Occupant(View(), oldest).createdAt <= Occupant(View(), id).createdAt
        decreases |left|
      {
        var id :| id in left;
        left := left - {id};
        if ptys[byId[id]].createdAt < ptys[byId[oldest]].createdAt {
          oldest := id;
        }
      }
    }

    /** release's last loop: `m` is the table before it, and the finished terminals come oldest first. */
    method ForgetOldest(ghost m: State, all: set<string>) returns (ghost gone: set<string>)
      requires Sound(View()) && m == View() && all == Finished(m)
      modifies this
      ensures gone <= Finished(m) && Oldest(m, gone) && View() == Purge(m, gone)
      ensures |gone| == if |all| > keep then |all| - keep else 0
    {
      gone := {};
      PurgeNone(m);
      var finished := all;
      while |finished| > keep
        invariant gone <= Finished(m) && finished == Finished(m) - gone && Oldest(m, gone)
        invariant View() == Purge(m, gone)
        invariant |finished| + |gone| == |all| && (gone != {} ==> |finished| >= keep)
        decreases |finished|
      {
        PurgeLeaves(m, gone);
        var id := OldestOf(finished);
        OneFewer(finished, Finished(m), gone, id);
        OldestOneMore(m, gone, id);
        PurgeOneMore(m, gone, id);
        ForgetLocked(byId[id]);
        finished := finished - {id};
        gone := gone + {id};
      }
    }

    /** release's locked section. */
    method ReleaseLocked(p: nat) returns (ghost gone: set<string>)
      requires Sound(View()) && p in ptys
      modifies this
      ensures Released(old(View()), p, View(), gone)
    {
      ptys := ptys[p := ptys[p].(released := true)];
      if ptys[p].id !in byId || byId[ptys[p].id] != p {
        PurgeNone(View());
        return {};
      }
      var finished := FinishedLocked();
      gone := ForgetOldest(View(), finished);
    }
  }
}
