/**
 What a review's caller row says, in terms of the records themselves: sums of the
 calls they stand for, the newest of them, the last one to name the caller.
 */
module ReviewMeaning {
  import opened Options
  import opened AuditRecords
  import opened Collections
  import opened Tallies
  import opened ReviewPrincipals
  import opened ReviewTables

  /** A record and the node it was read from. */
  datatype Logged = Logged(node: string, ev: Event)

  function ActsOfOne(r: Logged): seq<Act> {
    if Counted(r.ev) then [ActOf(r.node, r.ev)] else []
  }

  /** The acts of a node's records, in their order. */
  function ActsIn(log: seq<Logged>): seq<Act> {
    if |log| == 0 then []
    else
      var n := |log| - 1;
      ActsIn(log[..n]) + ActsOfOne(log[n])
  }

  /** A record that counts against the caller `who`. */
  predicate By(r: Logged, who: string) {
    && r.ev.kind != KIND_GAP && r.ev.kind != KIND_AUTH_DENIED
    && r.ev.caller.Some? && Clean(r.ev.caller.value.id) == who && who != ""
  }

  function Mine(log: seq<Logged>, who: string): (mine: seq<Logged>)
    ensures forall i :: 0 <= i < |mine| ==> By(mine[i], who)
  {
    if |log| == 0 then []
    else
      var n := |log| - 1;
      Mine(log[..n], who) + if By(log[n], who) then [log[n]] else []
  }

  ghost predicate AllBy(mine: seq<Logged>, who: string) {
    forall i :: 0 <= i < |mine| ==> By(mine[i], who)
  }

  // ----- What a row should say -----

  function KindCalls(mine: seq<Logged>, kind: string): int {
    if |mine| == 0 then 0
    else
      var ev := mine[|mine| - 1].ev;
      KindCalls(mine[..|mine| - 1], kind) + if OrUnknown(Clean(ev.kind)) == kind then CallCount(ev) else 0
  }

  function DeniedCalls(mine: seq<Logged>): int {
    if |mine| == 0 then 0
    else
      var ev := mine[|mine| - 1].ev;
      DeniedCalls(mine[..|mine| - 1]) + if ev.kind == KIND_API && ev.result == RESULT_DENIED then CallCount(ev) else 0
  }

  function LimitedCalls(mine: seq<Logged>): int {
    if |mine| == 0 then 0
    else
      var ev := mine[|mine| - 1].ev;
      LimitedCalls(mine[..|mine| - 1]) + if ev.kind == KIND_API && ev.reason == REASON_RATE_LIMITED then CallCount(ev) else 0
  }

  function TeamOf(r: Logged): string {
    if r.ev.caller.Some? then Clean(r.ev.caller.value.team) else ""
  }

  /** Record i is the newest, and the first at its instant. */
  ghost predicate Newest(mine: seq<Logged>, i: nat) {
    && i < |mine|
    && (forall j :: 0 <= j < |mine| ==> mine[j].ev.time <= mine[i].ev.time)
    && (forall j :: 0 <= j < i ==> mine[j].ev.time < mine[i].ev.time)
  }

  ghost predicate LastSeenSays(p: Row, mine: seq<Logged>, i: nat) {
    && Newest(mine, i) && p.lastSeen == Some(mine[i].ev.time)
    && p.lastAction == ActionText(mine[i].ev) && p.lastNode == mine[i].node
  }

  ghost predicate InTeam(mine: seq<Logged>, team: string) {
    team != "" && exists i :: 0 <= i < |mine| && TeamOf(mine[i]) == team
  }

  ghost predicate CallsSay(calls: Tally, mine: seq<Logged>) {
    forall kind :: Get(calls, kind) == KindCalls(mine, kind)
  }

  ghost predicate TeamsSay(teams: set<string>, mine: seq<Logged>) {
    forall team :: team in teams <==> InTeam(mine, team)
  }

  /** Every field but the name and last seen. */
  ghost predicate CountsSay(p: Row, mine: seq<Logged>)
    requires |mine| > 0 && mine[0].ev.caller.Some?
  {
    && p.kind == Clean(mine[0].ev.caller.value.kind)
    && CallsSay(p.calls, mine) && p.denied == DeniedCalls(mine) && p.rateLimited == LimitedCalls(mine)
    && TeamsSay(p.teams, mine)
  }

  ghost predicate RowSays(p: Row, mine: seq<Logged>) {
    && |mine| > 0 && mine[0].ev.caller.Some? && CountsSay(p, mine)
    && exists i :: LastSeenSays(p, mine, i)
  }

  /** Record i names the caller, at the latest instant any does, and is the last to do so. */
  ghost predicate NamesLast(mine: seq<Logged>, i: nat) {
    && i < |mine| && Named(mine[i])
    && (forall j :: 0 <= j < |mine| && Named(mine[j]) ==> mine[j].ev.time <= mine[i].ev.time)
    && (forall j :: i < j < |mine| && Named(mine[j]) ==> mine[j].ev.time < mine[i].ev.time)
  }

  predicate Named(r: Logged) {
    r.ev.caller.Some? && Clean(r.ev.caller.value.name) != "" && r.ev.time >= ZERO_TIME
  }

  ghost predicate NameSays(p: Row, mine: seq<Logged>, i: nat) {
    && NamesLast(mine, i) && mine[i].ev.caller.Some?
    && p.name == Clean(mine[i].ev.caller.value.name) && p.nameAt == mine[i].ev.time
  }

  ghost predicate Unnamed(p: Row, mine: seq<Logged>) {
    p.name == "" && p.nameAt == ZERO_TIME && forall i :: 0 <= i < |mine| ==> !Named(mine[i])
  }

  // ----- What a row says -----

  function ActsFrom(mine: seq<Logged>, ghost who: string): (acts: seq<Act>)
    requires AllBy(mine, who)
    ensures |acts| == |mine|
  {
    if |mine| == 0 then []
    else
      var n := |mine| - 1;
      ActsFrom(mine[..n], who) + [ActOf(mine[n].node, mine[n].ev)]
  }

  lemma OfOneMore(acts: seq<Act>, r: Logged, who: string)
    ensures Of(acts + ActsOfOne(r), who) == Of(acts, who) + if By(r, who) then [ActOf(r.node, r.ev)] else []
  {
    if Counted(r.ev) {
      assert (acts + [ActOf(r.node, r.ev)])[..|acts|] == acts;
    } else {
      assert acts + [] == acts;
    }
  }

  lemma FromOneMore(mine: seq<Logged>, r: Logged, who: string)
    requires AllBy(mine, who) && By(r, who)
    ensures ActsFrom(mine + [r], who) == ActsFrom(mine, who) + [ActOf(r.node, r.ev)]
  {
    assert (mine + [r])[..|mine|] == mine;
  }

  lemma {:induction false} ActsOfMine(log: seq<Logged>, who: string)
    ensures Of(ActsIn(log), who) == ActsFrom(Mine(log, who), who)
  {
    if |log| > 0 {
      var n := |log| - 1;
      ActsOfMine(log[..n], who);
      OfOneMore(ActsIn(log[..n]), log[n], who);
      if By(log[n], who) {
        FromOneMore(Mine(log[..n], who), log[n], who);
      } else {
        assert Mine(log[..n], who) + [] == Mine(log[..n], who);
      }
    }
  }

  lemma RowFromOne(r: Logged, who: string)
    requires By(r, who)
    ensures RowOf(ActsFrom([r], who)) == AddTo(NewRow(Clean(r.ev.caller.value.kind)), ActOf(r.node, r.ev))
  {
  }

  lemma RowFromMore(mine: seq<Logged>, r: Logged, who: string)
    requires |mine| > 0 && AllBy(mine, who) && By(r, who)
    ensures RowOf(ActsFrom(mine + [r], who)) == AddTo(RowOf(ActsFrom(mine, who)), ActOf(r.node, r.ev))
  {
    assert (mine + [r])[..|mine|] == mine;
    RowOfOneMore(ActsFrom(mine, who), ActOf(r.node, r.ev));
  }

  lemma SumsMore(mine: seq<Logged>, r: Logged)
    ensures DeniedCalls(mine + [r]) ==
      DeniedCalls(mine) + if r.ev.kind == KIND_API && r.ev.result == RESULT_DENIED then CallCount(r.ev) else 0
    ensures LimitedCalls(mine + [r]) ==
      LimitedCalls(mine) + if r.ev.kind == KIND_API && r.ev.reason == REASON_RATE_LIMITED then CallCount(r.ev) else 0
  {
    assert (mine + [r])[..|mine|] == mine;
  }

  lemma CallsMore(calls: Tally, mine: seq<Logged>, r: Logged)
    requires CallsSay(calls, mine)
    ensures CallsSay(Bump(calls, CallKind(r.ev), CallCount(r.ev)), mine + [r])
  {
    assert (mine + [r])[..|mine|] == mine;
  }

  lemma InTeamMore(mine: seq<Logged>, r: Logged, team: string)
    ensures InTeam(mine + [r], team) <==> InTeam(mine, team) || (team != "" && TeamOf(r) == team)
  {
    var all := mine + [r];
    assert all[|mine|] == r;
    if InTeam(mine, team) {
      var i :| 0 <= i < |mine| && TeamOf(mine[i]) == team;
      assert all[i] == mine[i];
    }
  }

  lemma TeamsMore(teams: set<string>, mine: seq<Logged>, r: Logged)
    requires TeamsSay(teams, mine)
    ensures TeamsSay(if TeamOf(r) != "" then teams + {TeamOf(r)} else teams, mine + [r])
  {
    forall team
      ensures InTeam(mine + [r], team) <==> InTeam(mine, team) || (team != "" && TeamOf(r) == team)
    {
      InTeamMore(mine, r, team);
    }
  }

  /** The counters of a row with one more act. */
  lemma AddedCounts(p: Row, a: Act)
    ensures var q := AddTo(p, a);
      && q.kind == p.kind && q.calls == Bump(p.calls, a.callKind, a.calls)
      && q.denied == p.denied + (if a.denied then a.calls else 0)
      && q.rateLimited == p.rateLimited + (if a.rateLimited then a.calls else 0)
      && q.teams == if a.team != "" then p.teams + {a.team} else p.teams
  {
  }

  lemma CountsMore(p: Row, mine: seq<Logged>, r: Logged)
    requires |mine| > 0 && mine[0].ev.caller.Some? && CountsSay(p, mine) && r.ev.caller.Some?
    ensures CountsSay(AddTo(p, ActOf(r.node, r.ev)), mine + [r])
  {
    AddedCounts(p, ActOf(r.node, r.ev));
    SumsMore(mine, r);
    CallsMore(p.calls, mine, r);
    TeamsMore(p.teams, mine, r);
  }

  lemma CountsOne(r: Logged)
    requires r.ev.caller.Some?
    ensures CountsSay(AddTo(NewRow(Clean(r.ev.caller.value.kind)), ActOf(r.node, r.ev)), [r])
  {
    var none: seq<Logged> := [];
    assert none + [r] == [r];
    AddedCounts(NewRow(Clean(r.ev.caller.value.kind)), ActOf(r.node, r.ev));
    SumsMore(none, r);
    CallsMore(map[], none, r);
    TeamsMore({}, none, r);
  }

  lemma LastSeenMore(p: Row, mine: seq<Logged>, r: Logged, i: nat)
    requires LastSeenSays(p, mine, i) && r.ev.caller.Some?
    ensures LastSeenSays(AddTo(p, ActOf(r.node, r.ev)), mine + [r], if r.ev.time > mine[i].ev.time then |mine| else i)
  {
  }

  lemma LastSeenOne(r: Logged)
    requires r.ev.caller.Some?
    ensures LastSeenSays(AddTo(NewRow(Clean(r.ev.caller.value.kind)), ActOf(r.node, r.ev)), [r], 0)
  {
  }

  lemma NameMore(p: Row, mine: seq<Logged>, r: Logged, i: nat)
    requires NameSays(p, mine, i) && r.ev.caller.Some?
    ensures NameSays(AddTo(p, ActOf(r.node, r.ev)), mine + [r], if Named(r) && r.ev.time >= mine[i].ev.time then |mine| else i)
  {
  }

  lemma FirstName(p: Row, mine: seq<Logged>, r: Logged)
    requires Unnamed(p, mine) && r.ev.caller.Some?
    ensures var q := AddTo(p, ActOf(r.node, r.ev));
      if Named(r) then NameSays(q, mine + [r], |mine|) else Unnamed(q, mine + [r])
  {
  }

  /** A row counts its caller's records: the calls of each kind, the denied and the rate-limited ones, and their teams. */
  lemma {:induction false} RowCounts(mine: seq<Logged>, who: string)
    requires |mine| > 0 && AllBy(mine, who)
    ensures CountsSay(RowOf(ActsFrom(mine, who)), mine)
    decreases |mine|
  {
    var n := |mine| - 1;
    assert mine == mine[..n] + [mine[n]];
    if n == 0 {
      RowFromOne(mine[0], who);
      CountsOne(mine[0]);
    } else {
      RowCounts(mine[..n], who);
      RowFromMore(mine[..n], mine[n], who);
      CountsMore(RowOf(ActsFrom(mine[..n], who)), mine[..n], mine[n]);
    }
  }

  /** Last seen is the newest record's time, with the action and the node of the first record at it. */
  lemma {:induction false} RowLastSeen(mine: seq<Logged>, who: string) returns (i: nat)
    requires |mine| > 0 && AllBy(mine, who)
    ensures LastSeenSays(RowOf(ActsFrom(mine, who)), mine, i)
    decreases |mine|
  {
    var n := |mine| - 1;
    var before, r := mine[..n], mine[n];
    assert mine == before + [r];
    if n == 0 {
      RowFromOne(r, who);
      LastSeenOne(r);
      i := 0;
    } else {
      var k := RowLastSeen(before, who);
      RowFromMore(before, r, who);
      LastSeenMore(RowOf(ActsFrom(before, who)), before, r, k);
      i := if r.ev.time > before[k].ev.time then n else k;
    }
  }

  /** In one pass the name is that of the last record to name the caller at the latest instant any does. */
  lemma {:induction false} RowName(mine: seq<Logged>, who: string) returns (i: Option<nat>)
    requires |mine| > 0 && AllBy(mine, who)
    ensures var p := RowOf(ActsFrom(mine, who));
      if i.Some? then NameSays(p, mine, i.value) else Unnamed(p, mine)
    decreases |mine|
  {
    var n := |mine| - 1;
    assert mine == mine[..n] + [mine[n]];
    if n == 0 {
      RowFromOne(mine[0], who);
      FirstName(NewRow(Clean(mine[0].ev.caller.value.kind)), [], mine[0]);
      assert [] + [mine[0]] == mine;
      i := if Named(mine[0]) then Some(0) else None;
    } else {
      i := RowName(mine[..n], who);
      var p := RowOf(ActsFrom(mine[..n], who));
      RowFromMore(mine[..n], mine[n], who);
      if i.Some? {
        NameMore(p, mine[..n], mine[n], i.value);
        i := if Named(mine[n]) && mine[n].ev.time >= mine[i.value].ev.time then Some(n) else i;
      } else {
        FirstName(p, mine[..n], mine[n]);
        i := if Named(mine[n]) then Some(n) else None;
      }
    }
  }

  // ----- What the review says -----

  function SharesOf(logs: seq<seq<Logged>>): seq<seq<Act>> {
    seq(|logs|, i requires 0 <= i < |logs| => ActsIn(logs[i]))
  }

  /** All the nodes' records, in node order. */
  function AllRecords(logs: seq<seq<Logged>>): seq<Logged> {
    if |logs| == 0 then [] else AllRecords(logs[..|logs| - 1]) + logs[|logs| - 1]
  }

  lemma ActsInMore(log: seq<Logged>, r: Logged)
    ensures ActsIn(log + [r]) == ActsIn(log) + ActsOfOne(r)
  {
    assert (log + [r])[..|log|] == log;
  }

  lemma {:induction false} ActsInBoth(a: seq<Logged>, b: seq<Logged>)
    ensures ActsIn(a + b) == ActsIn(a) + ActsIn(b)
    decreases |b|
  {
    if |b| == 0 {
      assert a + b == a;
    } else {
      var n := |b| - 1;
      ActsInBoth(a, b[..n]);
      JoinedInTurn(a, b[..n], [b[n]]);
      assert b == b[..n] + [b[n]];
      ActsInMore(a + b[..n], b[n]);
      ActsInMore(b[..n], b[n]);
      JoinedInTurn(ActsIn(a), ActsIn(b[..n]), ActsOfOne(b[n]));
    }
  }

  lemma {:induction false} FlatShares(logs: seq<seq<Logged>>)
    ensures Flat(SharesOf(logs)) == ActsIn(AllRecords(logs))
  {
    if |logs| > 0 {
      var n := |logs| - 1;
      FlatShares(logs[..n]);
      assert SharesOf(logs)[..n] == SharesOf(logs[..n]);
      ActsInBoth(AllRecords(logs[..n]), logs[n]);
    }
  }

  lemma AgreeSays(p: Row, q: Row, mine: seq<Logged>)
    requires Agree(p, q) && RowSays(q, mine)
    ensures RowSays(p, mine)
  {
    var i :| LastSeenSays(q, mine, i);
    assert LastSeenSays(p, mine, i);
  }

  /**
   In the review of any number of nodes a caller has a row exactly when some record
   counts against them, and that row says what all of those records say.
   */
  lemma ReviewRowSays(logs: seq<seq<Logged>>, who: string)
    ensures var mine := Mine(AllRecords(logs), who);
      && (who in MergeAll(SharesOf(logs)) <==> |mine| > 0)
      && (who in MergeAll(SharesOf(logs)) ==> RowSays(MergeAll(SharesOf(logs))[who], mine))
  {
    var mine, acts := Mine(AllRecords(logs), who), ActsIn(AllRecords(logs));
    FlatShares(logs);
    SharesMergeToOnePass(SharesOf(logs));
    TableRow(acts, who);
    ActsOfMine(AllRecords(logs), who);
    if |mine| > 0 {
      RowCounts(mine, who);
      var i := RowLastSeen(mine, who);
      AgreeSays(MergeAll(SharesOf(logs))[who], RowOf(ActsFrom(mine, who)), mine);
    }
  }
}
