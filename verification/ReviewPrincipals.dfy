/**
 What the records say each caller did: rows folded node by node and merged in node
 order, against one fold of all the records.
 */
module ReviewPrincipals {
  import opened Options
  import opened AuditRecords
  import opened Tallies

  /** reviewPrincipal; its id is the key it is kept under. */
  datatype Row = Row(
    kind: string, calls: Tally, denied: int, rateLimited: int,
    lastSeen: Option<int>, lastAction: string, lastNode: string,
    teams: set<string>, name: string, nameAt: int)

  function NewRow(kind: string): Row {
    Row(kind, map[], 0, 0, None, "", "", {}, "", ZERO_TIME)
  }

  /** add: one record by this caller. A later record wins a tie for the name, an earlier one a tie for last seen. */
  function AddTo(p: Row, a: Act): Row {
    var named := a.name != "" && a.time >= p.nameAt;
    var later := p.lastSeen.None? || a.time > p.lastSeen.value;
    Row(p.kind, Bump(p.calls, a.callKind, a.calls),
        if a.denied then p.denied + a.calls else p.denied,
        if a.rateLimited then p.rateLimited + a.calls else p.rateLimited,
        if later then Some(a.time) else p.lastSeen,
        if later then a.action else p.lastAction,
        if later then a.node else p.lastNode,
        if a.team != "" then p.teams + {a.team} else p.teams,
        if named then a.name else p.name,
        if named then a.time else p.nameAt)
  }

  predicate TakesName(p: Row, o: Row) {
    o.name != "" && (p.name == "" || o.nameAt > p.nameAt)
  }

  /** merge: `o` is what a later node has of the caller; for a time both have, `p` stays. */
  function Merge(p: Row, o: Row): Row
    requires p.lastSeen.Some? && o.lastSeen.Some?
  {
    var later := o.lastSeen.value > p.lastSeen.value;
    Row(p.kind, Combined(p.calls, o.calls), p.denied + o.denied, p.rateLimited + o.rateLimited,
        if later then o.lastSeen else p.lastSeen,
        if later then o.lastAction else p.lastAction,
        if later then o.lastNode else p.lastNode,
        p.teams + o.teams,
        if TakesName(p, o) then o.name else p.name,
        if TakesName(p, o) then o.nameAt else p.nameAt)
  }

  // ----- One caller -----

  /** One caller's row after these acts of theirs. */
  function RowOf(acts: seq<Act>): (p: Row)
    requires |acts| > 0
    ensures p.lastSeen.Some?
  {
    var last := acts[|acts| - 1];
    AddTo(if |acts| == 1 then NewRow(last.kind) else RowOf(acts[..|acts| - 1]), last)
  }

  /** Everything but the name. */
  ghost predicate Agree(p: Row, q: Row) {
    && p.kind == q.kind && p.calls == q.calls && p.denied == q.denied && p.rateLimited == q.rateLimited
    && p.lastSeen == q.lastSeen && p.lastAction == q.lastAction && p.lastNode == q.lastNode && p.teams == q.teams
  }

  lemma CombinedBump(a: Tally, b: Tally, k: string, n: int)
    ensures Combined(a, Bump(b, k, n)) == Bump(Combined(a, b), k, n)
  {
  }

  /** Merging after one more record is adding that record after merging. */
  lemma MergeThenAdd(p: Row, o: Row, a: Act)
    requires p.lastSeen.Some? && o.lastSeen.Some?
    ensures Agree(Merge(p, AddTo(o, a)), AddTo(Merge(p, o), a))
  {
    CombinedBump(p.calls, o.calls, a.callKind, a.calls);
  }

  lemma MergeFirst(p: Row, kind: string, a: Act)
    requires p.lastSeen.Some?
    ensures Agree(Merge(p, AddTo(NewRow(kind), a)), AddTo(p, a))
  {
    CombinedBump(p.calls, map[], a.callKind, a.calls);
    CombinedWithNone(p.calls, map[]);
  }

  lemma AgreeStep(p: Row, o: Row, q: Row, a: Act)
    requires p.lastSeen.Some? && o.lastSeen.Some? && Agree(Merge(p, o), q)
    ensures Agree(Merge(p, AddTo(o, a)), AddTo(q, a))
  {
    MergeThenAdd(p, o, a);
  }

  lemma RowOfOneMore(acts: seq<Act>, a: Act)
    requires |acts| > 0
    ensures RowOf(acts + [a]) == AddTo(RowOf(acts), a)
  {
  }

  lemma MergedOneMore(xs: seq<Act>, ys: seq<Act>, a: Act)
    requires |xs| > 0 && |ys| > 0 && Agree(Merge(RowOf(xs), RowOf(ys)), RowOf(xs + ys))
    ensures Agree(Merge(RowOf(xs), RowOf(ys + [a])), RowOf(xs + ys + [a]))
  {
    RowOfOneMore(ys, a);
    RowOfOneMore(xs + ys, a);
    AgreeStep(RowOf(xs), RowOf(ys), RowOf(xs + ys), a);
  }

  lemma MergedOne(xs: seq<Act>, a: Act)
    requires |xs| > 0
    ensures Agree(Merge(RowOf(xs), RowOf([a])), RowOf(xs + [a]))
  {
    RowOfOneMore(xs, a);
    MergeFirst(RowOf(xs), a.kind, a);
  }

  lemma SplitLast(xs: seq<Act>, ys: seq<Act>)
    requires |ys| > 0
    ensures var n := |ys| - 1; ys == ys[..n] + [ys[n]] && xs + ys == xs + ys[..n] + [ys[n]]
  {
  }

  /** Two nodes' rows merged in node order are the row of all their records in one pass. */
  lemma {:induction false} MergedIsOnePass(xs: seq<Act>, ys: seq<Act>)
    requires |xs| > 0 && |ys| > 0
    ensures Agree(Merge(RowOf(xs), RowOf(ys)), RowOf(xs + ys))
    decreases |ys|
  {
    var n := |ys| - 1;
    SplitLast(xs, ys);
    if n == 0 {
      MergedOne(xs, ys[0]);
      assert ys == [ys[0]];
    } else {
      MergedIsOnePass(xs, ys[..n]);
      MergedOneMore(xs, ys[..n], ys[n]);
    }
  }

  // ----- The name -----

  lemma {:induction false} NamedFromZero(acts: seq<Act>)
    requires |acts| > 0
    ensures var p := RowOf(acts); p.nameAt >= ZERO_TIME && (p.name == "" ==> p.nameAt == ZERO_TIME)
  {
    if |acts| > 1 {
      NamedFromZero(acts[..|acts| - 1]);
    }
  }

  ghost predicate NamedAs(p: Row, o: Row, q: Row) {
    if o.name != "" && o.nameAt >= p.nameAt then q.name == o.name && q.nameAt == o.nameAt
    else q.name == p.name && q.nameAt == p.nameAt
  }

  lemma NameStep(p: Row, o: Row, q: Row, a: Act)
    requires NamedAs(p, o, q) && o.nameAt >= ZERO_TIME && (o.name == "" ==> o.nameAt == ZERO_TIME) && p.nameAt >= ZERO_TIME
    ensures NamedAs(p, AddTo(o, a), AddTo(q, a))
  {
  }

  lemma NameOfOne(xs: seq<Act>, a: Act)
    requires |xs| > 0
    ensures NamedAs(RowOf(xs), RowOf([a]), RowOf(xs + [a]))
  {
    NamedFromZero(xs);
    RowOfOneMore(xs, a);
  }

  lemma NameOneMore(xs: seq<Act>, ys: seq<Act>, a: Act)
    requires |xs| > 0 && |ys| > 0 && NamedAs(RowOf(xs), RowOf(ys), RowOf(xs + ys))
    ensures NamedAs(RowOf(xs), RowOf(ys + [a]), RowOf(xs + ys + [a]))
  {
    NamedFromZero(xs);
    NamedFromZero(ys);
    NameStep(RowOf(xs), RowOf(ys), RowOf(xs + ys), a);
    RowOfOneMore(ys, a);
    RowOfOneMore(xs + ys, a);
  }

  /** In one pass the later node's name wins a tie. */
  lemma {:induction false} NameInOnePass(xs: seq<Act>, ys: seq<Act>)
    requires |xs| > 0 && |ys| > 0
    ensures NamedAs(RowOf(xs), RowOf(ys), RowOf(xs + ys))
    decreases |ys|
  {
    var n := |ys| - 1;
    SplitLast(xs, ys);
    if n == 0 {
      NameOfOne(xs, ys[0]);
      assert ys == [ys[0]];
    } else {
      NameInOnePass(xs, ys[..n]);
      NameOneMore(xs, ys[..n], ys[n]);
    }
  }

  /** Two nodes that name the caller differently at the same instant. */
  predicate NameTie(p: Row, o: Row) {
    p.name != "" && o.name != "" && p.nameAt == o.nameAt && p.name != o.name
  }

  /** Merging gives the one-pass name exactly when the two nodes do not tie. */
  lemma NameAgreesExactly(xs: seq<Act>, ys: seq<Act>)
    requires |xs| > 0 && |ys| > 0
    ensures Merge(RowOf(xs), RowOf(ys)).name == RowOf(xs + ys).name <==> !NameTie(RowOf(xs), RowOf(ys))
  {
    NameInOnePass(xs, ys);
    NamedFromZero(xs);
    NamedFromZero(ys);
  }

  // ----- The name, for any number of nodes -----

  /** One caller's rows on the nodes that saw them, merged in node order. */
  function MergedRow(parts: seq<seq<Act>>): (p: Row)
    requires |parts| > 0 && forall i :: 0 <= i < |parts| ==> |parts[i]| > 0
    ensures p.lastSeen.Some?
  {
    var n := |parts| - 1;
    if n == 0 then RowOf(parts[0]) else Merge(MergedRow(parts[..n]), RowOf(parts[n]))
  }

  function AllActs(parts: seq<seq<Act>>): (acts: seq<Act>)
    requires |parts| > 0 && forall i :: 0 <= i < |parts| ==> |parts[i]| > 0
    ensures |acts| > 0
  {
    var n := |parts| - 1;
    if n == 0 then parts[0] else AllActs(parts[..n]) + parts[n]
  }

  /** The name a row carries and the time it was given. */
  datatype Tag = Tag(name: string, at: int)

  function TagOf(p: Row): Tag {
    Tag(p.name, p.nameAt)
  }

  /** Each node's tag, in node order. */
  function Tags(parts: seq<seq<Act>>): (tags: seq<Tag>)
    requires forall i :: 0 <= i < |parts| ==> |parts[i]| > 0
    ensures |tags| == |parts|
  {
    var n := |parts| - 1;
    if |parts| == 0 then [] else Tags(parts[..n]) + [TagOf(RowOf(parts[n]))]
  }

  lemma {:induction false} TagAt(parts: seq<seq<Act>>, i: nat)
    requires i < |parts| && forall j :: 0 <= j < |parts| ==> |parts[j]| > 0
    ensures Tags(parts)[i] == TagOf(RowOf(parts[i]))
  {
    var n := |parts| - 1;
    if i < n {
      TagAt(parts[..n], i);
    }
  }

  ghost predicate TagsSound(tags: seq<Tag>) {
    forall i :: 0 <= i < |tags| ==> tags[i].at >= ZERO_TIME && (tags[i].name == "" ==> tags[i].at == ZERO_TIME)
  }

  /** Nobody names the caller later than node i does, who names them if anybody does. */
  ghost predicate Latest(tags: seq<Tag>, i: nat)
    requires i < |tags|
  {
    && (forall j :: 0 <= j < |tags| && tags[j].name != "" ==> tags[j].at <= tags[i].at)
    && (tags[i].name == "" ==> forall j :: 0 <= j < |tags| ==> tags[j].name == "")
  }

  ghost predicate FirstLatest(tags: seq<Tag>, i: nat)
    requires i < |tags|
  {
    Latest(tags, i) && forall j :: 0 <= j < i && tags[j].name != "" ==> tags[j].at < tags[i].at
  }

  ghost predicate LastLatest(tags: seq<Tag>, i: nat)
    requires i < |tags|
  {
    Latest(tags, i) && forall j :: i < j < |tags| && tags[j].name != "" ==> tags[j].at < tags[i].at
  }

  function MergeTags(p: Tag, o: Tag): Tag {
    if o.name != "" && (p.name == "" || o.at > p.at) then o else p
  }

  function PassTags(p: Tag, o: Tag): Tag {
    if o.name != "" && o.at >= p.at then o else p
  }

  function Merging(tags: seq<Tag>): Tag
    requires |tags| > 0
  {
    var n := |tags| - 1;
    if n == 0 then tags[0] else MergeTags(Merging(tags[..n]), tags[n])
  }

  function Passing(tags: seq<Tag>): Tag
    requires |tags| > 0
  {
    var n := |tags| - 1;
    if n == 0 then tags[0] else PassTags(Passing(tags[..n]), tags[n])
  }

  lemma {:induction false} MergingIsFirst(tags: seq<Tag>) returns (i: nat)
    requires |tags| > 0 && TagsSound(tags)
    ensures i < |tags| && Merging(tags) == tags[i] && FirstLatest(tags, i)
  {
    var n := |tags| - 1;
    i := 0;
    if n > 0 {
      i := MergingIsFirst(tags[..n]);
      if Merging(tags) != Merging(tags[..n]) {
        i := n;
      }
    }
  }

  lemma {:induction false} PassingIsLast(tags: seq<Tag>) returns (i: nat)
    requires |tags| > 0 && TagsSound(tags)
    ensures i < |tags| && Passing(tags) == tags[i] && LastLatest(tags, i)
  {
    var n := |tags| - 1;
    i := 0;
    if n > 0 {
      i := PassingIsLast(tags[..n]);
      if tags[n].name != "" && tags[n].at >= tags[i].at {
        i := n;
      }
    }
  }

  lemma MergeTag(p: Row, o: Row)
    requires p.lastSeen.Some? && o.lastSeen.Some?
    ensures TagOf(Merge(p, o)) == MergeTags(TagOf(p), TagOf(o))
  {
  }

  lemma PassTag(xs: seq<Act>, ys: seq<Act>)
    requires |xs| > 0 && |ys| > 0
    ensures TagOf(RowOf(xs + ys)) == PassTags(TagOf(RowOf(xs)), TagOf(RowOf(ys)))
  {
    NameInOnePass(xs, ys);
  }

  lemma MergedRowNext(parts: seq<seq<Act>>, part: seq<Act>)
    requires |parts| > 0 && |part| > 0 && forall i :: 0 <= i < |parts| ==> |parts[i]| > 0
    ensures MergedRow(parts + [part]) == Merge(MergedRow(parts), RowOf(part))
    ensures AllActs(parts + [part]) == AllActs(parts) + part
  {
    assert (parts + [part])[..|parts|] == parts;
  }

  lemma TagsNext(parts: seq<seq<Act>>, part: seq<Act>)
    requires |parts| > 0 && |part| > 0 && forall i :: 0 <= i < |parts| ==> |parts[i]| > 0
    ensures Tags(parts + [part]) == Tags(parts) + [TagOf(RowOf(part))]
  {
    assert (parts + [part])[..|parts|] == parts;
  }

  lemma FoldsNext(tags: seq<Tag>, tag: Tag)
    requires |tags| > 0
    ensures Merging(tags + [tag]) == MergeTags(Merging(tags), tag)
    ensures Passing(tags + [tag]) == PassTags(Passing(tags), tag)
  {
    assert (tags + [tag])[..|tags|] == tags;
  }

  lemma FoldsOfOne(part: seq<Act>)
    requires |part| > 0
    ensures Tags([part]) == [TagOf(RowOf(part))]
    ensures MergedRow([part]) == RowOf(part) && AllActs([part]) == part
  {
  }

  /** Both ways of naming the caller depend on the nodes' tags alone. */
  ghost predicate FoldOfTags(parts: seq<seq<Act>>)
    requires |parts| > 0 && forall i :: 0 <= i < |parts| ==> |parts[i]| > 0
  {
    && TagOf(MergedRow(parts)) == Merging(Tags(parts))
    && TagOf(RowOf(AllActs(parts))) == Passing(Tags(parts))
  }

  lemma FoldsOneMore(parts: seq<seq<Act>>, part: seq<Act>)
    requires |parts| > 0 && |part| > 0 && (forall i :: 0 <= i < |parts| ==> |parts[i]| > 0) && FoldOfTags(parts)
    ensures FoldOfTags(parts + [part])
  {
    MergedRowNext(parts, part);
    TagsNext(parts, part);
    FoldsNext(Tags(parts), TagOf(RowOf(part)));
    MergeTag(MergedRow(parts), RowOf(part));
    PassTag(AllActs(parts), part);
  }

  lemma {:induction false} FoldsOfTags(parts: seq<seq<Act>>)
    requires |parts| > 0 && forall i :: 0 <= i < |parts| ==> |parts[i]| > 0
    ensures FoldOfTags(parts)
  {
    var n := |parts| - 1;
    assert parts == parts[..n] + [parts[n]];
    if n == 0 {
      FoldsOfOne(parts[0]);
    } else {
      FoldsOfTags(parts[..n]);
      FoldsOneMore(parts[..n], parts[n]);
    }
  }

  lemma TagsAreSound(parts: seq<seq<Act>>)
    requires forall i :: 0 <= i < |parts| ==> |parts[i]| > 0
    ensures TagsSound(Tags(parts))
  {
    forall i | 0 <= i < |parts|
      ensures Tags(parts)[i].at >= ZERO_TIME && (Tags(parts)[i].name == "" ==> Tags(parts)[i].at == ZERO_TIME)
    {
      TagAt(parts, i);
      NamedFromZero(parts[i]);
    }
  }

  /**
   For any number of nodes: of those that name the caller at the latest instant the
   merged row has the first one's name and one pass the last one's. So the two agree
   if and only if these name the caller alike.
   */
  lemma NamesAgreeExactly(parts: seq<seq<Act>>) returns (first: nat, last: nat)
    requires |parts| > 0 && forall i :: 0 <= i < |parts| ==> |parts[i]| > 0
    ensures first < |parts| && FirstLatest(Tags(parts), first)
    ensures last < |parts| && LastLatest(Tags(parts), last)
    ensures MergedRow(parts).name == Tags(parts)[first].name && RowOf(AllActs(parts)).name == Tags(parts)[last].name
    ensures MergedRow(parts).name == RowOf(AllActs(parts)).name <==> Tags(parts)[first].name == Tags(parts)[last].name
  {
    TagsAreSound(parts);
    FoldsOfTags(parts);
    first := MergingIsFirst(Tags(parts));
    last := PassingIsLast(Tags(parts));
  }

  function Named(node: string, name: string): Act {
    Act("u", "user", name, "", KIND_API, 1, false, false, 1, "", node)
  }

  /** The tie happens: named differently by two nodes within one instant, the merged row keeps the first node's name. */
  lemma NamesCanDiffer()
    ensures var xs, ys := [Named("n1", "a")], [Named("n2", "b")];
      Merge(RowOf(xs), RowOf(ys)).name != RowOf(xs + ys).name
  {
  }
}
