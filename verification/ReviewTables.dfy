/**
 The callers' rows of a whole review: each node's table, the tables merged in node
 order, the token rows taken out of them, and the calls they all add up to.
 */
module ReviewTables {
  import opened Options
  import opened AuditRecords
  import opened Tallies
  import opened ReviewPrincipals

  type Table = map<string, Row>

  function Observe(t: Table, a: Act): Table {
    t[a.who := AddTo(if a.who in t then t[a.who] else NewRow(a.kind), a)]
  }

  /** The rows after these acts, by any number of callers. */
  function TableOf(acts: seq<Act>): Table {
    if |acts| == 0 then map[] else Observe(TableOf(acts[..|acts| - 1]), acts[|acts| - 1])
  }

  /** One caller's acts. */
  function Of(acts: seq<Act>, who: string): seq<Act> {
    if |acts| == 0 then []
    else
      var n := |acts| - 1;
      if acts[n].who == who then Of(acts[..n], who) + [acts[n]] else Of(acts[..n], who)
  }

  /** The table holds each caller's own row: the fold of that caller's acts. */
  lemma {:induction false} TableRow(acts: seq<Act>, who: string)
    ensures who in TableOf(acts) <==> |Of(acts, who)| > 0
    ensures who in TableOf(acts) ==> TableOf(acts)[who] == RowOf(Of(acts, who))
  {
    if |acts| > 0 {
      var n := |acts| - 1;
      TableRow(acts[..n], who);
      if acts[n].who == who && |Of(acts[..n], who)| > 0 {
        RowOfOneMore(Of(acts[..n], who), acts[n]);
      }
    }
  }

  lemma {:induction false} OfBoth(xs: seq<Act>, ys: seq<Act>, who: string)
    ensures Of(xs + ys, who) == Of(xs, who) + Of(ys, who)
    decreases |ys|
  {
    if |ys| == 0 {
      assert xs + ys == xs;
    } else {
      var n := |ys| - 1;
      OfBoth(xs, ys[..n], who);
      assert (xs + ys)[..|xs| + n] == xs + ys[..n];
    }
  }

  // ----- Merging shares -----

  ghost predicate Seen(t: Table) {
    forall who :: who in t ==> t[who].lastSeen.Some?
  }

  /** What one node's share makes of the merged rows. */
  function MergeRow(m: Table, s: Table, who: string): Row
    requires Seen(m) && Seen(s) && (who in m || who in s)
  {
    if who in m && who in s then Merge(m[who], s[who]) else if who in m then m[who] else s[who]
  }

  function MergeTables(m: Table, s: Table): (t: Table)
    requires Seen(m) && Seen(s)
    ensures Seen(t)
  {
    map who | who in m.Keys + s.Keys :: MergeRow(m, s, who)
  }

  lemma TableIsSeen(acts: seq<Act>)
    ensures Seen(TableOf(acts))
  {
  }

  /** The nodes' shares merged one after the other. */
  ghost function MergeAll(shares: seq<seq<Act>>): (t: Table)
    ensures Seen(t)
  {
    if |shares| == 0 then map[]
    else
      var n := |shares| - 1;
      TableIsSeen(shares[n]);
      MergeTables(MergeAll(shares[..n]), TableOf(shares[n]))
  }

  lemma MergeAllNext(shares: seq<seq<Act>>, acts: seq<Act>)
    requires Seen(TableOf(acts))
    ensures MergeAll(shares + [acts]) == MergeTables(MergeAll(shares), TableOf(acts))
  {
  }

  /** One more row of a share, in whichever order its map yields them. */
  lemma MergeOneMore(m: Table, s: Table, who: string, o: Row)
    requires Seen(m) && Seen(s) && who !in s && o.lastSeen.Some?
    ensures Seen(s[who := o])
    ensures MergeTables(m, s[who := o]) == MergeTables(m, s)[who := MergeRow(m, s[who := o], who)]
  {
  }

  lemma OneLeftFewer(s: Table, left: set<string>, who: string)
    requires who in left && who in s
    ensures s - (left - {who}) == (s - left)[who := s[who]]
  {
  }

  lemma MergeNone(m: Table, s: Table)
    requires Seen(m) && Seen(s)
    ensures MergeTables(m, s - s.Keys) == m && s - {} == s
  {
  }

  function Flat(shares: seq<seq<Act>>): seq<Act> {
    if |shares| == 0 then [] else Flat(shares[..|shares| - 1]) + shares[|shares| - 1]
  }

  ghost predicate AgreeTables(t: Table, u: Table) {
    t.Keys == u.Keys && forall who :: who in t ==> Agree(t[who], u[who])
  }

  /** One more share, seen by one caller: xs are the acts merged so far, ys the share's. */
  lemma MergeRowAgrees(m: Table, s: Table, who: string, xs: seq<Act>, ys: seq<Act>)
    requires Seen(m) && Seen(s)
    requires (who in m <==> |xs| > 0) && (who in m ==> Agree(m[who], RowOf(xs)))
    requires (who in s <==> |ys| > 0) && (who in s ==> s[who] == RowOf(ys))
    requires who in m || who in s
    ensures |xs + ys| > 0 && Agree(MergeRow(m, s, who), RowOf(xs + ys))
  {
    if who in m && who in s {
      MergedIsOnePass(xs, ys);
    } else if who in m {
      assert xs + ys == xs;
    } else {
      assert xs + ys == ys;
    }
  }

  lemma MergeShareAgrees(m: Table, before: seq<Act>, share: seq<Act>)
    requires Seen(m) && AgreeTables(m, TableOf(before)) && Seen(TableOf(share))
    ensures AgreeTables(MergeTables(m, TableOf(share)), TableOf(before + share))
  {
    var s, t, u := TableOf(share), MergeTables(m, TableOf(share)), TableOf(before + share);
    forall who
      ensures who in t <==> who in u
      ensures who in t ==> Agree(t[who], u[who])
    {
      TableRow(before, who);
      TableRow(share, who);
      TableRow(before + share, who);
      OfBoth(before, share, who);
      if who in t {
        MergeRowAgrees(m, s, who, Of(before, who), Of(share, who));
      }
    }
  }

  /**
   Folding each node's records into rows and merging the rows in node order gives,
   for every caller, the calls by kind, the refused and rate-limited calls, the
   teams, the kind and the last action of one fold over all the records.
   */
  lemma {:induction false} SharesMergeToOnePass(shares: seq<seq<Act>>)
    ensures AgreeTables(MergeAll(shares), TableOf(Flat(shares)))
  {
    if |shares| > 0 {
      var n := |shares| - 1;
      SharesMergeToOnePass(shares[..n]);
      TableIsSeen(shares[n]);
      MergeShareAgrees(MergeAll(shares[..n]), Flat(shares[..n]), shares[n]);
    }
  }

  // ----- One caller's name in the merged table -----

  /** The caller's acts on each node that saw them, in node order. */
  function PartsOf(shares: seq<seq<Act>>, who: string): (parts: seq<seq<Act>>)
    ensures forall i :: 0 <= i < |parts| ==> |parts[i]| > 0
  {
    if |shares| == 0 then []
    else
      var n := |shares| - 1;
      var own := Of(shares[n], who);
      PartsOf(shares[..n], who) + if |own| > 0 then [own] else []
  }

  /** One more share, seen by one caller: parts are the caller's acts on the nodes before it, own those on this one. */
  lemma PartsOneMore(m: Table, s: Table, who: string, parts: seq<seq<Act>>, own: seq<Act>)
    requires Seen(m) && Seen(s) && forall i :: 0 <= i < |parts| ==> |parts[i]| > 0
    requires (who in m <==> |parts| > 0) && (who in m ==> m[who] == MergedRow(parts))
    requires (who in s <==> |own| > 0) && (who in s ==> s[who] == RowOf(own))
    requires who in m || who in s
    ensures var all := parts + if |own| > 0 then [own] else [];
      |all| > 0 && (forall i :: 0 <= i < |all| ==> |all[i]| > 0) && MergeRow(m, s, who) == MergedRow(all)
  {
    if |parts| > 0 && |own| > 0 {
      MergedRowNext(parts, own);
    } else if |parts| > 0 {
      assert parts + [] == parts;
    } else {
      FoldsOfOne(own);
      assert parts + [own] == [own];
    }
  }

  /** The merged table's row for a caller is that caller's own rows, merged in node order. */
  lemma {:induction false} MergedTableRow(shares: seq<seq<Act>>, who: string)
    ensures who in MergeAll(shares) <==> |PartsOf(shares, who)| > 0
    ensures who in MergeAll(shares) ==> MergeAll(shares)[who] == MergedRow(PartsOf(shares, who))
  {
    if |shares| > 0 {
      var n := |shares| - 1;
      MergedTableRow(shares[..n], who);
      TableRow(shares[n], who);
      TableIsSeen(shares[n]);
      if who in MergeAll(shares[..n]) || who in TableOf(shares[n]) {
        PartsOneMore(MergeAll(shares[..n]), TableOf(shares[n]), who, PartsOf(shares[..n], who), Of(shares[n], who));
      }
    }
  }

  lemma {:induction false} PartsAreAllActs(shares: seq<seq<Act>>, who: string)
    ensures var parts := PartsOf(shares, who);
      Of(Flat(shares), who) == if |parts| > 0 then AllActs(parts) else []
  {
    if |shares| > 0 {
      var n := |shares| - 1;
      var parts, own := PartsOf(shares[..n], who), Of(shares[n], who);
      PartsAreAllActs(shares[..n], who);
      OfBoth(Flat(shares[..n]), shares[n], who);
      if |parts| > 0 && |own| > 0 {
        MergedRowNext(parts, own);
      } else if |own| > 0 {
        FoldsOfOne(own);
        assert parts + [own] == [own];
      } else {
        assert parts + [] == parts && Of(Flat(shares[..n]), who) + [] == Of(Flat(shares[..n]), who);
      }
    }
  }

  /**
   A caller's name in the review's merged table is the one-pass name if and only if
   the first and the last of the nodes naming them at the latest instant name them alike.
   */
  lemma TableNamesAgreeExactly(shares: seq<seq<Act>>, who: string) returns (first: nat, last: nat)
    requires who in MergeAll(shares)
    ensures var tags := Tags(PartsOf(shares, who));
      && first < |tags| && FirstLatest(tags, first) && MergeAll(shares)[who].name == tags[first].name
      && last < |tags| && LastLatest(tags, last)
      && who in TableOf(Flat(shares)) && TableOf(Flat(shares))[who].name == tags[last].name
      && (MergeAll(shares)[who].name == TableOf(Flat(shares))[who].name <==> tags[first].name == tags[last].name)
  {
    MergedTableRow(shares, who);
    PartsAreAllActs(shares, who);
    TableRow(Flat(shares), who);
    first, last := NamesAgreeExactly(PartsOf(shares, who));
  }

  // ----- Calls are conserved -----

  function KindTally(t: Table, kind: string): Tally {
    map who | who in t :: Get(t[who].calls, kind)
  }

  /** The calls of one kind over all the rows of a table. */
  ghost function KindTotal(t: Table, kind: string): int {
    Sum(KindTally(t, kind))
  }

  function CallsOf(a: Act, kind: string): int {
    if a.callKind == kind then a.calls else 0
  }

  /** The calls of one kind the records stand for. */
  function ActTotal(acts: seq<Act>, kind: string): int {
    if |acts| == 0 then 0 else ActTotal(acts[..|acts| - 1], kind) + CallsOf(acts[|acts| - 1], kind)
  }

  lemma ObserveCounts(t: Table, a: Act, kind: string)
    ensures KindTotal(Observe(t, a), kind) == KindTotal(t, kind) + CallsOf(a, kind)
  {
    var before := if a.who in t then t[a.who] else NewRow(a.kind);
    var after := Get(AddTo(before, a).calls, kind);
    assert after == Get(before.calls, kind) + CallsOf(a, kind);
    assert KindTally(Observe(t, a), kind) == KindTally(t, kind)[a.who := after];
    SumOfUpdate(KindTally(t, kind), a.who, after);
  }

  lemma {:induction false} TableCounts(acts: seq<Act>, kind: string)
    ensures KindTotal(TableOf(acts), kind) == ActTotal(acts, kind)
  {
    if |acts| == 0 {
      assert KindTally(map[], kind) == map[];
    } else {
      TableCounts(acts[..|acts| - 1], kind);
      ObserveCounts(TableOf(acts[..|acts| - 1]), acts[|acts| - 1], kind);
    }
  }

  /** Merging the shares loses no call and counts none twice. */
  lemma MergedCounts(shares: seq<seq<Act>>, kind: string)
    ensures KindTotal(MergeAll(shares), kind) == ActTotal(Flat(shares), kind)
  {
    SharesMergeToOnePass(shares);
    TableCounts(Flat(shares), kind);
    assert KindTally(MergeAll(shares), kind) == KindTally(TableOf(Flat(shares)), kind);
  }

  // ----- Token rows and principal rows -----

  /** The activity each listed token's row gets, and the rows left over; a token listed twice gets its activity once. */
  function TokenRows(ids: seq<string>, t: Table): (seq<Option<Row>>, Table) {
    if |ids| == 0 then ([], t)
    else
      var (rows, left) := TokenRows(ids[..|ids| - 1], t);
      var id := ids[|ids| - 1];
      if id in left then (rows + [Some(left[id])], left - {id}) else (rows + [None], left)
  }

  function RowsTotal(rows: seq<Option<Row>>, kind: string): int {
    if |rows| == 0 then 0
    else
      var last := rows[|rows| - 1];
      RowsTotal(rows[..|rows| - 1], kind) + if last.Some? then Get(last.value.calls, kind) else 0
  }

  /** Each listed token gets its own row where it is first listed, and the rows left are those of nobody listed. */
  lemma {:induction false} TokenRowsMeaning(ids: seq<string>, t: Table)
    ensures var (rows, left) := TokenRows(ids, t);
      && |rows| == |ids|
      && (forall i :: 0 <= i < |ids| ==> rows[i] == if ids[i] in t && ids[i] !in ids[..i] then Some(t[ids[i]]) else None)
      && (forall who :: who in left <==> who in t && who !in ids)
      && (forall who :: who in left ==> left[who] == t[who])
  {
    if |ids| > 0 {
      var n := |ids| - 1;
      TokenRowsMeaning(ids[..n], t);
      assert ids == ids[..n] + [ids[n]];
      assert forall i :: 0 <= i < n ==> ids[..n][..i] == ids[..i];
    }
  }

  lemma TakeOut(t: Table, id: string, kind: string)
    requires id in t
    ensures KindTotal(t, kind) == Get(t[id].calls, kind) + KindTotal(t - {id}, kind)
  {
    SumWithout(KindTally(t, kind), id);
    assert KindTally(t, kind) - {id} == KindTally(t - {id}, kind);
  }

  lemma RowsTotalOneMore(rows: seq<Option<Row>>, row: Option<Row>, kind: string)
    ensures RowsTotal(rows + [row], kind) == RowsTotal(rows, kind) + if row.Some? then Get(row.value.calls, kind) else 0
  {
  }

  lemma {:induction false} TokensConserve(ids: seq<string>, t: Table, kind: string)
    ensures var (rows, left) := TokenRows(ids, t);
      |rows| == |ids| && RowsTotal(rows, kind) + KindTotal(left, kind) == KindTotal(t, kind)
  {
    if |ids| > 0 {
      var (rows, left) := TokenRows(ids[..|ids| - 1], t);
      var id := ids[|ids| - 1];
      TokensConserve(ids[..|ids| - 1], t, kind);
      if id in left {
        TakeOut(left, id, kind);
        RowsTotalOneMore(rows, Some(left[id]), kind);
      } else {
        RowsTotalOneMore(rows, None, kind);
      }
    }
  }

  /** For any token list, the calls over the token rows and the principal rows are those in the records. */
  lemma ReportConservesCalls(shares: seq<seq<Act>>, ids: seq<string>, kind: string)
    ensures var (rows, left) := TokenRows(ids, MergeAll(shares));
      RowsTotal(rows, kind) + KindTotal(left, kind) == ActTotal(Flat(shares), kind)
  {
    TokensConserve(ids, MergeAll(shares), kind);
    MergedCounts(shares, kind);
  }
}
