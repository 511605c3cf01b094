/**
 Refused credentials by source address: one row a source up to a cap, the rest
 folded into one row, per node and again when the nodes' shares are merged.
 */
module Refusals {
  import opened Options
  import opened AuditRecords
  import opened Tallies

  const MAX_SOURCES: nat := 1000
  const OTHER_SOURCES := "(other sources)"

  /** reviewRefusal; its source is the key it is kept under. */
  datatype Refusal = Refusal(count: int, reasons: Tally, lastSeen: int, lastAction: string, lastNode: string)

  type Table = map<string, Refusal>

  const NEW_ROW := Refusal(0, map[], ZERO_TIME, "", "")

  /** What an auth_denied record adds to the refusals, with every value cleaned. */
  datatype Denial = Denial(source: string, reason: string, count: int, time: int, action: string, node: string)

  function DenialOf(node: string, ev: Event): Denial {
    Denial(if ev.request.Some? then Clean(ev.request.value.source) else "", OrUnknown(Clean(ev.reason)),
           RefusalCount(ev), ev.time, Clean(ev.ref), node)
  }

  /** The row a source's refusals go to: its own, or the folded one once the table is full. */
  function RowKey(t: Table, source: string): string {
    var own := OrUnknown(source);
    if own in t || |t| < MAX_SOURCES then own else OTHER_SOURCES
  }

  function RowAt(t: Table, key: string): Refusal {
    if key in t then t[key] else NEW_ROW
  }

  /** One refused credential; a later record wins a tie for last seen. */
  function Count(r: Refusal, d: Denial): Refusal {
    var later := d.time >= r.lastSeen;
    Refusal(r.count + d.count, Bump(r.reasons, d.reason, d.count),
            if later then d.time else r.lastSeen,
            if later then d.action else r.lastAction,
            if later then d.node else r.lastNode)
  }

  function Observe(t: Table, d: Denial): Table {
    var key := RowKey(t, d.source);
    t[key := Count(RowAt(t, key), d)]
  }

  function TableOf(denials: seq<Denial>): Table {
    if |denials| == 0 then map[] else Observe(TableOf(denials[..|denials| - 1]), denials[|denials| - 1])
  }

  /** A row of another node's share; it must be later to be last seen. */
  function Absorb(r: Refusal, o: Refusal): Refusal {
    var later := o.lastSeen > r.lastSeen;
    Refusal(r.count + o.count, Combined(r.reasons, o.reasons),
            if later then o.lastSeen else r.lastSeen,
            if later then o.lastAction else r.lastAction,
            if later then o.lastNode else r.lastNode)
  }

  function MergeRow(t: Table, source: string, o: Refusal): Table {
    var key := RowKey(t, source);
    t[key := Absorb(RowAt(t, key), o)]
  }

  /** A share merged into the table, its sources taken in the order given. */
  function MergeIn(t: Table, s: Table, order: seq<string>): Table
    requires forall i :: 0 <= i < |order| ==> order[i] in s
  {
    if |order| == 0 then t
    else MergeRow(MergeIn(t, s, order[..|order| - 1]), order[|order| - 1], s[order[|order| - 1]])
  }

  lemma MergeInNext(t: Table, s: Table, order: seq<string>, i: nat)
    requires i < |order| && forall k :: 0 <= k < |order| ==> order[k] in s
    ensures MergeIn(t, s, order[..i + 1]) == MergeRow(MergeIn(t, s, order[..i]), order[i], s[order[i]])
  {
    assert order[..i + 1][..i] == order[..i];
  }

  // ----- What every step keeps -----

  /** At most 1000 rows and the folded one, and each row's count is the sum of its reasons. */
  ghost predicate Valid(t: Table) {
    && |t| <= MAX_SOURCES + 1 && (|t| == MAX_SOURCES + 1 ==> OTHER_SOURCES in t)
    && forall key :: key in t ==> t[key].count == Sum(t[key].reasons)
  }

  lemma PutKeepsValid(t: Table, source: string, row: Refusal)
    requires Valid(t) && row.count == Sum(row.reasons)
    ensures Valid(t[RowKey(t, source) := row])
  {
  }

  lemma RowAtIsSound(t: Table, key: string)
    requires Valid(t)
    ensures RowAt(t, key).count == Sum(RowAt(t, key).reasons)
  {
  }

  lemma ObserveKeepsValid(t: Table, d: Denial)
    requires Valid(t)
    ensures Valid(Observe(t, d))
  {
    var r := RowAt(t, RowKey(t, d.source));
    RowAtIsSound(t, RowKey(t, d.source));
    SumOfBump(r.reasons, d.reason, d.count);
    PutKeepsValid(t, d.source, Count(r, d));
  }

  lemma MergeRowKeepsValid(t: Table, source: string, o: Refusal)
    requires Valid(t) && o.count == Sum(o.reasons)
    ensures Valid(MergeRow(t, source, o))
  {
    var r := RowAt(t, RowKey(t, source));
    RowAtIsSound(t, RowKey(t, source));
    SumOfCombined(r.reasons, o.reasons);
    PutKeepsValid(t, source, Absorb(r, o));
  }

  lemma {:induction false} TableIsValid(denials: seq<Denial>)
    ensures Valid(TableOf(denials))
  {
    if |denials| > 0 {
      TableIsValid(denials[..|denials| - 1]);
      ObserveKeepsValid(TableOf(denials[..|denials| - 1]), denials[|denials| - 1]);
    }
  }

  lemma {:induction false} MergeInIsValid(t: Table, s: Table, order: seq<string>)
    requires Valid(t) && Valid(s) && forall i :: 0 <= i < |order| ==> order[i] in s
    ensures Valid(MergeIn(t, s, order))
  {
    if |order| > 0 {
      var n := |order| - 1;
      MergeInIsValid(t, s, order[..n]);
      MergeRowKeepsValid(MergeIn(t, s, order[..n]), order[n], s[order[n]]);
    }
  }

  // ----- Refusals are conserved -----

  function Counts(t: Table): Tally {
    map key | key in t :: t[key].count
  }

  /** The refused credentials over all the rows. */
  ghost function Total(t: Table): int {
    Sum(Counts(t))
  }

  function DenialTotal(denials: seq<Denial>): int {
    if |denials| == 0 then 0 else DenialTotal(denials[..|denials| - 1]) + denials[|denials| - 1].count
  }

  lemma PutCounts(t: Table, key: string, row: Refusal)
    ensures Total(t[key := row]) == Total(t) - RowAt(t, key).count + row.count
  {
    assert Counts(t[key := row]) == Counts(t)[key := row.count];
    SumOfUpdate(Counts(t), key, row.count);
  }

  lemma {:induction false} TableCounts(denials: seq<Denial>)
    ensures Total(TableOf(denials)) == DenialTotal(denials)
  {
    if |denials| == 0 {
      assert Counts(map[]) == map[];
    } else {
      var t, d := TableOf(denials[..|denials| - 1]), denials[|denials| - 1];
      TableCounts(denials[..|denials| - 1]);
      PutCounts(t, RowKey(t, d.source), Count(RowAt(t, RowKey(t, d.source)), d));
    }
  }

  function OrderTotal(s: Table, order: seq<string>): int
    requires forall i :: 0 <= i < |order| ==> order[i] in s
  {
    if |order| == 0 then 0 else OrderTotal(s, order[..|order| - 1]) + s[order[|order| - 1]].count
  }

  lemma {:induction false} MergeInCounts(t: Table, s: Table, order: seq<string>)
    requires forall i :: 0 <= i < |order| ==> order[i] in s
    ensures Total(MergeIn(t, s, order)) == Total(t) + OrderTotal(s, order)
  {
    if |order| > 0 {
      var n := |order| - 1;
      var m, o := MergeIn(t, s, order[..n]), s[order[n]];
      MergeInCounts(t, s, order[..n]);
      PutCounts(m, RowKey(m, order[n]), Absorb(RowAt(m, RowKey(m, order[n])), o));
    }
  }

  /** A listing of a share's sources: each once. */
  ghost predicate Lists(order: seq<string>, s: Table) {
    && (forall key :: key in order <==> key in s)
    && forall i, j :: 0 <= i < j < |order| ==> order[i] != order[j]
  }

  lemma EmptyTotal(s: Table)
    requires forall key :: key !in s
    ensures Total(s) == 0
  {
  }

  lemma TotalWithout(s: Table, key: string)
    requires key in s
    ensures Total(s) == s[key].count + Total(s - {key})
  {
    SumWithout(Counts(s), key);
    assert Counts(s) - {key} == Counts(s - {key});
  }

  lemma {:induction false} ListingTotal(s: Table, order: seq<string>)
    requires Lists(order, s)
    ensures (forall i :: 0 <= i < |order| ==> order[i] in s) && OrderTotal(s, order) == Total(s)
    decreases |order|
  {
    if |order| == 0 {
      EmptyTotal(s);
    } else {
      var n := |order| - 1;
      var last := order[n];
      assert last in order;
      ListingWithoutLast(s, order);
      ListingTotal(s - {last}, order[..n]);
      SameOrderTotal(s, s - {last}, order[..n]);
      TotalWithout(s, last);
    }
  }

  lemma ListingWithoutLast(s: Table, order: seq<string>)
    requires Lists(order, s) && |order| > 0
    ensures Lists(order[..|order| - 1], s - {order[|order| - 1]})
  {
  }

  lemma {:induction false} SameOrderTotal(s: Table, u: Table, order: seq<string>)
    requires forall i :: 0 <= i < |order| ==> order[i] in s && order[i] in u && s[order[i]] == u[order[i]]
    ensures OrderTotal(s, order) == OrderTotal(u, order)
  {
    if |order| > 0 {
      SameOrderTotal(s, u, order[..|order| - 1]);
    }
  }

  // ----- The order sources are merged in -----

  /** By source, and the row that stands for the rest after all of them. */
  predicate SourceBefore(a: string, b: string) {
    a != OTHER_SOURCES && (b == OTHER_SOURCES || Less(a, b))
  }

  lemma SourceOrder()
    ensures StrictOrder(SourceBefore)
  {
    forall a: string
      ensures !SourceBefore(a, a)
    {
      LessIsIrreflexive(a);
    }
    forall a: string, b: string, c: string | SourceBefore(a, b) && SourceBefore(b, c)
      ensures SourceBefore(a, c)
    {
      if c != OTHER_SOURCES {
        LessIsTransitive(a, b, c);
      }
    }
  }

  lemma SourcesCompare(a: string, b: string)
    requires a != b
    ensures SourceBefore(a, b) || SourceBefore(b, a)
  {
    LessIsTotal(a, b);
  }

  ghost predicate InOrder(order: seq<string>, s: Table) {
    Ascending(SourceBefore, order) && forall key :: key in order <==> key in s
  }

  /** A share's sources have one order, whatever order its map yields them in. */
  lemma OrderIsUnique(s: Table, a: seq<string>, b: seq<string>)
    requires InOrder(a, s) && InOrder(b, s)
    ensures a == b
  {
    SourceOrder();
    AscendingIsUnique(SourceBefore, a, b);
  }

  lemma InOrderLists(order: seq<string>, s: Table)
    requires InOrder(order, s)
    ensures Lists(order, s)
  {
    SourceOrder();
  }

  /** sourcesInOrder: sorted, the folded row put last. */
  method SourcesInOrder(s: Table) returns (order: seq<string>)
    ensures InOrder(order, s)
  {
    order := [];
    var left := s.Keys - {OTHER_SOURCES};
    SourceOrder();
    while left != {}
      invariant left <= s.Keys - {OTHER_SOURCES} && Ascending(SourceBefore, order)
      invariant forall key :: key in order <==> key in s && key != OTHER_SOURCES && key !in left
      decreases |left|
    {
      var key :| key in left;
      left := left - {key};
      forall other | other in order
        ensures SourceBefore(key, other) || SourceBefore(other, key)
      {
        SourcesCompare(key, other);
      }
      InsertKeepsAscending(SourceBefore, order, key);
      order := Insert(SourceBefore, order, key);
    }
    if OTHER_SOURCES in s {
      order := order + [OTHER_SOURCES];
    }
  }

  // ----- Merging shares -----

  lemma OrderExists(s: Table) returns (order: seq<string>)
    ensures InOrder(order, s)
  {
    order := OrderOfKeys(s.Keys);
  }

  lemma {:induction false} OrderOfKeys(keys: set<string>) returns (order: seq<string>)
    ensures Ascending(SourceBefore, order) && forall key :: key in order <==> key in keys
  {
    if keys == {} {
      order := [];
    } else {
      var key :| key in keys;
      var rest := OrderOfKeys(keys - {key});
      forall other | other in rest
        ensures SourceBefore(key, other) || SourceBefore(other, key)
      {
        SourcesCompare(key, other);
      }
      SourceOrder();
      InsertKeepsAscending(SourceBefore, rest, key);
      order := Insert(SourceBefore, rest, key);
    }
  }

  /** The order sourcesInOrder returns. */
  ghost function OrderOf(s: Table): (order: seq<string>)
    ensures InOrder(order, s)
  {
    assert exists order: seq<string> :: InOrder(order, s) by {
      var order := OrderExists(s);
    }
    var order :| InOrder(order, s);
    order
  }

  /** The nodes' refusals merged one share after the other. */
  ghost function MergeAll(shares: seq<seq<Denial>>): Table {
    if |shares| == 0 then map[]
    else
      var s := TableOf(shares[|shares| - 1]);
      MergeIn(MergeAll(shares[..|shares| - 1]), s, OrderOf(s))
  }

  function Flat(shares: seq<seq<Denial>>): seq<Denial> {
    if |shares| == 0 then [] else Flat(shares[..|shares| - 1]) + shares[|shares| - 1]
  }

  lemma {:induction false} TotalOfBoth(a: seq<Denial>, b: seq<Denial>)
    ensures DenialTotal(a + b) == DenialTotal(a) + DenialTotal(b)
    decreases |b|
  {
    if |b| == 0 {
      assert a + b == a;
    } else {
      TotalOfBoth(a, b[..|b| - 1]);
      assert (a + b)[..|a + b| - 1] == a + b[..|b| - 1];
    }
  }

  /**
   Through the folding of each node and the merging of the nodes, the rows sum to
   the refused credentials the records stand for, each row to its reasons, and no
   more than 1001 rows are kept.
   */
  lemma {:induction false} RefusalsAreConserved(shares: seq<seq<Denial>>)
    ensures Valid(MergeAll(shares)) && Total(MergeAll(shares)) == DenialTotal(Flat(shares))
  {
    if |shares| == 0 {
      assert Counts(map[]) == map[];
    } else {
      var n := |shares| - 1;
      var m, s := MergeAll(shares[..n]), TableOf(shares[n]);
      RefusalsAreConserved(shares[..n]);
      TableIsValid(shares[n]);
      TableCounts(shares[n]);
      InOrderLists(OrderOf(s), s);
      MergeInIsValid(m, s, OrderOf(s));
      MergeInCounts(m, s, OrderOf(s));
      ListingTotal(s, OrderOf(s));
      TotalOfBoth(Flat(shares[..n]), shares[n]);
    }
  }

  lemma MergeAllNext(shares: seq<seq<Denial>>, denials: seq<Denial>)
    ensures MergeAll(shares + [denials]) == MergeIn(MergeAll(shares), TableOf(denials), OrderOf(TableOf(denials)))
  {
  }

  // ----- The report's rows -----

  datatype Entry = Entry(source: string, row: Refusal)

  /** Most refusals first, then by source. */
  predicate EntryBefore(a: Entry, b: Entry) {
    a.row.count > b.row.count || (a.row.count == b.row.count && Less(a.source, b.source))
  }

  lemma EntryOrder()
    ensures StrictOrder(EntryBefore)
  {
    forall a: Entry
      ensures !EntryBefore(a, a)
    {
      LessIsIrreflexive(a.source);
    }
    forall a: Entry, b: Entry, c: Entry | EntryBefore(a, b) && EntryBefore(b, c)
      ensures EntryBefore(a, c)
    {
      if a.row.count == c.row.count {
        LessIsTransitive(a.source, b.source, c.source);
      }
    }
  }

  ghost predicate IsReport(rows: seq<Entry>, t: Table) {
    Ascending(EntryBefore, rows) && forall e :: e in rows <==> e.source in t && t[e.source] == e.row
  }

  /** The report's rows have one order too. */
  lemma ReportIsUnique(t: Table, a: seq<Entry>, b: seq<Entry>)
    requires IsReport(a, t) && IsReport(b, t)
    ensures a == b
  {
    EntryOrder();
    AscendingIsUnique(EntryBefore, a, b);
  }

  method ReportRows(t: Table) returns (rows: seq<Entry>)
    ensures IsReport(rows, t)
  {
    rows := [];
    var left := t.Keys;
    EntryOrder();
    while left != {}
      invariant left <= t.Keys && Ascending(EntryBefore, rows)
      invariant forall e :: e in rows <==> e.source in t && t[e.source] == e.row && e.source !in left
      decreases |left|
    {
      var source :| source in left;
      left := left - {source};
      var e := Entry(source, t[source]);
      forall other | other in rows
        ensures EntryBefore(e, other) || EntryBefore(other, e)
      {
        LessIsTotal(source, other.source);
      }
      InsertKeepsAscending(EntryBefore, rows, e);
      rows := Insert(EntryBefore, rows, e);
    }
  }
}
