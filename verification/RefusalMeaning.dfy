/**
 What the refusal rows say: which sources have a row of their own, and what each row
 holds of the records, per node and again when the nodes' shares are merged.
 */
module RefusalMeaning {
  import opened Options
  import opened AuditRecords
  import opened Collections
  import opened Tallies
  import opened Refusals
  import opened ReviewMeaning

  // ----- Which sources have a row -----

  /** The different names, in the order they first appear. */
  function Appearing(names: seq<string>): seq<string> {
    if |names| == 0 then []
    else
      var n := |names| - 1;
      var before := Appearing(names[..n]);
      if names[n] in before then before else before + [names[n]]
  }

  /** The first 1000 of them. */
  function Kept(names: seq<string>): seq<string> {
    var all := Appearing(names);
    if |all| <= MAX_SOURCES then all else all[..MAX_SOURCES]
  }

  /** The row a name's items belong to: its own if it is one of those kept, and the folded row otherwise. */
  function RowIn(kept: seq<string>, name: string): string {
    if name in kept then name else OTHER_SOURCES
  }

  function RowFor(names: seq<string>, name: string): string {
    RowIn(Kept(names), name)
  }

  ghost predicate KeysAre(t: Table, names: seq<string>) {
    forall key :: key in t <==> exists i :: 0 <= i < |names| && RowFor(names, names[i]) == key
  }

  lemma {:induction false} AppearingIsUnique(names: seq<string>)
    ensures Unique(Appearing(names)) && forall name :: name in Appearing(names) <==> name in names
  {
    if |names| > 0 {
      var n := |names| - 1;
      AppearingIsUnique(names[..n]);
      assert names == names[..n] + [names[n]];
    }
  }

  lemma AppearingMore(names: seq<string>, name: string)
    ensures Appearing(names + [name]) == if name in Appearing(names) then Appearing(names) else Appearing(names) + [name]
  {
    assert (names + [name])[..|names|] == names;
  }

  /** One more name: a new one is kept while there is room, and nothing changes for the others. */
  lemma KeptMore(names: seq<string>, name: string)
    ensures Kept(names + [name]) ==
      if name !in names && |Appearing(names)| < MAX_SOURCES then Kept(names) + [name] else Kept(names)
  {
    AppearingMore(names, name);
    AppearingIsUnique(names);
  }

  lemma RowForStays(names: seq<string>, name: string, other: string)
    requires other in names
    ensures RowFor(names + [name], other) == RowFor(names, other)
  {
    KeptMore(names, name);
  }

  lemma {:induction false} UniqueSize<T>(s: seq<T>, all: set<T>)
    requires Unique(s) && forall x :: x in all <==> x in s
    ensures |all| == |s|
    decreases |s|
  {
    if |s| == 0 {
      assert all == {};
    } else {
      var n := |s| - 1;
      assert s == s[..n] + [s[n]] && s[n] !in s[..n];
      UniqueSize(s[..n], all - {s[n]});
    }
  }

  lemma KeptIsListed(names: seq<string>)
    ensures Unique(Kept(names)) && (forall name :: name in Kept(names) ==> name in names)
    ensures |Appearing(names)| <= MAX_SOURCES ==> forall name :: name in names ==> name in Kept(names)
    ensures |Kept(names)| == if |Appearing(names)| < MAX_SOURCES then |Appearing(names)| else MAX_SOURCES
  {
    AppearingIsUnique(names);
  }

  lemma KeptHasRow(t: Table, names: seq<string>, name: string)
    requires KeysAre(t, names) && name in Kept(names)
    ensures name in t
  {
    KeptIsListed(names);
    var i :| 0 <= i < |names| && names[i] == name;
    assert RowFor(names, names[i]) == name;
  }

  /** A row is a kept name's or the folded one. */
  lemma RowIsKept(t: Table, names: seq<string>, key: string)
    requires KeysAre(t, names) && key in t
    ensures key in Kept(names) || key == OTHER_SOURCES
  {
  }

  lemma TableSize(t: Table, names: seq<string>)
    requires KeysAre(t, names)
    ensures |t| >= MAX_SOURCES <==> |Appearing(names)| >= MAX_SOURCES
  {
    KeptIsListed(names);
    var kept := set name | name in Kept(names);
    UniqueSize(Kept(names), kept);
    forall name | name in kept
      ensures name in t
    {
      KeptHasRow(t, names, name);
    }
    SubsetSize(kept, t.Keys);
    if |Appearing(names)| < MAX_SOURCES {
      forall key | key in t
        ensures key in kept
      {
        var i :| 0 <= i < |names| && RowFor(names, names[i]) == key;
        assert names[i] in names;
      }
      SubsetSize(t.Keys, kept);
    }
  }

  /** The row refusalFor picks is the one the name belongs to. */
  lemma RowKeyIs(t: Table, names: seq<string>, source: string)
    requires KeysAre(t, names)
    ensures RowKey(t, source) == RowFor(names + [OrUnknown(source)], OrUnknown(source))
  {
    var own := OrUnknown(source);
    KeptMore(names, own);
    TableSize(t, names);
    KeptIsListed(names);
    AppearingIsUnique(names);
    if own in Kept(names) {
      KeptHasRow(t, names, own);
    } else if own in t {
      RowIsKept(t, names, own);
    }
  }

  lemma KeysMore(t: Table, names: seq<string>, name: string, row: Refusal)
    requires KeysAre(t, names)
    ensures KeysAre(t[RowFor(names + [name], name) := row], names + [name])
  {
    var more, key := names + [name], RowFor(names + [name], name);
    assert more[|names|] == name;
    forall i | 0 <= i < |names|
      ensures RowFor(more, more[i]) == RowFor(names, names[i])
    {
      RowForStays(names, name, names[i]);
    }
    forall k | k in t
      ensures exists i :: 0 <= i < |more| && RowFor(more, more[i]) == k
    {
      var i :| 0 <= i < |names| && RowFor(names, names[i]) == k;
      assert RowFor(more, more[i]) == k;
    }
  }

  // ----- What a row holds -----

  /** Something that goes to the row of a name. */
  datatype Item<T> = Item(name: string, value: T)

  function NamesOf<T>(items: seq<Item<T>>): (names: seq<string>)
    ensures |names| == |items| && forall i :: 0 <= i < |names| ==> names[i] == items[i].name
  {
    seq(|items|, i requires 0 <= i < |items| => items[i].name)
  }

  /** What goes to one row. */
  function ForRow<T>(items: seq<Item<T>>, kept: seq<string>, key: string): seq<T> {
    if |items| == 0 then []
    else
      var n := |items| - 1;
      ForRow(items[..n], kept, key) + if RowIn(kept, items[n].name) == key then [items[n].value] else []
  }

  lemma {:induction false} ForRowStays<T>(items: seq<Item<T>>, kept: seq<string>, name: string, key: string)
    requires forall i :: 0 <= i < |items| ==> items[i].name != name
    ensures ForRow(items, kept + [name], key) == ForRow(items, kept, key)
  {
    if |items| > 0 {
      ForRowStays(items[..|items| - 1], kept, name, key);
    }
  }

  lemma ForRowNext<T>(items: seq<Item<T>>, e: Item<T>, kept: seq<string>, key: string)
    ensures ForRow(items + [e], kept, key) == ForRow(items, kept, key) + if RowIn(kept, e.name) == key then [e.value] else []
  {
    assert (items + [e])[..|items|] == items;
  }

  lemma NamesMore<T>(items: seq<Item<T>>, e: Item<T>)
    ensures NamesOf(items + [e]) == NamesOf(items) + [e.name]
  {
  }

  /** One more entry goes to its own row, and those before it stay where they were. */
  lemma ForRowMore<T>(items: seq<Item<T>>, e: Item<T>, key: string)
    ensures var kept := Kept(NamesOf(items + [e]));
      ForRow(items + [e], kept, key) ==
        ForRow(items, Kept(NamesOf(items)), key) + if RowIn(kept, e.name) == key then [e.value] else []
  {
    var names := NamesOf(items);
    var kept, more := Kept(names), Kept(NamesOf(items + [e]));
    NamesMore(items, e);
    KeptMore(names, e.name);
    ForRowNext(items, e, more, key);
    if more != kept {
      assert forall i :: 0 <= i < |items| ==> names[i] == items[i].name;
      ForRowStays(items, kept, e.name, key);
    }
  }

  lemma {:induction false} NoneForRow<T>(items: seq<Item<T>>, kept: seq<string>, key: string)
    requires forall i :: 0 <= i < |items| ==> RowIn(kept, items[i].name) != key
    ensures ForRow(items, kept, key) == []
  {
    if |items| > 0 {
      NoneForRow(items[..|items| - 1], kept, key);
    }
  }

  lemma NoRowYet<T>(t: Table, items: seq<Item<T>>, key: string)
    requires KeysAre(t, NamesOf(items)) && key !in t
    ensures ForRow(items, Kept(NamesOf(items)), key) == []
  {
    var names := NamesOf(items);
    forall i | 0 <= i < |items|
      ensures RowIn(Kept(names), items[i].name) != key
    {
      assert RowFor(names, names[i]) != key;
    }
    NoneForRow(items, Kept(names), key);
  }

  function ItemsOf(denials: seq<Denial>): (items: seq<Item<Denial>>)
    ensures |items| == |denials|
  {
    seq(|denials|, i requires 0 <= i < |denials| => Item(OrUnknown(denials[i].source), denials[i]))
  }

  /** A row that has counted these. */
  function RefusalOf(denials: seq<Denial>): Refusal {
    if |denials| == 0 then NEW_ROW else Count(RefusalOf(denials[..|denials| - 1]), denials[|denials| - 1])
  }

  ghost predicate RowSays(t: Table, items: seq<Item<Denial>>, key: string)
    requires key in t
  {
    t[key] == RefusalOf(ForRow(items, Kept(NamesOf(items)), key))
  }

  ghost predicate RowsAre(t: Table, items: seq<Item<Denial>>) {
    KeysAre(t, NamesOf(items)) && forall key :: key in t ==> RowSays(t, items, key)
  }

  lemma RefusalOfMore(denials: seq<Denial>, d: Denial)
    ensures RefusalOf(denials + [d]) == Count(RefusalOf(denials), d)
  {
    assert (denials + [d])[..|denials|] == denials;
  }

  lemma RowAtSays(t: Table, items: seq<Item<Denial>>, key: string)
    requires RowsAre(t, items)
    ensures RowAt(t, key) == RefusalOf(ForRow(items, Kept(NamesOf(items)), key))
  {
    if key in t {
      assert RowSays(t, items, key);
    } else {
      NoRowYet(t, items, key);
    }
  }

  lemma PutCount(t: Table, mine: string, d: Denial, key: string, before: seq<Denial>, after: seq<Denial>)
    requires RowAt(t, key) == RefusalOf(before) && (key == mine || key in t)
    requires after == before + if mine == key then [d] else []
    ensures t[mine := Count(RowAt(t, mine), d)][key] == RefusalOf(after)
  {
    if mine == key {
      RefusalOfMore(before, d);
    } else {
      assert after == before;
    }
  }

  lemma ObserveKeepsRows(t: Table, items: seq<Item<Denial>>, d: Denial)
    requires RowsAre(t, items)
    ensures RowsAre(Observe(t, d), items + [Item(OrUnknown(d.source), d)])
  {
    var e := Item(OrUnknown(d.source), d);
    NamesMore(items, e);
    RowKeyIs(t, NamesOf(items), d.source);
    var mine := RowKey(t, d.source);
    KeysMore(t, NamesOf(items), e.name, Count(RowAt(t, mine), d));
    forall key | key in Observe(t, d)
      ensures RowSays(Observe(t, d), items + [e], key)
    {
      RowAtSays(t, items, key);
      ForRowMore(items, e, key);
      PutCount(t, mine, d, key, ForRow(items, Kept(NamesOf(items)), key), ForRow(items + [e], Kept(NamesOf(items + [e])), key));
    }
  }

  lemma ItemsMore(denials: seq<Denial>, d: Denial)
    ensures ItemsOf(denials + [d]) == ItemsOf(denials) + [Item(OrUnknown(d.source), d)]
  {
  }

  /**
   On each node the first 1000 different sources have a row of their own, the others
   the folded one, and each row has counted its own denials.
   */
  lemma {:induction false} TableRows(denials: seq<Denial>)
    ensures RowsAre(TableOf(denials), ItemsOf(denials))
  {
    if |denials| > 0 {
      var n := |denials| - 1;
      var before, d := denials[..n], denials[n];
      assert denials == before + [d];
      TableRows(before);
      ObserveKeepsRows(TableOf(before), ItemsOf(before), d);
      ItemsMore(before, d);
    }
  }

  // ----- What counting them says -----

  function ReasonTotal(denials: seq<Denial>, reason: string): int {
    if |denials| == 0 then 0
    else
      var d := denials[|denials| - 1];
      ReasonTotal(denials[..|denials| - 1], reason) + if d.reason == reason then d.count else 0
  }

  /** A row adds up its denials, in all and by reason. */
  lemma {:induction false} RefusalCounts(denials: seq<Denial>, reason: string)
    ensures RefusalOf(denials).count == DenialTotal(denials)
    ensures Get(RefusalOf(denials).reasons, reason) == ReasonTotal(denials, reason)
  {
    if |denials| > 0 {
      RefusalCounts(denials[..|denials| - 1], reason);
    }
  }

  /** Denial i is the newest since the zero time, and the last at its instant. */
  ghost predicate LastDenied(denials: seq<Denial>, i: nat) {
    && i < |denials| && denials[i].time >= ZERO_TIME
    && (forall j :: 0 <= j < |denials| ==> denials[j].time <= denials[i].time)
    && (forall j :: i < j < |denials| ==> denials[j].time < denials[i].time)
  }

  ghost predicate SeenAt(r: Refusal, denials: seq<Denial>, i: nat) {
    LastDenied(denials, i) && r.lastSeen == denials[i].time && r.lastAction == denials[i].action && r.lastNode == denials[i].node
  }

  ghost predicate NeverSeen(r: Refusal, denials: seq<Denial>) {
    r.lastSeen == ZERO_TIME && r.lastAction == "" && r.lastNode == "" && forall i :: 0 <= i < |denials| ==> denials[i].time < ZERO_TIME
  }

  lemma SeenMore(r: Refusal, denials: seq<Denial>, d: Denial, i: nat)
    requires SeenAt(r, denials, i)
    ensures SeenAt(Count(r, d), denials + [d], if d.time >= denials[i].time then |denials| else i)
  {
  }

  lemma FirstSeen(r: Refusal, denials: seq<Denial>, d: Denial)
    requires NeverSeen(r, denials)
    ensures if d.time >= ZERO_TIME then SeenAt(Count(r, d), denials + [d], |denials|) else NeverSeen(Count(r, d), denials + [d])
  {
  }

  /** A row was last seen at its newest denial, with the action and the node of the last one at that instant. */
  lemma {:induction false} RefusalLastSeen(denials: seq<Denial>) returns (i: Option<nat>)
    ensures var r := RefusalOf(denials);
      if i.Some? then SeenAt(r, denials, i.value) else NeverSeen(r, denials)
  {
    i := None;
    if |denials| > 0 {
      var n := |denials| - 1;
      var before, d := denials[..n], denials[n];
      assert denials == before + [d];
      var k := RefusalLastSeen(before);
      if k.Some? {
        SeenMore(RefusalOf(before), before, d, k.value);
        i := if d.time >= before[k.value].time then Some(n) else k;
      } else {
        FirstSeen(RefusalOf(before), before, d);
        i := if d.time >= ZERO_TIME then Some(n) else None;
      }
    }
  }

  // ----- In terms of the records -----

  function DenialsIn(log: seq<Logged>): seq<Denial> {
    if |log| == 0 then []
    else
      var n := |log| - 1;
      DenialsIn(log[..n]) + if log[n].ev.kind == KIND_AUTH_DENIED then [DenialOf(log[n].node, log[n].ev)] else []
  }

  /** The source a refusal is shown under. */
  function SourceOf(ev: Event): string {
    OrUnknown(if ev.request.Some? then Clean(ev.request.value.source) else "")
  }

  function RefusedBy(log: seq<Logged>, source: string): seq<Logged> {
    if |log| == 0 then []
    else
      var n := |log| - 1;
      RefusedBy(log[..n], source) + if log[n].ev.kind == KIND_AUTH_DENIED && SourceOf(log[n].ev) == source then [log[n]] else []
  }

  /** The refused credentials these records stand for, those with one reason. */
  function RefusedCount(log: seq<Logged>, reason: string): int {
    if |log| == 0 then 0
    else
      var ev := log[|log| - 1].ev;
      RefusedCount(log[..|log| - 1], reason) +
        if OrUnknown(Clean(ev.reason)) == reason then 1 + (if ev.dropped > 0 then ev.dropped else 0) else 0
  }

  function DenialsFrom(log: seq<Logged>): (denials: seq<Denial>)
    ensures |denials| == |log| && forall i :: 0 <= i < |log| ==> denials[i] == DenialOf(log[i].node, log[i].ev)
  {
    seq(|log|, i requires 0 <= i < |log| => DenialOf(log[i].node, log[i].ev))
  }

  lemma DenialsFromMore(log: seq<Logged>, r: Logged)
    ensures DenialsFrom(log + [r]) == DenialsFrom(log) + [DenialOf(r.node, r.ev)]
  {
  }

  lemma ForRowOfOne(denials: seq<Denial>, d: Denial, kept: seq<string>, source: string)
    requires source in kept && source != OTHER_SOURCES
    ensures ForRow(ItemsOf(denials + [d]), kept, source) ==
      ForRow(ItemsOf(denials), kept, source) + if OrUnknown(d.source) == source then [d] else []
  {
    ItemsMore(denials, d);
    ForRowNext(ItemsOf(denials), Item(OrUnknown(d.source), d), kept, source);
  }

  lemma {:induction false} ForRowIs(log: seq<Logged>, kept: seq<string>, source: string)
    requires source in kept && source != OTHER_SOURCES
    ensures ForRow(ItemsOf(DenialsIn(log)), kept, source) == DenialsFrom(RefusedBy(log, source))
  {
    if |log| > 0 {
      var n := |log| - 1;
      var denials, r := DenialsIn(log[..n]), log[n];
      ForRowIs(log[..n], kept, source);
      if r.ev.kind == KIND_AUTH_DENIED {
        ForRowOfOne(denials, DenialOf(r.node, r.ev), kept, source);
        DenialsFromMore(RefusedBy(log[..n], source), r);
      } else {
        assert denials + [] == denials && RefusedBy(log[..n], source) + [] == RefusedBy(log[..n], source);
      }
    }
  }

  lemma ReasonTotalMore(denials: seq<Denial>, d: Denial, reason: string)
    ensures ReasonTotal(denials + [d], reason) == ReasonTotal(denials, reason) + if d.reason == reason then d.count else 0
  {
    assert (denials + [d])[..|denials|] == denials;
  }

  lemma ReasonsOfOne(log: seq<Logged>, r: Logged, reason: string)
    requires ReasonTotal(DenialsFrom(log), reason) == RefusedCount(log, reason)
    ensures ReasonTotal(DenialsFrom(log + [r]), reason) == RefusedCount(log + [r], reason)
  {
    DenialsFromMore(log, r);
    ReasonTotalMore(DenialsFrom(log), DenialOf(r.node, r.ev), reason);
    assert (log + [r])[..|log|] == log;
  }

  lemma {:induction false} ReasonsOfRecords(log: seq<Logged>, reason: string)
    ensures ReasonTotal(DenialsFrom(log), reason) == RefusedCount(log, reason)
  {
    if |log| > 0 {
      var n := |log| - 1;
      ReasonsOfRecords(log[..n], reason);
      ReasonsOfOne(log[..n], log[n], reason);
      assert log[..n] + [log[n]] == log;
    }
  }

  /** Record i is the newest refusal since the zero time, and the last at its instant. */
  ghost predicate LastRefused(r: Refusal, log: seq<Logged>, i: nat) {
    && i < |log| && log[i].ev.time >= ZERO_TIME
    && (forall j :: 0 <= j < |log| ==> log[j].ev.time <= log[i].ev.time)
    && (forall j :: i < j < |log| ==> log[j].ev.time < log[i].ev.time)
    && r.lastSeen == log[i].ev.time && r.lastAction == Clean(log[i].ev.ref) && r.lastNode == log[i].node
  }

  /** The sources with a row of their own on a node with these records. */
  function OwnRows(log: seq<Logged>): seq<string> {
    Kept(NamesOf(ItemsOf(DenialsIn(log))))
  }

  lemma NodeRow(log: seq<Logged>, source: string)
    requires source in OwnRows(log) && source != OTHER_SOURCES
    ensures source in TableOf(DenialsIn(log)) && TableOf(DenialsIn(log))[source] == RefusalOf(DenialsFrom(RefusedBy(log, source)))
  {
    var denials := DenialsIn(log);
    TableRows(denials);
    KeptHasRow(TableOf(denials), NamesOf(ItemsOf(denials)), source);
    assert RowSays(TableOf(denials), ItemsOf(denials), source);
    ForRowIs(log, OwnRows(log), source);
  }

  ghost predicate NeverRefused(r: Refusal, log: seq<Logged>) {
    r.lastSeen == ZERO_TIME && forall j :: 0 <= j < |log| ==> log[j].ev.time < ZERO_TIME
  }

  lemma LastOfRecords(log: seq<Logged>) returns (i: Option<nat>)
    ensures var r := RefusalOf(DenialsFrom(log));
      if i.Some? then LastRefused(r, log, i.value) else NeverRefused(r, log)
  {
    var denials := DenialsFrom(log);
    i := RefusalLastSeen(denials);
    assert forall j :: 0 <= j < |log| ==> denials[j].time == log[j].ev.time;
  }

  /**
   A source among a node's first 1000 has a row of its own there, which counts that
   source's refusals by reason and was last seen at the newest of them.
   */
  lemma NodeRowSays(log: seq<Logged>, source: string, reason: string) returns (i: Option<nat>)
    requires source in OwnRows(log) && source != OTHER_SOURCES
    ensures var t, mine := TableOf(DenialsIn(log)), RefusedBy(log, source);
      && source in t && Get(t[source].reasons, reason) == RefusedCount(mine, reason)
      && if i.Some? then LastRefused(t[source], mine, i.value) else NeverRefused(t[source], mine)
  {
    var mine := RefusedBy(log, source);
    NodeRow(log, source);
    RefusalCounts(DenialsFrom(mine), reason);
    ReasonsOfRecords(mine, reason);
    i := LastOfRecords(mine);
  }

  // ----- The merged rows -----

  /** What a share brings to the merge, in its order: its sources, each with its row on that node. */
  ghost function BroughtBy(s: Table, order: seq<string>): (brought: seq<Item<Refusal>>)
    requires forall i :: 0 <= i < |order| ==> order[i] in s
    ensures |brought| == |order|
  {
    seq(|order|, i requires 0 <= i < |order| => Item(OrUnknown(order[i]), s[order[i]]))
  }

  ghost function AllBrought(shares: seq<seq<Denial>>): seq<Item<Refusal>> {
    if |shares| == 0 then []
    else
      var n := |shares| - 1;
      AllBrought(shares[..n]) + BroughtBy(TableOf(shares[n]), OrderOf(TableOf(shares[n])))
  }

  /** A row that has absorbed these. */
  function Absorbed(rows: seq<Refusal>): Refusal {
    if |rows| == 0 then NEW_ROW else Absorb(Absorbed(rows[..|rows| - 1]), rows[|rows| - 1])
  }

  ghost predicate MergedSays(t: Table, brought: seq<Item<Refusal>>, key: string)
    requires key in t
  {
    t[key] == Absorbed(ForRow(brought, Kept(NamesOf(brought)), key))
  }

  ghost predicate MergedAre(t: Table, brought: seq<Item<Refusal>>) {
    KeysAre(t, NamesOf(brought)) && forall key :: key in t ==> MergedSays(t, brought, key)
  }

  lemma AbsorbedMore(rows: seq<Refusal>, row: Refusal)
    ensures Absorbed(rows + [row]) == Absorb(Absorbed(rows), row)
  {
    assert (rows + [row])[..|rows|] == rows;
  }

  lemma MergedRowAt(t: Table, brought: seq<Item<Refusal>>, key: string)
    requires MergedAre(t, brought)
    ensures RowAt(t, key) == Absorbed(ForRow(brought, Kept(NamesOf(brought)), key))
  {
    if key in t {
      assert MergedSays(t, brought, key);
    } else {
      NoRowYet(t, brought, key);
    }
  }

  lemma PutAbsorbed(t: Table, mine: string, row: Refusal, key: string, before: seq<Refusal>, after: seq<Refusal>)
    requires RowAt(t, key) == Absorbed(before) && (key == mine || key in t)
    requires after == before + if mine == key then [row] else []
    ensures t[mine := Absorb(RowAt(t, mine), row)][key] == Absorbed(after)
  {
    if mine == key {
      AbsorbedMore(before, row);
    } else {
      assert after == before;
    }
  }

  lemma MergeRowKeeps(t: Table, brought: seq<Item<Refusal>>, source: string, row: Refusal)
    requires MergedAre(t, brought)
    ensures MergedAre(MergeRow(t, source, row), brought + [Item(OrUnknown(source), row)])
  {
    var e := Item(OrUnknown(source), row);
    NamesMore(brought, e);
    RowKeyIs(t, NamesOf(brought), source);
    var mine := RowKey(t, source);
    KeysMore(t, NamesOf(brought), e.name, Absorb(RowAt(t, mine), row));
    forall key | key in MergeRow(t, source, row)
      ensures MergedSays(MergeRow(t, source, row), brought + [e], key)
    {
      MergedRowAt(t, brought, key);
      ForRowMore(brought, e, key);
      PutAbsorbed(t, mine, row, key, ForRow(brought, Kept(NamesOf(brought)), key), ForRow(brought + [e], Kept(NamesOf(brought + [e])), key));
    }
  }

  lemma BroughtMore(s: Table, order: seq<string>)
    requires |order| > 0 && forall i :: 0 <= i < |order| ==> order[i] in s
    ensures var n := |order| - 1;
      BroughtBy(s, order) == BroughtBy(s, order[..n]) + [Item(OrUnknown(order[n]), s[order[n]])]
  {
  }

  lemma {:induction false} MergeInKeeps(t: Table, brought: seq<Item<Refusal>>, s: Table, order: seq<string>)
    requires MergedAre(t, brought) && forall i :: 0 <= i < |order| ==> order[i] in s
    ensures MergedAre(MergeIn(t, s, order), brought + BroughtBy(s, order))
    decreases |order|
  {
    if |order| == 0 {
      assert brought + [] == brought;
    } else {
      var n := |order| - 1;
      var last := Item(OrUnknown(order[n]), s[order[n]]);
      MergeInKeeps(t, brought, s, order[..n]);
      MergeRowKeeps(MergeIn(t, s, order[..n]), brought + BroughtBy(s, order[..n]), order[n], s[order[n]]);
      BroughtMore(s, order);
      JoinedInTurn(brought, BroughtBy(s, order[..n]), [last]);
    }
  }

  /** The same of the merged rows: of what the nodes bring, in their order, the first 1000 different sources have a row of their own. */
  lemma {:induction false} MergedRows(shares: seq<seq<Denial>>)
    ensures MergedAre(MergeAll(shares), AllBrought(shares))
  {
    if |shares| > 0 {
      var n := |shares| - 1;
      var s := TableOf(shares[n]);
      MergedRows(shares[..n]);
      MergeInKeeps(MergeAll(shares[..n]), AllBrought(shares[..n]), s, OrderOf(s));
    }
  }

  function RowTotal(rows: seq<Refusal>): int {
    if |rows| == 0 then 0 else RowTotal(rows[..|rows| - 1]) + rows[|rows| - 1].count
  }

  function RowReasons(rows: seq<Refusal>, reason: string): int {
    if |rows| == 0 then 0 else RowReasons(rows[..|rows| - 1], reason) + Get(rows[|rows| - 1].reasons, reason)
  }

  /** A merged row adds up the rows it absorbed, in all and by reason. */
  lemma {:induction false} AbsorbedCounts(rows: seq<Refusal>, reason: string)
    ensures Absorbed(rows).count == RowTotal(rows)
    ensures Get(Absorbed(rows).reasons, reason) == RowReasons(rows, reason)
  {
    if |rows| > 0 {
      AbsorbedCounts(rows[..|rows| - 1], reason);
    }
  }

  /** Row i was seen latest, past the zero time, and is the first seen then. */
  ghost predicate SeenLatest(rows: seq<Refusal>, i: nat) {
    && i < |rows| && rows[i].lastSeen > ZERO_TIME
    && (forall j :: 0 <= j < |rows| ==> rows[j].lastSeen <= rows[i].lastSeen)
    && (forall j :: 0 <= j < i ==> rows[j].lastSeen < rows[i].lastSeen)
  }

  ghost predicate LastOf(r: Refusal, rows: seq<Refusal>, i: nat) {
    SeenLatest(rows, i) && r.lastSeen == rows[i].lastSeen && r.lastAction == rows[i].lastAction && r.lastNode == rows[i].lastNode
  }

  ghost predicate LastOfNone(r: Refusal, rows: seq<Refusal>) {
    r.lastSeen == ZERO_TIME && r.lastAction == "" && r.lastNode == "" && forall i :: 0 <= i < |rows| ==> rows[i].lastSeen <= ZERO_TIME
  }

  lemma LastOfMore(r: Refusal, rows: seq<Refusal>, o: Refusal, i: nat)
    requires LastOf(r, rows, i)
    ensures LastOf(Absorb(r, o), rows + [o], if o.lastSeen > rows[i].lastSeen then |rows| else i)
  {
  }

  lemma LastOfFirst(r: Refusal, rows: seq<Refusal>, o: Refusal)
    requires LastOfNone(r, rows)
    ensures if o.lastSeen > ZERO_TIME then LastOf(Absorb(r, o), rows + [o], |rows|) else LastOfNone(Absorb(r, o), rows + [o])
  {
  }

  /** And was last seen when the latest of them was; of two nodes seen at one instant the first counts. */
  lemma {:induction false} AbsorbedLastSeen(rows: seq<Refusal>) returns (i: Option<nat>)
    ensures var r := Absorbed(rows);
      if i.Some? then LastOf(r, rows, i.value) else LastOfNone(r, rows)
  {
    i := None;
    if |rows| > 0 {
      var n := |rows| - 1;
      var before, o := rows[..n], rows[n];
      assert rows == before + [o];
      var k := AbsorbedLastSeen(before);
      if k.Some? {
        LastOfMore(Absorbed(before), before, o, k.value);
        i := if o.lastSeen > before[k.value].lastSeen then Some(n) else k;
      } else {
        LastOfFirst(Absorbed(before), before, o);
        i := if o.lastSeen > ZERO_TIME then Some(n) else None;
      }
    }
  }
}
