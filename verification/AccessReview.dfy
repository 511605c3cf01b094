/**
 The access review's own code: a node's share folds its records as they stream
 past, the merge takes the shares in node order, and the report joins the merged
 rows with the token list.
 */
module AccessReview {
  import opened Options
  import opened AuditRecords
  import opened Tallies
  import opened ReviewPrincipals
  import ReviewMeaning
  import ReviewTables
  import RefusalMeaning
  import Refusals
  import ParallelWalk

  /** What one node's records hold, as the review counts it. */
  datatype Evidence = Evidence(acts: seq<Act>, denials: seq<Refusals.Denial>)

  function Add(e: Evidence, node: string, ev: Event): Evidence {
    if ev.kind == KIND_AUTH_DENIED then e.(denials := e.denials + [Refusals.DenialOf(node, ev)])
    else if Counted(ev) then e.(acts := e.acts + [ActOf(node, ev)])
    else e
  }

  /** The evidence in a node's records. */
  function EvidenceIn(log: seq<ReviewMeaning.Logged>): Evidence {
    if |log| == 0 then Evidence([], []) else Add(EvidenceIn(log[..|log| - 1]), log[|log| - 1].node, log[|log| - 1].ev)
  }

  /** It is what the meaning of the rows is stated of: refusals by source, other records by caller. */
  lemma {:induction false} EvidenceIs(log: seq<ReviewMeaning.Logged>)
    ensures EvidenceIn(log) == Evidence(ReviewMeaning.ActsIn(log), RefusalMeaning.DenialsIn(log))
  {
    if |log| > 0 {
      var n := |log| - 1;
      EvidenceIs(log[..n]);
      var e := EvidenceIn(log[..n]);
      assert e.acts + [] == e.acts && e.denials + [] == e.denials;
    }
  }

  lemma ObserveNext(acts: seq<Act>, a: Act)
    ensures ReviewTables.TableOf(acts + [a]) == ReviewTables.Observe(ReviewTables.TableOf(acts), a)
  {
  }

  lemma RefuseNext(denials: seq<Refusals.Denial>, d: Refusals.Denial)
    ensures Refusals.TableOf(denials + [d]) == Refusals.Observe(Refusals.TableOf(denials), d)
  {
  }

  /** The fold of one record into a caller's row, field by field. */
  method AddRecord(p: Row, a: Act) returns (r: Row)
    ensures r == AddTo(p, a)
  {
    r := p.(calls := Bump(p.calls, a.callKind, a.calls));
    if a.denied {
      r := r.(denied := r.denied + a.calls);
    }
    if a.rateLimited {
      r := r.(rateLimited := r.rateLimited + a.calls);
    }
    if a.name != "" && a.time >= r.nameAt {
      r := r.(name := a.name, nameAt := a.time);
    }
    if a.team != "" {
      r := r.(teams := r.teams + {a.team});
    }
    if r.lastSeen.None? || a.time > r.lastSeen.value {
      r := r.(lastSeen := Some(a.time), lastAction := a.action, lastNode := a.node);
    }
  }

  /** The merge of another node's row, field by field. */
  method MergeRows(p: Row, o: Row) returns (r: Row)
    requires p.lastSeen.Some? && o.lastSeen.Some?
    ensures r == Merge(p, o)
  {
    var calls := AddTally(p.calls, o.calls);
    r := p.(calls := calls, denied := p.denied + o.denied, rateLimited := p.rateLimited + o.rateLimited, teams := p.teams + o.teams);
    if o.name != "" && (r.name == "" || o.nameAt > r.nameAt) {
      r := r.(name := o.name, nameAt := o.nameAt);
    }
    if o.lastSeen.value > r.lastSeen.value {
      r := r.(lastSeen := o.lastSeen, lastAction := o.lastAction, lastNode := o.lastNode);
    }
  }

  /** The merge of another node's refusals from one source, field by field. */
  method AbsorbRow(have: Refusals.Refusal, o: Refusals.Refusal) returns (r: Refusals.Refusal)
    ensures r == Refusals.Absorb(have, o)
  {
    var reasons := AddTally(have.reasons, o.reasons);
    r := have.(count := have.count + o.count, reasons := reasons);
    if o.lastSeen > r.lastSeen {
      r := r.(lastSeen := o.lastSeen, lastAction := o.lastAction, lastNode := o.lastNode);
    }
  }

  /** reviewShare; `seen` is the evidence behind its rows. */
  class ReviewShare {
    const node: string
    var principals: ReviewTables.Table
    var refused: Refusals.Table
    var lost: int
    ghost var seen: Evidence

    ghost predicate Valid()
      reads this
    {
      principals == ReviewTables.TableOf(seen.acts) && refused == Refusals.TableOf(seen.denials)
    }

    constructor (node: string)
      ensures Valid() && this.node == node && seen == Evidence([], []) && lost == 0
    {
      this.node := node;
      principals, refused, lost := map[], map[], 0;
      seen := Evidence([], []);
    }

    method Refuse(ev: Event)
      requires Valid()
      modifies this
      ensures Valid() && lost == old(lost)
      ensures seen == old(seen).(denials := old(seen).denials + [Refusals.DenialOf(node, ev)])
    {
      var d := Refusals.DenialOf(node, ev);
      var key := Refusals.RowKey(refused, d.source);
      refused := refused[key := Refusals.Count(Refusals.RowAt(refused, key), d)];
      RefuseNext(seen.denials, d);
      seen := seen.(denials := seen.denials + [d]);
    }

    /** Every record lands in the evidence exactly as Add says, whatever came before it. */
    method Observe(ev: Event)
      requires Valid()
      modifies this
      ensures Valid() && seen == Add(old(seen), node, ev)
      ensures lost == if ev.kind == KIND_GAP then old(lost) + ev.dropped else old(lost)
    {
      if ev.kind == KIND_GAP {
        lost := lost + ev.dropped;
        return;
      }
      if ev.kind == KIND_AUTH_DENIED {
        Refuse(ev);
        return;
      }
      if !Counted(ev) {
        return;
      }
      var a := ActOf(node, ev);
      var row := AddRecord(if a.who in principals then principals[a.who] else NewRow(a.kind), a);
      principals := principals[a.who := row];
      ObserveNext(seen.acts, a);
      seen := seen.(acts := seen.acts + [a]);
    }
  }

  ghost function ActsOf(shares: seq<Evidence>): seq<seq<Act>> {
    seq(|shares|, i requires 0 <= i < |shares| => shares[i].acts)
  }

  ghost function DenialsOf(shares: seq<Evidence>): seq<seq<Refusals.Denial>> {
    seq(|shares|, i requires 0 <= i < |shares| => shares[i].denials)
  }

  lemma MergeNext(shares: seq<Evidence>, e: Evidence)
    ensures ReviewTables.Seen(ReviewTables.TableOf(e.acts))
    ensures ReviewTables.MergeAll(ActsOf(shares + [e])) ==
      ReviewTables.MergeTables(ReviewTables.MergeAll(ActsOf(shares)), ReviewTables.TableOf(e.acts))
  {
    ReviewTables.TableIsSeen(e.acts);
    ReviewTables.MergeAllNext(ActsOf(shares), e.acts);
    assert ActsOf(shares + [e]) == ActsOf(shares) + [e.acts];
  }

  lemma MergeNextRefused(shares: seq<Evidence>, e: Evidence)
    ensures var s := Refusals.TableOf(e.denials);
      Refusals.MergeAll(DenialsOf(shares + [e])) == Refusals.MergeIn(Refusals.MergeAll(DenialsOf(shares)), s, Refusals.OrderOf(s))
  {
    Refusals.MergeAllNext(DenialsOf(shares), e.denials);
    assert DenialsOf(shares + [e]) == DenialsOf(shares) + [e.denials];
  }

  /** reviewMerge; `merged` is the evidence of the shares added so far, in order. */
  class ReviewMerge {
    var principals: ReviewTables.Table
    var refused: Refusals.Table
    ghost var merged: seq<Evidence>

    ghost predicate Valid()
      reads this
    {
      principals == ReviewTables.MergeAll(ActsOf(merged)) && refused == Refusals.MergeAll(DenialsOf(merged))
    }

    constructor ()
      ensures Valid() && merged == []
    {
      principals, refused, merged := map[], map[], [];
    }

    method AddPrincipals(s: ReviewTables.Table)
      requires ReviewTables.Seen(principals) && ReviewTables.Seen(s)
      modifies this`principals
      ensures principals == ReviewTables.MergeTables(old(principals), s)
    {
      var left := s.Keys;
      ReviewTables.MergeNone(principals, s);
      while left != {}
        invariant left <= s.Keys && principals == ReviewTables.MergeTables(old(principals), s - left)
        decreases |left|
      {
        var who :| who in left;
        ReviewTables.OneLeftFewer(s, left, who);
        ReviewTables.MergeOneMore(old(principals), s - left, who, s[who]);
        left := left - {who};
        if who in principals {
          var row := MergeRows(principals[who], s[who]);
          principals := principals[who := row];
        } else {
          principals := principals[who := s[who]];
        }
      }
    }

    method AddRefused(s: Refusals.Table)
      modifies this`refused
      ensures refused == Refusals.MergeIn(old(refused), s, Refusals.OrderOf(s))
    {
      var order := Refusals.SourcesInOrder(s);
      Refusals.OrderIsUnique(s, order, Refusals.OrderOf(s));
      for i := 0 to |order|
        invariant refused == Refusals.MergeIn(old(refused), s, order[..i])
      {
        Refusals.MergeInNext(old(refused), s, order, i);
        var key := Refusals.RowKey(refused, order[i]);
        var row := AbsorbRow(Refusals.RowAt(refused, key), s[order[i]]);
        refused := refused[key := row];
      }
      assert order[..|order|] == order;
    }

    /** One node's share, in node order. */
    method AddShare(s: ReviewShare)
      requires Valid() && s.Valid()
      modifies this
      ensures Valid() && merged == old(merged) + [s.seen]
    {
      MergeNext(merged, s.seen);
      MergeNextRefused(merged, s.seen);
      AddPrincipals(s.principals);
      AddRefused(s.refused);
      merged := merged + [s.seen];
    }
  }

  /** tokenRows: each listed token takes its activity out of the rows. */
  method TakeTokenRows(ids: seq<string>, principals: ReviewTables.Table) returns (rows: seq<Option<Row>>, left: ReviewTables.Table)
    ensures (rows, left) == ReviewTables.TokenRows(ids, principals)
  {
    rows, left := [], principals;
    for i := 0 to |ids|
      invariant (rows, left) == ReviewTables.TokenRows(ids[..i], principals)
    {
      assert ids[..i + 1][..i] == ids[..i];
      if ids[i] in left {
        rows := rows + [Some(left[ids[i]])];
        left := left - {ids[i]};
      } else {
        rows := rows + [None];
      }
    }
    assert ids[..|ids|] == ids;
  }

  // ----- The whole review -----

  /**
   Whatever the schedule of the parallel walk, a review in which no node fails
   reports, for every caller, what one pass over all the nodes' records in node
   order would; its token and caller rows hold exactly the recorded calls, and its
   refusal rows exactly the refused credentials.
   */
  lemma ReviewOfAnySchedule(
    nodes: seq<Evidence>, states: seq<ParallelWalk.State<Evidence>>, events: seq<ParallelWalk.Event<Evidence>>,
    ids: seq<string>, kind: string)
    requires var outcomes := seq(|nodes|, i requires 0 <= i < |nodes| => ParallelWalk.Read(nodes[i]));
      ParallelWalk.Run(outcomes, states, events) && states[|events|].merged == |nodes|
    ensures var report := states[|events|].added;
      && report == nodes && states[|events|].firstErr.None?
      && ReviewTables.AgreeTables(ReviewTables.MergeAll(ActsOf(report)), ReviewTables.TableOf(ReviewTables.Flat(ActsOf(nodes))))
      && Refusals.Valid(Refusals.MergeAll(DenialsOf(report)))
      && Refusals.Total(Refusals.MergeAll(DenialsOf(report))) == Refusals.DenialTotal(Refusals.Flat(DenialsOf(nodes)))
      && var (rows, left) := ReviewTables.TokenRows(ids, ReviewTables.MergeAll(ActsOf(report)));
         ReviewTables.RowsTotal(rows, kind) + ReviewTables.KindTotal(left, kind) == ReviewTables.ActTotal(ReviewTables.Flat(ActsOf(nodes)), kind)
  {
    var outcomes := seq(|nodes|, i requires 0 <= i < |nodes| => ParallelWalk.Read(nodes[i]));
    ParallelWalk.EndsAsTheSimpleLoop(outcomes, states, events);
    AllRead(nodes, outcomes);
    ReviewTables.SharesMergeToOnePass(ActsOf(nodes));
    ReviewTables.ReportConservesCalls(ActsOf(nodes), ids, kind);
    Refusals.RefusalsAreConserved(DenialsOf(nodes));
  }

  lemma AllRead(nodes: seq<Evidence>, outcomes: seq<ParallelWalk.Outcome<Evidence>>)
    requires |outcomes| == |nodes| && forall i :: 0 <= i < |nodes| ==> outcomes[i] == ParallelWalk.Read(nodes[i])
    ensures ParallelWalk.Added(outcomes) == nodes && ParallelWalk.Verdict(outcomes).None?
  {
  }
}
