/**
 What a move may leave behind at any moment, the requests for which it is safe, and
 the lemmas that follow a disk through the steps of a move.
 */
module MoveStates {
  import opened Options
  import opened FileTree
  import opened CopySteps
  import opened Disks

  /**
   A request to move src to dst. `crossMount` is the kernel's answer that the two lie
   on different mounts, `unresolved` that the folder of dst could not be resolved
   when it was looked at, though it may be there.
   */
  datatype Order = Order(src: Path, dst: Path, overwrite: bool, createParents: bool, crossMount: bool, unresolved: bool)

  // ----- Safe states -----

  ghost predicate Untouched(fs: Files, was: Files, s: Path, d: Path) {
    SameTree(fs, was, s) && SameTree(fs, was, d)
  }

  /** d holds the whole of what s held. */
  ghost predicate Placed(fs: Files, was: Files, s: Path, d: Path) {
    TreeIs(fs, d, was, s)
  }

  /** Every state recorded since the first `from` is safe. */
  ghost predicate SafeSince(history: seq<Files>, from: nat, was: Files, s: Path, d: Path) {
    forall i :: from <= i < |history| ==> Untouched(history[i], was, s, d) || Placed(history[i], was, s, d)
  }

  /** Success means d holds it all and s is gone; an error that nothing changed, or that only the original could not be removed. */
  ghost predicate Outcome(fs: Files, err: Option<Error>, was: Files, s: Path, d: Path) {
    if err.None? then Placed(fs, was, s, d) && (s != d ==> NoTree(fs, s))
    else Untouched(fs, was, s, d) || (err == Some(OriginalLeft) && Placed(fs, was, s, d))
  }

  /** Nothing that was there is gone or changed. */
  ghost predicate KeepsAll(fs: Files, was: Files) {
    forall q :: q in was ==> SameAt(fs, was, q)
  }

  ghost predicate KeepsAllSince(history: seq<Files>, from: nat, was: Files) {
    forall i :: from <= i < |history| ==> KeepsAll(history[i], was)
  }

  // ----- The requests that are not safe -----

  /** Replacing a leaf by itself, seen through two mounts: the copy takes its own source's place and is then removed. */
  ghost predicate OntoItself(was: Files, o: Order, longest: nat) {
    o.src == o.dst && o.overwrite && o.crossMount && Leaf(was, o.src) && |o.src| <= longest
  }

  /** The first k names of p lead to a folder in which the next one is missing and can be made. */
  predicate Makeable(was: Files, p: Path, k: nat, longest: nat) {
    k < |p| && k < longest && IsFolder(was, p[..k]) && p[..k + 1] !in was
  }

  /** Missing folders are to be made on the way to a destination inside src: it is not refused, and src gains them. */
  ghost predicate NewFolderInside(was: Files, o: Order, longest: nat) {
    && o.createParents && o.src in was && Within(o.dst, o.src)
    && exists k :: |o.src| <= k && Makeable(was, Parent(o.dst), k, longest)
  }

  /** A destination inside src on another mount is not seen to be there: src gains the temporary copy of itself. */
  ghost predicate CopiesItself(was: Files, o: Order, longest: nat) {
    && o.unresolved && o.crossMount && o.src in was && Within(o.dst, o.src) && IsFolder(was, Parent(o.dst))
    && |o.dst| <= longest && (o.dst in was ==> o.overwrite)
  }

  ghost predicate Sound(was: Files, o: Order, longest: nat) {
    !OntoItself(was, o, longest) && !NewFolderInside(was, o, longest) && !CopiesItself(was, o, longest)
  }

  // ----- The requests that can be met -----

  /** A copy of s may be put at d: d is free or may be replaced, by what is like it, and holds nothing. */
  ghost predicate Placeable(was: Files, s: Path, d: Path, overwrite: bool)
    requires s in was
  {
    (d in was ==> overwrite && was[s].Dir? == was[d].Dir?) && forall q :: q in was && Under(d, q) ==> q == d
  }

  /** A copy of s can be made beside d and put there. */
  ghost predicate Fitting(was: Files, s: Path, d: Path, overwrite: bool, longest: nat)
    requires s in was && |d| > 0
  {
    && IsFolder(was, Parent(d)) && |d| <= longest && !Within(d, s)
    && Placeable(was, s, d, overwrite) && Copyable(was, s, |d|, longest)
  }

  /** There is a folder for dst, or it can be made. */
  ghost predicate FolderFor(was: Files, o: Order, longest: nat)
    requires |o.dst| > 0
  {
    IsFolder(was, Parent(o.dst)) || (o.createParents && exists k :: Makeable(was, Parent(o.dst), k, longest))
  }

  /** The tree at src can go to dst: by a rename, or across mounts by a copy. */
  ghost predicate CanGo(was: Files, o: Order, longest: nat)
    requires o.src in was && |o.dst| > 0
  {
    if o.crossMount then
      !Within(o.dst, o.src) && Placeable(was, o.src, o.dst, o.overwrite) && Copyable(was, o.src, |o.dst|, longest)
    else
      CanTake(was, o.src, o.dst, o.overwrite)
  }

  ghost predicate Doable(was: Files, o: Order, longest: nat)
    requires |o.dst| > 0
  {
    && o.src in was && |o.src| <= longest && |o.dst| <= longest
    && FolderFor(was, o, longest) && CanGo(was, o, longest)
  }

  /** Whether it can depends on the two trees alone. */
  lemma SameCanGo(fs: Files, was: Files, o: Order, longest: nat)
    requires Untouched(fs, was, o.src, o.dst) && o.src in fs && |o.dst| > 0
    ensures o.src in was && (CanGo(fs, o, longest) <==> CanGo(was, o, longest))
  {
    assert SameAt(fs, was, o.src) && SameAt(fs, was, o.dst);
    forall q | Under(o.src, q) || Under(o.dst, q)
      ensures SameAt(fs, was, q)
    {
    }
  }

  /** The finished copy at t can take the place at d exactly when s could. */
  lemma TakeIsPlaceable(built: Files, was: Files, t: Path, d: Path, s: Path, overwrite: bool)
    requires SameOutside(built, was, t) && TreeIs(built, t, was, s) && s in was && !Under(t, d) && !Under(d, t)
    ensures t in built && (CanTake(built, t, d, overwrite) <==> Placeable(was, s, d, overwrite))
  {
    assert CopyAt(built, t, t, was, s) && Rebase(t, t, s) == s;
    assert SameAt(built, was, d);
    SameOutsideIsSameTree(built, was, t, d);
    forall q | Under(d, q)
      ensures SameAt(built, was, q)
    {
    }
  }

  /** A leaf can always be put in its own place. */
  lemma LeafFits(was: Files, s: Path, longest: nat)
    requires Leaf(was, s) && 0 < |s| <= longest && IsFolder(was, Parent(s))
    ensures Fitting(was, s, s, true, longest)
  {
    forall q | q in was && Under(s, q)
      ensures q == s
    {
      assert !Within(q, s);
    }
  }

  // ----- New folders -----

  ghost predicate SameOrNew(fs: Files, was: Files, p: Path, q: Path, longest: nat) {
    SameAt(fs, was, q) || (Under(q, p) && q !in was && IsFolder(fs, q) && 0 < |q| <= longest)
  }

  /** Nothing but missing folders on the way to p has been added, and the disk is still well formed. */
  ghost predicate NewFolders(fs: Files, was: Files, p: Path, longest: nat) {
    WellFormed(fs) && forall q :: SameOrNew(fs, was, p, q, longest)
  }

  ghost predicate OnlyFolders(history: seq<Files>, from: nat, was: Files, p: Path, longest: nat) {
    forall i :: from <= i < |history| ==> NewFolders(history[i], was, p, longest)
  }

  lemma OneMoreFolder(fs: Files, mid: Files, was: Files, p: Path, i: nat, node: Node, longest: nat)
    requires NewFolders(mid, was, p, longest) && i <= |p| && CanCreate(mid, p[..i], longest) && node.Dir?
    requires fs == mid[p[..i] := node]
    ensures NewFolders(fs, was, p, longest)
  {
    CreateKeepsShape(mid, p[..i], node);
    forall q
      ensures SameOrNew(fs, was, p, q, longest)
    {
      assert SameOrNew(mid, was, p, q, longest);
    }
  }

  /** A new folder begins with one that could be made, below every old entry on the way. */
  lemma {:induction false} FirstMade(fs: Files, was: Files, p: Path, q: Path, longest: nat) returns (k: nat)
    requires NewFolders(fs, was, p, longest) && q in fs && q !in was
    ensures k < |q| && Makeable(was, p, k, longest) && p[..k + 1] in fs
    decreases |q|
  {
    assert SameOrNew(fs, was, p, q, longest) && SameOrNew(fs, was, p, Parent(q), longest);
    NextPrefix(p, q);
    if Parent(q) in was {
      k := |q| - 1;
    } else {
      k := FirstMade(fs, was, p, Parent(q), longest);
    }
  }

  lemma NextPrefix(p: Path, q: Path)
    requires |q| > 0 && Under(q, p)
    ensures q == p[..|q|] && Parent(q) == p[..|q| - 1]
  {
  }

  lemma FirstMadeIsInside(was: Files, p: Path, k: nat, s: Path, longest: nat)
    requires WellFormed(was) && Makeable(was, p, k, longest) && s in was && Under(s, p)
    ensures |s| <= k
  {
    if |s| > k {
      PrefixOfPrefix(was, p, k + 1, s);
    }
  }

  lemma PrefixOfPrefix(was: Files, p: Path, k: nat, s: Path)
    requires WellFormed(was) && s in was && Under(s, p) && k <= |s|
    ensures p[..k] in was
  {
    PrefixIn(was, s, k);
    assert s[..k] == p[..k];
  }

  /** When none can be made inside src, src and dst are left alone. */
  lemma FoldersLeave(fs: Files, was: Files, s: Path, d: Path, longest: nat)
    requires WellFormed(was) && |d| > 0 && NewFolders(fs, was, Parent(d), longest) && s in was
    requires Within(d, s) ==> !(exists k :: |s| <= k && Makeable(was, Parent(d), k, longest))
    ensures Untouched(fs, was, s, d)
  {
    forall q | Under(s, q) || Under(d, q)
      ensures SameAt(fs, was, q)
    {
      assert SameOrNew(fs, was, Parent(d), q, longest);
      if !SameAt(fs, was, q) {
        NewFolderIsElsewhere(fs, was, s, d, q, longest);
      }
    }
  }

  lemma NewFolderIsElsewhere(fs: Files, was: Files, s: Path, d: Path, q: Path, longest: nat)
    requires WellFormed(was) && |d| > 0 && NewFolders(fs, was, Parent(d), longest) && s in was
    requires Within(d, s) ==> !(exists k :: |s| <= k && Makeable(was, Parent(d), k, longest))
    requires q in fs && q !in was
    ensures !Under(s, q) && !Under(d, q)
  {
    assert SameOrNew(fs, was, Parent(d), q, longest);
    var k := FirstMade(fs, was, Parent(d), q, longest);
    if Under(s, q) {
      UnderParent(s, q, d);
      FirstMadeIsInside(was, Parent(d), k, s, longest);
    }
  }

  lemma UnderParent(s: Path, q: Path, d: Path)
    requires |d| > 0 && Under(s, q) && Under(q, Parent(d))
    ensures Under(s, Parent(d)) && Within(d, s)
  {
    assert s == q[..|s|] && q == Parent(d)[..|q|] && Parent(d)[..|q|] == d[..|q|];
  }

  lemma WithinParent(d: Path, s: Path)
    requires Within(d, s)
    ensures |d| > 0 && Under(s, Parent(d))
  {
    assert s == d[..|s|];
  }

  lemma FolderStates(history: seq<Files>, from: nat, fs: Files, was: Files, s: Path, d: Path, longest: nat)
    requires WellFormed(was) && |d| > 0 && s in was
    requires Within(d, s) ==> !(exists k :: |s| <= k && Makeable(was, Parent(d), k, longest))
    requires OnlyFolders(history, from, was, Parent(d), longest) && NewFolders(fs, was, Parent(d), longest)
    ensures SafeSince(history, from, was, s, d) && Untouched(fs, was, s, d)
  {
    forall i | from <= i < |history|
      ensures Untouched(history[i], was, s, d)
    {
      FoldersLeave(history[i], was, s, d, longest);
    }
    FoldersLeave(fs, was, s, d, longest);
  }

  lemma SameEverywhere(fs: Files, was: Files)
    requires forall q :: SameAt(fs, was, q)
    ensures fs == was
  {
    forall q
      ensures (q in fs <==> q in was) && (q in fs ==> fs[q] == was[q])
    {
      assert SameAt(fs, was, q);
    }
  }

  /** With the folder there, none is new. */
  lemma NoNewFolders(fs: Files, was: Files, p: Path, longest: nat)
    requires WellFormed(was) && NewFolders(fs, was, p, longest) && p in was
    ensures fs == was
  {
    forall q
      ensures SameAt(fs, was, q)
    {
      assert SameOrNew(fs, was, p, q, longest);
      if Under(q, p) {
        AboveIn(was, p, q);
      }
    }
    SameEverywhere(fs, was);
  }

  lemma FoldersKeepAll(history: seq<Files>, from: nat, fs: Files, was: Files, p: Path, longest: nat)
    requires OnlyFolders(history, from, was, p, longest) && NewFolders(fs, was, p, longest)
    ensures KeepsAllSince(history, from, was) && KeepsAll(fs, was)
  {
    forall i, q | from <= i < |history| && q in was
      ensures SameAt(history[i], was, q)
    {
      assert NewFolders(history[i], was, p, longest) && SameOrNew(history[i], was, p, q, longest);
    }
    forall q | q in was
      ensures SameAt(fs, was, q)
    {
      assert SameOrNew(fs, was, p, q, longest);
    }
  }

  lemma OutsideKeepsAll(history: seq<Files>, from: nat, fs: Files, mid: Files, was: Files, t: Path)
    requires OnlyInside(history, from, mid, t) && SameOutside(fs, mid, t) && KeepsAll(mid, was) && NoTree(was, t)
    ensures KeepsAllSince(history, from, was) && KeepsAll(fs, was)
  {
    forall i, q | from <= i < |history| && q in was
      ensures SameAt(history[i], was, q)
    {
      assert SameAt(history[i], mid, q) && SameAt(mid, was, q);
    }
    forall q | q in was
      ensures SameAt(fs, was, q)
    {
      assert SameAt(fs, mid, q) && SameAt(mid, was, q);
    }
  }

  // ----- Following the disk -----

  lemma StaysUntouched(h: Files, fs: Files, was: Files, t: Path, d: Path, s: Path)
    requires SameOutside(h, fs, t) && Untouched(fs, was, s, d)
    requires !Under(t, s) && !Under(s, t) && !Under(t, d) && !Under(d, t)
    ensures Untouched(h, was, s, d)
  {
    SameOutsideIsSameTree(h, fs, t, s);
    SameOutsideIsSameTree(h, fs, t, d);
    forall q | Under(s, q) || Under(d, q)
      ensures SameAt(h, was, q)
    {
      assert SameAt(h, fs, q) && SameAt(fs, was, q);
    }
  }

  lemma StaysTree(h: Files, d: Path, fs: Files, was: Files, s: Path)
    requires TreeIs(h, d, fs, s) && SameTree(fs, was, s)
    ensures TreeIs(h, d, was, s)
  {
    forall q | Under(d, q)
      ensures CopyAt(h, d, q, was, s)
    {
      RebaseBack(q, d, s);
      assert CopyAt(h, d, q, fs, s) && SameAt(fs, was, Rebase(q, d, s));
    }
  }

  lemma CopyState(h: Files, fs: Files, was: Files, t: Path, d: Path, s: Path)
    requires NotYetOrWhole(h, fs, t, d, s) && Untouched(fs, was, s, d)
    requires !Under(t, s) && !Under(s, t) && !Under(t, d) && !Under(d, t)
    ensures Untouched(h, was, s, d) || Placed(h, was, s, d)
  {
    if SameOutside(h, fs, t) {
      StaysUntouched(h, fs, was, t, d, s);
    } else {
      StaysTree(h, d, fs, was, s);
    }
  }

  lemma CopyStates(history: seq<Files>, from: nat, fs: Files, was: Files, t: Path, d: Path, s: Path)
    requires NotYetOrWholeSince(history, from, fs, t, d, s)
    requires Untouched(fs, was, s, d) && !Under(t, s) && !Under(s, t) && !Under(t, d) && !Under(d, t)
    ensures SafeSince(history, from, was, s, d)
  {
    forall i | from <= i < |history|
      ensures Untouched(history[i], was, s, d) || Placed(history[i], was, s, d)
    {
      CopyState(history[i], fs, was, t, d, s);
    }
  }

  lemma StaysPlaced(h: Files, mid: Files, was: Files, s: Path, d: Path)
    requires SameOutside(h, mid, s) && Placed(mid, was, s, d) && !Under(s, d) && !Under(d, s)
    ensures Placed(h, was, s, d)
  {
    SameOutsideIsSameTree(h, mid, s, d);
    forall q | Under(d, q)
      ensures CopyAt(h, d, q, was, s)
    {
      assert SameAt(h, mid, q) && CopyAt(mid, d, q, was, s);
    }
  }

  lemma RemovalStates(history: seq<Files>, from: nat, fs: Files, mid: Files, was: Files, s: Path, d: Path)
    requires OnlyInside(history, from, mid, s) && SameOutside(fs, mid, s) && Placed(mid, was, s, d)
    requires !Under(s, d) && !Under(d, s)
    ensures SafeSince(history, from, was, s, d) && Placed(fs, was, s, d)
  {
    forall i | from <= i < |history|
      ensures Placed(history[i], was, s, d)
    {
      StaysPlaced(history[i], mid, was, s, d);
    }
    StaysPlaced(fs, mid, was, s, d);
  }

  lemma RenameState(fs: Files, was: Files, s: Path, d: Path)
    requires Untouched(fs, was, s, d) && (s != d ==> !Under(s, d) && !Under(d, s))
    ensures var after := if s == d then fs else Moved(fs, s, d); Placed(after, was, s, d) && (s != d ==> NoTree(after, s))
  {
    if s == d {
      forall q | Under(d, q)
        ensures CopyAt(fs, d, q, was, s)
      {
        assert Rebase(q, d, s) == q;
        assert SameAt(fs, was, q);
      }
    } else {
      MovedIsTree(fs, s, d);
      MovedAway(fs, s, d);
      StaysTree(Moved(fs, s, d), d, fs, was, s);
    }
  }

  // ----- The unsafe requests break the promise -----

  /** A tree cannot be whole inside itself. */
  lemma NeverInsideItself(h: Files, was: Files, t: Path, s: Path, d: Path)
    requires s in was && Within(d, s) && SameOutside(h, was, t) && !Under(t, d) && !Under(d, t)
    ensures !Placed(h, was, s, d)
  {
    if Placed(h, was, s, d) {
      var q := Deepest(was, s);
      PlacedDeeper(h, was, t, s, d, q);
    }
  }

  lemma PlacedDeeper(h: Files, was: Files, t: Path, s: Path, d: Path, q: Path)
    requires Within(d, s) && SameOutside(h, was, t) && !Under(t, d) && !Under(d, t)
    requires Placed(h, was, s, d) && q in was && Under(s, q)
    ensures exists o :: o in was && Under(s, o) && |o| > |q|
  {
    var o := Rebase(q, s, d);
    RebaseBack(q, s, d);
    assert CopyAt(h, d, o, was, s);
    SameOutsideIsSameTree(h, was, t, d);
    assert SameAt(h, was, o);
    assert o in was && |o| > |q|;
    assert Under(s, o) by {
      assert s == d[..|s|] && d == o[..|d|];
    }
  }

  lemma CopyShows(h: Files, was: Files, t: Path, s: Path, d: Path)
    requires s in was && Within(d, s) && SameOutside(h, was, t) && !Under(t, d) && !Under(d, t)
    requires t in h && t !in was && Under(s, t)
    ensures !Untouched(h, was, s, d) && !Placed(h, was, s, d)
  {
    NeverInsideItself(h, was, t, s, d);
    assert !SameAt(h, was, t);
  }

  lemma FolderShows(fs: Files, was: Files, s: Path, q: Path)
    requires Under(s, q) && q in fs && q !in was
    ensures !SameTree(fs, was, s)
  {
    assert !SameAt(fs, was, q);
  }
}
