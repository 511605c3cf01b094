/**
 movePath and copyPath on a disk whose calls may fail: what dst and src hold at every
 moment, for which requests, and what becomes of the others.
 */
module MovePath {
  import opened Options
  import opened FileTree
  import opened CopySteps
  import opened Disks
  import opened MoveStates

  const DEFAULT_FOLDER_MODE: nat := 0x1ed

  // ----- Putting a copy in place -----

  /** A fresh name beside d is apart from everything there is, unless d lies inside s. */
  lemma BesideIsApart(fs: Files, t: Path, d: Path, s: Path)
    requires Beside(t, d) && NoTree(fs, t) && s in fs
    ensures !Under(t, s) && !Under(t, d) && !Under(d, t) && (Under(s, t) <==> Within(d, s))
  {
    assert Under(t, d) ==> t == d;
    assert Under(d, t) ==> t == d;
    if Under(s, t) {
      assert s != t && s == t[..|s|];
      assert s == Parent(d)[..|s|] && Parent(d)[..|s|] == d[..|s|];
    }
    if Within(d, s) {
      WithinParent(d, s);
      assert Under(s, t) by {
        assert s == Parent(t)[..|s|] && Parent(t)[..|s|] == t[..|s|];
      }
    }
  }

  lemma BesideApart(t: Path, d: Path)
    requires Beside(t, d)
    ensures !Under(t, d) && !Under(d, t) && |t| == |d|
  {
    assert Under(t, d) ==> t == d;
    assert Under(d, t) ==> t == d;
  }

  /** The rename that puts a finished copy in place. */
  lemma PutInPlace(built: Files, was: Files, t: Path, d: Path, s: Path)
    requires SameOutside(built, was, t) && TreeIs(built, t, was, s) && !Under(t, d) && !Under(d, t)
    ensures InPlace(Moved(built, t, d), was, t, d, s)
  {
    var fs := Moved(built, t, d);
    MovedIsTree(built, t, d);
    MovedAway(built, t, d);
    forall q | Under(d, q)
      ensures CopyAt(fs, d, q, was, s)
    {
      assert CopyAt(fs, d, q, built, t);
      RebaseBack(q, d, t);
      assert CopyAt(built, t, Rebase(q, d, t), was, s);
      assert Rebase(Rebase(q, d, t), t, s) == Rebase(q, d, s) by {
        assert Rebase(q, d, t)[|t|..] == q[|d|..];
      }
    }
    forall q | !Under(d, q) && !Under(t, q)
      ensures SameAt(fs, was, q)
    {
      MovedElsewhere(built, t, d, q);
      assert SameAt(built, was, q);
    }
  }

  /** The copy, removed again as far as possible when it fails. */
  method BuildCopy(disk: Disk, s: Path, t: Path) returns (err: Option<Error>)
    requires WellFormed(disk.nodes) && s in disk.nodes && |t| > 0 && NoTree(disk.nodes, t)
    modifies disk
    ensures old(disk.faults) <= disk.faults
    ensures old(disk.history) <= disk.history && OnlyInside(disk.history, |old(disk.history)|, old(disk.nodes), t)
    ensures SameOutside(disk.nodes, old(disk.nodes), t)
    ensures err.None? ==> TreeIs(disk.nodes, t, old(disk.nodes), s) && Copyable(old(disk.nodes), s, |t|, disk.longest)
    ensures IsFolder(old(disk.nodes), s) && Under(s, t) ==> err.Some?
    ensures !IsFolder(old(disk.nodes), Parent(t)) ==>
      err.Some? && disk.nodes == old(disk.nodes) && AllStill(disk.history, |old(disk.history)|, disk.nodes)
    ensures disk.faults == old(disk.faults) ==> CalmCopy(err, old(disk.nodes), s, t, disk.longest)
    ensures disk.faults == old(disk.faults) && CanCreate(old(disk.nodes), t, disk.longest) && IsFolder(old(disk.nodes), s) ==>
      |old(disk.history)| < |disk.history| && t in disk.history[|old(disk.history)|]
    ensures err.Some? && disk.faults == old(disk.faults) ==> NoTree(disk.nodes, t)
  {
    ghost var was := disk.nodes;
    err := disk.CopyTree(s, t);
    if err.Some? {
      ghost var mid, from := disk.nodes, |disk.history|;
      var cleaned := disk.RemoveAll(t);
      StillOutside(disk.history, from, disk.nodes, mid, was, t);
    }
  }

  /** The rename that puts the copy at t in place, or its removal; `was` is the disk before the copy. */
  method PlaceCopy(disk: Disk, t: Path, d: Path, overwrite: bool, ghost was: Files, ghost s: Path) returns (err: Option<Error>)
    requires SameOutside(disk.nodes, was, t) && TreeIs(disk.nodes, t, was, s) && s in was && Beside(t, d)
    requires disk.Fits(t, d) && IsFolder(disk.nodes, Parent(d))
    modifies disk
    ensures old(disk.faults) <= disk.faults && old(disk.history) <= disk.history
    ensures NotYetOrWholeSince(disk.history, |old(disk.history)|, was, t, d, s)
    ensures err.Some? ==> SameOutside(disk.nodes, was, t)
    ensures err.None? ==> InPlace(disk.nodes, was, t, d, s) && Placeable(was, s, d, overwrite)
    ensures disk.faults == old(disk.faults) && Placeable(was, s, d, overwrite) ==> err.None?
    ensures disk.faults == old(disk.faults) ==> NoTree(disk.nodes, t)
  {
    ghost var built := disk.nodes;
    BesideApart(t, d);
    TakeIsPlaceable(built, was, t, d, s, overwrite);
    var r := disk.Rename(t, d, overwrite, false);
    if r.Renamed? {
      PutInPlace(built, was, t, d, s);
      return None;
    }
    ghost var from := |disk.history|;
    var cleaned := disk.RemoveAll(t);
    StillOutside(disk.history, from, disk.nodes, built, was, t);
    return Some(Io);
  }

  /**
   t takes the copy, and one rename makes it d: d is as it was or whole at every
   moment, and without a folder for it nothing happens at all.
   */
  method CopyIntoPlace(disk: Disk, s: Path, d: Path, overwrite: bool, t: Path) returns (err: Option<Error>)
    requires WellFormed(disk.nodes) && s in disk.nodes && Beside(t, d) && NoTree(disk.nodes, t)
    modifies disk
    ensures old(disk.faults) <= disk.faults && old(disk.history) <= disk.history
    ensures NotYetOrWholeSince(disk.history, |old(disk.history)|, old(disk.nodes), t, d, s)
    ensures err.Some? ==> SameOutside(disk.nodes, old(disk.nodes), t)
    ensures err.None? ==> InPlace(disk.nodes, old(disk.nodes), t, d, s) && Fitting(old(disk.nodes), s, d, overwrite, disk.longest)
    ensures !IsFolder(old(disk.nodes), Parent(d)) ==>
      err.Some? && disk.nodes == old(disk.nodes) && AllStill(disk.history, |old(disk.history)|, disk.nodes)
    ensures d in old(disk.nodes) && !overwrite ==>
      err.Some? && disk.nodes == old(disk.nodes) && AllStill(disk.history, |old(disk.history)|, disk.nodes)
    ensures Within(d, s) ==> OnlyInside(disk.history, |old(disk.history)|, old(disk.nodes), t)
    ensures disk.faults == old(disk.faults) ==> CalmPlacing(disk, err, old(disk.nodes), old(disk.history), s, d, overwrite, t)
    ensures disk.faults == old(disk.faults) ==> NoTree(disk.nodes, t)
  {
    ghost var was := disk.nodes;
    var fault := disk.Fault();
    if fault || Parent(d) !in disk.nodes {
      return Some(NotFound);
    }
    if !overwrite {
      fault := disk.Fault();
      if fault || d in disk.nodes {
        return Some(if fault then Io else Exists);
      }
    }
    BesideIsApart(disk.nodes, t, d, s);
    if Within(d, s) && IsFolder(was, Parent(d)) {
      WithinParent(d, s);
      AboveIn(was, Parent(d), s);
    }
    err := BuildCopy(disk, s, t);
    if err.None? {
      assert SameAt(disk.nodes, was, Parent(d));
      err := PlaceCopy(disk, t, d, overwrite, was, s);
    }
  }

  /**
   What CopyIntoPlace does when no call fails of itself: a copy that can be made and
   put there is, and a folder is copied into itself until it cannot be.
   */
  ghost predicate CalmPlacing(
    disk: Disk, err: Option<Error>, was: Files, past: seq<Files>, s: Path, d: Path, overwrite: bool, t: Path)
    requires |t| > 0 && |d| > 0
    reads disk
  {
    && (s in was && Fitting(was, s, d, overwrite, disk.longest) ==> err.None?)
    && (Within(d, s) && IsFolder(was, Parent(d)) && |d| <= disk.longest && (d in was ==> overwrite) ==>
          && (err == Some(TooLong) || err == Some(NotCopyable))
          && |past| < |disk.history| && t in disk.history[|past|])
  }

  // ----- Moving and copying -----

  /** One folder on the way to p, made if it is missing. */
  method EnsureFolder(disk: Disk, p: Path, i: nat, ghost was: Files, ghost from: nat) returns (err: Option<Error>)
    requires i <= |p| && NewFolders(disk.nodes, was, p, disk.longest)
    requires from <= |disk.history| && OnlyFolders(disk.history, from, was, p, disk.longest)
    modifies disk
    ensures old(disk.faults) <= disk.faults
    ensures old(disk.history) <= disk.history && OnlyFolders(disk.history, from, was, p, disk.longest)
    ensures NewFolders(disk.nodes, was, p, disk.longest)
    ensures disk.nodes == old(disk.nodes) || disk.nodes == old(disk.nodes)[p[..i] := Dir(DEFAULT_FOLDER_MODE)]
    ensures err.None? ==> IsFolder(disk.nodes, p[..i])
    ensures err == Some(TooLong) ==> i > disk.longest
    ensures disk.faults == old(disk.faults) && IsFolder(old(disk.nodes), p[..i]) ==> err.None?
    ensures disk.faults == old(disk.faults) && p[..i] !in old(disk.nodes) && i > 0 && IsFolder(old(disk.nodes), p[..i - 1]) ==>
      err == if i > disk.longest then Some(TooLong) else None
  {
    if p[..i] in disk.nodes {
      return if disk.nodes[p[..i]].Dir? then None else Some(Io);
    }
    if i == 0 {
      return Some(Io);
    }
    ghost var mid := disk.nodes;
    assert Parent(p[..i]) == p[..i - 1];
    err := disk.Create(p[..i], Dir(DEFAULT_FOLDER_MODE));
    if err.None? {
      OneMoreFolder(disk.nodes, mid, was, p, i, Dir(DEFAULT_FOLDER_MODE), disk.longest);
    }
  }

  /** Only folders shorter than i have been added on the way to p. */
  ghost predicate MadeBelow(fs: Files, was: Files, p: Path, i: nat, longest: nat) {
    NewFolders(fs, was, p, longest) && forall q :: q in fs ==> q in was || |q| < i
  }

  /** On the way to p: what is there is a folder up to the first that can be made, and nothing after it. */
  lemma FolderAhead(fs: Files, was: Files, p: Path, k: nat, i: nat, longest: nat)
    requires WellFormed(was) && MadeBelow(fs, was, p, i, longest) && i <= |p|
    ensures Makeable(was, p, k, longest) ==> if i <= k then IsFolder(fs, p[..i]) else p[..i] !in fs
    ensures IsFolder(was, p) ==> IsFolder(fs, p[..i])
  {
    assert SameOrNew(fs, was, p, p[..i], longest);
    if IsFolder(was, p) {
      PrefixIn(was, p, i);
      assert p[..|p|] == p;
    }
    if Makeable(was, p, k, longest) {
      if i <= k {
        PrefixIn(was, p[..k], i);
        assert p[..k][..i] == p[..i];
      } else {
        assert p[..i][..k + 1] == p[..k + 1];
        MissingBelow(was, p[..i], k + 1);
      }
    }
  }

  lemma MissingBelow(was: Files, q: Path, k: nat)
    requires WellFormed(was) && k <= |q| && q[..k] !in was
    ensures q !in was
  {
    if q in was {
      PrefixIn(was, q, k);
    }
  }

  /** The next folder on the way to p; k is the first that can be made, if there is one. */
  method NextFolder(disk: Disk, p: Path, i: nat, ghost k: nat, ghost was: Files, ghost from: nat) returns (err: Option<Error>)
    requires WellFormed(was) && i <= |p| && MadeBelow(disk.nodes, was, p, i, disk.longest)
    requires from <= |disk.history| && OnlyFolders(disk.history, from, was, p, disk.longest)
    requires (i > 0 ==> IsFolder(disk.nodes, p[..i - 1])) && (k + 1 < i ==> p[..k + 1] in disk.nodes)
    modifies disk
    ensures old(disk.faults) <= disk.faults
    ensures old(disk.history) <= disk.history && OnlyFolders(disk.history, from, was, p, disk.longest)
    ensures MadeBelow(disk.nodes, was, p, i + 1, disk.longest)
    ensures (k + 1 < i ==> p[..k + 1] in disk.nodes) && (k + 1 == i && err.None? ==> p[..k + 1] in disk.nodes)
    ensures err.None? ==> IsFolder(disk.nodes, p[..i])
    ensures err == Some(TooLong) ==> i > disk.longest
    ensures disk.faults == old(disk.faults) && IsFolder(was, p) ==> err.None?
    ensures disk.faults == old(disk.faults) && Makeable(was, p, k, disk.longest) ==>
      err == if i > disk.longest then Some(TooLong) else None
  {
    FolderAhead(disk.nodes, was, p, k, i, disk.longest);
    err := EnsureFolder(disk, p, i, was, from);
  }

  /** The folders on the way to p up to the i-th, each after the one it lies in. */
  method MkdirUpTo(disk: Disk, p: Path, i: nat, ghost k: nat, ghost was: Files, ghost from: nat) returns (err: Option<Error>)
    requires WellFormed(was) && i <= |p| && MadeBelow(disk.nodes, was, p, 0, disk.longest)
    requires from <= |disk.history| && OnlyFolders(disk.history, from, was, p, disk.longest)
    modifies disk
    ensures old(disk.faults) <= disk.faults
    ensures old(disk.history) <= disk.history && OnlyFolders(disk.history, from, was, p, disk.longest)
    ensures MadeBelow(disk.nodes, was, p, i + 1, disk.longest)
    ensures err.None? ==> IsFolder(disk.nodes, p[..i]) && (k < i ==> p[..k + 1] in disk.nodes)
    ensures err == Some(TooLong) ==> i > disk.longest
    ensures disk.faults == old(disk.faults) && IsFolder(was, p) ==> err.None?
    ensures disk.faults == old(disk.faults) && Makeable(was, p, k, disk.longest) ==>
      (err.None? || err == Some(TooLong)) && (k < i ==> p[..k + 1] in disk.nodes)
    decreases i
  {
    if i > 0 {
      err := MkdirUpTo(disk, p, i - 1, k, was, from);
      if err.Some? {
        return;
      }
    }
    err := NextFolder(disk, p, i, k, was, from);
  }

  /** The folders on the way to p, made where they are missing; k is the first that can be, if there is one. */
  method MkdirAll(disk: Disk, p: Path, ghost k: nat) returns (err: Option<Error>)
    requires WellFormed(disk.nodes)
    modifies disk
    ensures old(disk.faults) <= disk.faults
    ensures old(disk.history) <= disk.history && OnlyFolders(disk.history, |old(disk.history)|, old(disk.nodes), p, disk.longest)
    ensures NewFolders(disk.nodes, old(disk.nodes), p, disk.longest)
    ensures err.None? ==> IsFolder(disk.nodes, p)
    ensures err == Some(TooLong) ==> |p| > disk.longest
    ensures disk.faults == old(disk.faults) && IsFolder(old(disk.nodes), p) ==> err.None?
    ensures disk.faults == old(disk.faults) && Makeable(old(disk.nodes), p, k, disk.longest) ==>
      p[..k + 1] in disk.nodes && (err.None? || err == Some(TooLong))
  {
    assert p[..|p|] == p;
    err := MkdirUpTo(disk, p, |p|, k, disk.nodes, |disk.history|);
  }

  /** Refuse a destination strictly inside the folder s; one whose own folder is not resolved is left for the move or copy to report. */
  method RefuseNesting(disk: Disk, s: Path, d: Path, unresolved: bool) returns (err: Option<Error>)
    requires |d| > 0
    modifies disk`faults
    ensures old(disk.faults) <= disk.faults
    ensures err.None? ==> Within(d, s) ==> unresolved || Parent(d) !in disk.nodes
    ensures err == Some(IntoItself) ==> Within(d, s)
    ensures disk.faults == old(disk.faults) && (unresolved || Parent(d) !in disk.nodes || !Within(d, s)) ==> err.None?
  {
    var fault := disk.Fault();
    if fault {
      return Some(Io);
    }
    if !unresolved && Parent(d) in disk.nodes && Under(s, d) && s != d {
      return Some(IntoItself);
    }
    return None;
  }

  /** What a copy needs; a folder only goes with `recursive`. */
  ghost predicate CanCopy(was: Files, s: Path, d: Path, recursive: bool, overwrite: bool, longest: nat)
    requires |d| > 0
  {
    s in was && |s| <= longest && (was[s].Dir? ==> recursive) && Fitting(was, s, d, overwrite, longest)
  }

  /** copyPath: whichever calls fail, d is as it was or holds the whole copy, and nothing but the temporary name is left behind. */
  method Copy(disk: Disk, s: Path, d: Path, recursive: bool, overwrite: bool, unresolved: bool, t: Path) returns (err: Option<Error>)
    requires WellFormed(disk.nodes) && Beside(t, d) && NoTree(disk.nodes, t)
    modifies disk
    ensures old(disk.history) <= disk.history && old(disk.faults) <= disk.faults
    ensures NotYetOrWholeSince(disk.history, |old(disk.history)|, old(disk.nodes), t, d, s)
    ensures err.Some? ==> SameOutside(disk.nodes, old(disk.nodes), t)
    ensures err.None? ==> InPlace(disk.nodes, old(disk.nodes), t, d, s)
    ensures err.None? ==> CanCopy(old(disk.nodes), s, d, recursive, overwrite, disk.longest)
    ensures disk.faults == old(disk.faults) && CanCopy(old(disk.nodes), s, d, recursive, overwrite, disk.longest) ==> err.None?
    ensures disk.faults == old(disk.faults) ==> NoTree(disk.nodes, t)
    ensures s in old(disk.nodes) && old(disk.nodes)[s].Dir? && Within(d, s) && !unresolved ==>
      err.Some? && disk.nodes == old(disk.nodes) && AllStill(disk.history, |old(disk.history)|, disk.nodes)
  {
    var fault := disk.Fault();
    if fault || s !in disk.nodes || |s| > disk.longest {
      return Some(NotFound);
    }
    if disk.nodes[s].Dir? {
      if !recursive {
        return Some(NeedsRecursive);
      }
      err := RefuseNesting(disk, s, d, unresolved);
      if err.Some? {
        return;
      }
    }
    err := CopyIntoPlace(disk, s, d, overwrite, t);
  }

  /** Across mounts, the source is removed once its copy is d. `was` is the disk before the whole move. */
  method MoveAcross(disk: Disk, s: Path, d: Path, overwrite: bool, t: Path, ghost was: Files) returns (err: Option<Error>)
    requires WellFormed(disk.nodes) && s in disk.nodes && Beside(t, d) && NoTree(disk.nodes, t)
    requires !Within(d, s) ==> Untouched(disk.nodes, was, s, d)
    modifies disk
    ensures old(disk.faults) <= disk.faults && old(disk.history) <= disk.history
    ensures !Within(d, s) && !(s == d && overwrite && Leaf(old(disk.nodes), s)) ==>
      SafeSince(disk.history, |old(disk.history)|, was, s, d) && Outcome(disk.nodes, err, was, s, d)
    ensures Within(d, s) ==>
      && err.Some? && OnlyInside(disk.history, |old(disk.history)|, old(disk.nodes), t)
      && SameOutside(disk.nodes, old(disk.nodes), t)
    ensures !IsFolder(old(disk.nodes), Parent(d)) || (d in old(disk.nodes) && !overwrite) ==>
      err.Some? && disk.nodes == old(disk.nodes) && AllStill(disk.history, |old(disk.history)|, disk.nodes)
    ensures disk.faults == old(disk.faults) ==> CalmPlacing(disk, err, old(disk.nodes), old(disk.history), s, d, overwrite, t)
    ensures err.None? ==> NoTree(disk.nodes, s) && Fitting(old(disk.nodes), s, d, overwrite, disk.longest)
    ensures disk.faults == old(disk.faults) ==> NoTree(disk.nodes, t)
  {
    ghost var fs := disk.nodes;
    BesideIsApart(disk.nodes, t, d, s);
    err := CopyIntoPlace(disk, s, d, overwrite, t);
    if !Within(d, s) {
      CopyStates(disk.history, |old(disk.history)|, fs, was, t, d, s);
    }
    if err.Some? {
      if !Within(d, s) {
        StaysUntouched(disk.nodes, fs, was, t, d, s);
      }
      return;
    }
    StaysTree(disk.nodes, d, fs, was, s);
    ghost var mid, from := disk.nodes, |disk.history|;
    var ok := disk.RemoveAll(s);
    if s != d {
      assert !Under(d, s);
      RemovalStates(disk.history, from, disk.nodes, mid, was, s, d);
    }
    return if ok then None else Some(OriginalLeft);
  }

  /** movePath once its checks and folders are done; `was` is the disk before them. */
  method RenameOrCopy(disk: Disk, o: Order, t: Path, ghost was: Files) returns (err: Option<Error>)
    requires WellFormed(disk.nodes) && o.src in disk.nodes && Beside(t, o.dst) && NoTree(disk.nodes, t)
    requires !Within(o.dst, o.src) ==> Untouched(disk.nodes, was, o.src, o.dst)
    modifies disk
    ensures old(disk.faults) <= disk.faults && old(disk.history) <= disk.history
    ensures !Within(o.dst, o.src) && !(o.src == o.dst && o.overwrite && o.crossMount && Leaf(old(disk.nodes), o.src)) ==>
      SafeSince(disk.history, |old(disk.history)|, was, o.src, o.dst) && Outcome(disk.nodes, err, was, o.src, o.dst)
    ensures Within(o.dst, o.src) ==>
      && err.Some? && OnlyInside(disk.history, |old(disk.history)|, old(disk.nodes), t)
      && SameOutside(disk.nodes, old(disk.nodes), t)
    ensures Within(o.dst, o.src) && !(o.crossMount && disk.Fits(o.src, o.dst) && Enters(old(disk.nodes), o)) ==>
      disk.nodes == old(disk.nodes) && AllStill(disk.history, |old(disk.history)|, disk.nodes)
    ensures disk.faults == old(disk.faults) && o.crossMount && disk.Fits(o.src, o.dst) ==>
      CalmMove(disk, err, old(disk.nodes), old(disk.history), o, t)
    ensures err.None? ==> CanGoNow(disk, old(disk.nodes), o)
    ensures disk.faults == old(disk.faults) && CanGoNow(disk, old(disk.nodes), o) ==> err.None?
    ensures disk.faults == old(disk.faults) ==> NoTree(disk.nodes, t)
  {
    ghost var fs := disk.nodes;
    if o.src == o.dst && o.overwrite && Leaf(fs, o.src) && IsFolder(fs, Parent(o.dst)) && |o.dst| <= disk.longest {
      LeafFits(fs, o.dst, disk.longest);
    }
    var r := disk.Rename(o.src, o.dst, o.overwrite, o.crossMount);
    if r.CrossDevice? {
      err := MoveAcross(disk, o.src, o.dst, o.overwrite, t, was);
    } else if r.Renamed? {
      RenameState(fs, was, o.src, o.dst);
      err := None;
    } else {
      err := Some(Io);
    }
  }

  /** The paths are short enough, there is a folder for dst, and src can go there. */
  ghost predicate CanGoNow(disk: Disk, fs: Files, o: Order)
    requires |o.dst| > 0 && o.src in fs
  {
    disk.Fits(o.src, o.dst) && IsFolder(fs, Parent(o.dst)) && CanGo(fs, o, disk.longest)
  }

  /** There is a folder for dst, and dst is free or may be replaced. */
  predicate Enters(was: Files, o: Order)
    requires |o.dst| > 0
  {
    IsFolder(was, Parent(o.dst)) && (o.dst in was ==> o.overwrite)
  }

  /** The tree at t is in some state recorded since the first `from`. */
  ghost predicate Appears(history: seq<Files>, from: nat, t: Path) {
    exists i :: from <= i < |history| && t in history[i]
  }

  /**
   Across mounts, when no call fails of itself: a leaf moved onto itself is gone, and a
   folder whose copy lands inside it is copied until it cannot be.
   */
  ghost predicate CalmMove(disk: Disk, err: Option<Error>, was: Files, past: seq<Files>, o: Order, t: Path)
    requires |o.dst| > 0
    reads disk
  {
    && (o.src == o.dst && o.overwrite && Leaf(was, o.src) && IsFolder(was, Parent(o.dst)) ==> err.None? && NoTree(disk.nodes, o.dst))
    && (Within(o.dst, o.src) && Enters(was, o) ==>
          (err == Some(TooLong) || err == Some(NotCopyable)) && Appears(disk.history, |past|, t))
  }

  /** The folders a move makes for dst, before src is touched. */
  method MakeFolders(disk: Disk, o: Order, t: Path) returns (err: Option<Error>)
    requires WellFormed(disk.nodes) && o.src in disk.nodes && Beside(t, o.dst) && NoTree(disk.nodes, t)
    modifies disk
    ensures old(disk.faults) <= disk.faults && old(disk.history) <= disk.history
    ensures OnlyFolders(disk.history, |old(disk.history)|, old(disk.nodes), Parent(o.dst), disk.longest)
    ensures NewFolders(disk.nodes, old(disk.nodes), Parent(o.dst), disk.longest)
    ensures !NewFolderInside(old(disk.nodes), o, disk.longest) ==>
      && SafeSince(disk.history, |old(disk.history)|, old(disk.nodes), o.src, o.dst)
      && Untouched(disk.nodes, old(disk.nodes), o.src, o.dst)
    ensures !NewFolderInside(old(disk.nodes), o, disk.longest) && Within(o.dst, o.src) ==> disk.nodes == old(disk.nodes)
    ensures Parent(o.dst) in old(disk.nodes) ==> disk.nodes == old(disk.nodes)
    ensures KeepsAllSince(disk.history, |old(disk.history)|, old(disk.nodes)) && KeepsAll(disk.nodes, old(disk.nodes))
    ensures err.None? && IsFolder(disk.nodes, Parent(o.dst)) ==> FolderFor(old(disk.nodes), o, disk.longest)
    ensures disk.faults == old(disk.faults) && FolderFor(old(disk.nodes), o, disk.longest) && |o.dst| <= disk.longest ==>
      err.None? && IsFolder(disk.nodes, Parent(o.dst))
    ensures disk.faults == old(disk.faults) && IsFolder(old(disk.nodes), Parent(o.dst)) ==> err.None?
    ensures disk.faults == old(disk.faults) && NewFolderInside(old(disk.nodes), o, disk.longest) ==>
      && MadeInside(disk.nodes, old(disk.nodes), o)
      && (|o.dst| <= disk.longest ==> err.None? && IsFolder(disk.nodes, Parent(o.dst)))
  {
    ghost var was, from := disk.nodes, |disk.history|;
    err := None;
    if o.createParents {
      ghost var k := FirstInside(was, o, disk.longest);
      err := MkdirAll(disk, Parent(o.dst), k);
    } else {
      NoneNew(was, Parent(o.dst), disk.longest);
    }
    FoldersVerdict(disk.history, from, disk.nodes, was, o, disk.longest);
    if IsFolder(disk.nodes, Parent(o.dst)) {
      FolderWasFor(disk.nodes, was, o, disk.longest);
    }
  }

  lemma FolderWasFor(fs: Files, was: Files, o: Order, longest: nat)
    requires |o.dst| > 0 && NewFolders(fs, was, Parent(o.dst), longest) && IsFolder(fs, Parent(o.dst))
    requires !o.createParents ==> fs == was
    ensures FolderFor(was, o, longest)
  {
    var p := Parent(o.dst);
    assert SameOrNew(fs, was, p, p, longest);
    if p !in was {
      var k := FirstMade(fs, was, p, p, longest);
    }
  }

  /** The first folder that can be made, inside src if there is one there. */
  lemma FirstInside(was: Files, o: Order, longest: nat) returns (k: nat)
    requires |o.dst| > 0
    ensures (exists j :: Makeable(was, Parent(o.dst), j, longest)) ==> Makeable(was, Parent(o.dst), k, longest)
    ensures NewFolderInside(was, o, longest) ==>
      && Makeable(was, Parent(o.dst), k, longest)
      && Under(o.src, Parent(o.dst)[..k + 1]) && Under(Parent(o.dst)[..k + 1], Parent(o.dst))
  {
    k := 0;
    if NewFolderInside(was, o, longest) {
      k :| |o.src| <= k && Makeable(was, Parent(o.dst), k, longest);
      WithinParent(o.dst, o.src);
      PrefixBetween(o.src, Parent(o.dst), k + 1);
    } else if j: nat :| Makeable(was, Parent(o.dst), j, longest) {
      k := j;
    }
  }

  lemma FoldersVerdict(history: seq<Files>, from: nat, fs: Files, was: Files, o: Order, longest: nat)
    requires WellFormed(was) && o.src in was && |o.dst| > 0
    requires OnlyFolders(history, from, was, Parent(o.dst), longest) && NewFolders(fs, was, Parent(o.dst), longest)
    requires !o.createParents ==> fs == was && AllStill(history, from, was)
    ensures !NewFolderInside(was, o, longest) ==> SafeSince(history, from, was, o.src, o.dst) && Untouched(fs, was, o.src, o.dst)
    ensures !NewFolderInside(was, o, longest) && Within(o.dst, o.src) ==> fs == was
    ensures Parent(o.dst) in was ==> fs == was
    ensures KeepsAllSince(history, from, was) && KeepsAll(fs, was)
  {
    if !NewFolderInside(was, o, longest) {
      if o.createParents {
        FolderStates(history, from, fs, was, o.src, o.dst, longest);
      }
      if Within(o.dst, o.src) {
        NoneMade(fs, was, o, longest);
      }
    }
    if Parent(o.dst) in was {
      NoNewFolders(fs, was, Parent(o.dst), longest);
    }
    FoldersKeepAll(history, from, fs, was, Parent(o.dst), longest);
  }

  /** With a destination inside src and nothing that can be made on the way, nothing is. */
  lemma NoneMade(fs: Files, was: Files, o: Order, longest: nat)
    requires WellFormed(was) && o.src in was && Within(o.dst, o.src) && NewFolders(fs, was, Parent(o.dst), longest)
    requires !NewFolderInside(was, o, longest) && (!o.createParents ==> fs == was)
    ensures fs == was
  {
    forall q
      ensures SameAt(fs, was, q)
    {
      assert SameOrNew(fs, was, Parent(o.dst), q, longest);
      if q in fs && q !in was {
        var k := FirstMade(fs, was, Parent(o.dst), q, longest);
        WithinParent(o.dst, o.src);
        FirstMadeIsInside(was, Parent(o.dst), k, o.src, longest);
      }
    }
    SameEverywhere(fs, was);
  }

  lemma PrefixBetween(s: Path, p: Path, k: nat)
    requires Under(s, p) && |s| <= k <= |p|
    ensures Under(s, p[..k]) && Under(p[..k], p)
  {
    assert s == p[..|s|];
  }

  lemma NoneNew(fs: Files, p: Path, longest: nat)
    requires WellFormed(fs)
    ensures NewFolders(fs, fs, p, longest)
  {
    forall q
      ensures SameOrNew(fs, fs, p, q, longest)
    {
    }
  }

  /** A folder has come to be inside src on the way to dst. */
  ghost predicate MadeInside(fs: Files, was: Files, o: Order) {
    |o.dst| > 0 && exists q :: q in fs && q !in was && Under(o.src, q) && Under(q, Parent(o.dst))
  }

  lemma FoldersAreElsewhere(fs: Files, was: Files, o: Order, t: Path, longest: nat)
    requires Beside(t, o.dst) && NewFolders(fs, was, Parent(o.dst), longest) && NoTree(was, t) && o.src in was
    ensures WellFormed(fs) && NoTree(fs, t) && o.src in fs && (o.dst in fs ==> o.dst in was)
  {
    assert SameOrNew(fs, was, Parent(o.dst), o.src, longest) && SameOrNew(fs, was, Parent(o.dst), o.dst, longest);
    forall q | q in fs
      ensures !Under(t, q)
    {
      assert SameOrNew(fs, was, Parent(o.dst), q, longest);
    }
  }

  // ----- The requests that are not sound -----

  lemma GoneIsNotPlaced(fs: Files, was: Files, s: Path, d: Path)
    requires s in was && NoTree(fs, d)
    ensures !Placed(fs, was, s, d)
  {
    assert Rebase(d, d, s) == s;
    if Placed(fs, was, s, d) {
      PlacedHasRoot(fs, was, s, d);
    }
  }

  lemma PlacedHasRoot(fs: Files, was: Files, s: Path, d: Path)
    requires s in was && Placed(fs, was, s, d)
    ensures d in fs
  {
    assert Rebase(d, d, s) == s && CopyAt(fs, d, d, was, s);
  }

  /** What is missing on the way to d keeps d from being there. */
  lemma MissingOnTheWay(was: Files, q: Path, d: Path)
    requires WellFormed(was) && q !in was && Under(q, d)
    ensures d !in was
  {
    if d in was {
      AboveIn(was, d, q);
    }
  }

  /** A path no longer than d's folder is not below a name beside d. */
  lemma NotBelowBeside(t: Path, d: Path, q: Path)
    requires Beside(t, d) && Under(q, Parent(d))
    ensures !Under(t, q) && Under(q, d)
  {
    assert q == Parent(d)[..|q|] && Parent(d)[..|q|] == d[..|q|];
  }

  /** Folders made inside src outlive the refusal, and dst is not there. */
  lemma MadeInsideBreaks(fs: Files, mid: Files, was: Files, o: Order, t: Path, err: Option<Error>)
    requires WellFormed(was) && o.src in was && Beside(t, o.dst) && !Under(t, o.dst) && err.Some?
    requires MadeInside(mid, was, o) && SameOutside(fs, mid, t) && (o.dst in mid ==> o.dst in was)
    ensures !Outcome(fs, err, was, o.src, o.dst)
  {
    var q :| q in mid && q !in was && Under(o.src, q) && Under(q, Parent(o.dst));
    NotBelowBeside(t, o.dst, q);
    MissingOnTheWay(was, q, o.dst);
    assert SameAt(fs, mid, q) && SameAt(fs, mid, o.dst);
    FolderShows(fs, was, o.src, q);
    if Placed(fs, was, o.src, o.dst) {
      PlacedHasRoot(fs, was, o.src, o.dst);
    }
  }

  /** A copy of src inside src is seen. */
  lemma CopyBreaks(history: seq<Files>, from: nat, was: Files, o: Order, t: Path)
    requires o.src in was && Within(o.dst, o.src) && Beside(t, o.dst) && NoTree(was, t)
    requires OnlyInside(history, from, was, t) && Appears(history, from, t)
    ensures !SafeSince(history, from, was, o.src, o.dst)
  {
    var i :| from <= i < |history| && t in history[i];
    BesideIsApart(was, t, o.dst, o.src);
    CopyShows(history[i], was, t, o.src, o.dst);
  }

  /** What a move promises of the states since `from` and of its result. */
  ghost predicate Promise(disk: Disk, from: nat, err: Option<Error>, was: Files, o: Order)
    reads disk
  {
    SafeSince(disk.history, from, was, o.src, o.dst) && Outcome(disk.nodes, err, was, o.src, o.dst)
  }

  /** All that was there still is, at every moment. */
  ghost predicate LosesNothing(disk: Disk, from: nat, was: Files)
    reads disk
  {
    KeepsAll(disk.nodes, was) && KeepsAllSince(disk.history, from, was)
  }

  /** What each kind of request that is not sound leads to; `mid` is the disk once the folders are made. */
  ghost predicate Unsound(
    history: seq<Files>, since: nat, fs: Files, mid: Files, was: Files, o: Order, t: Path, err: Option<Error>, longest: nat)
    requires |o.dst| > 0
  {
    && (NewFolderInside(was, o, longest) ==>
          err.Some? && MadeInside(mid, was, o) && SameOutside(fs, mid, t) && (o.dst in mid ==> o.dst in was))
    && (CopiesItself(was, o, longest) || (NewFolderInside(was, o, longest) && o.crossMount && |o.dst| <= longest) ==>
          (err == Some(TooLong) || err == Some(NotCopyable)) && Appears(history, since, t))
    && (CopiesItself(was, o, longest) ==> OnlyInside(history, since, was, t))
    && (OntoItself(was, o, longest) ==> err.None? && NoTree(fs, o.dst))
  }

  /** It breaks the promise. */
  lemma UnsoundBreaks(
    history: seq<Files>, from: nat, since: nat, fs: Files, mid: Files, was: Files, o: Order, t: Path, err: Option<Error>, longest: nat)
    requires WellFormed(was) && o.src in was && Beside(t, o.dst) && NoTree(was, t) && from <= since
    requires Unsound(history, since, fs, mid, was, o, t, err, longest)
    ensures !Sound(was, o, longest) ==> !(SafeSince(history, from, was, o.src, o.dst) && Outcome(fs, err, was, o.src, o.dst))
  {
    BesideIsApart(was, t, o.dst, o.src);
    if NewFolderInside(was, o, longest) {
      MadeInsideBreaks(fs, mid, was, o, t, err);
    } else if CopiesItself(was, o, longest) {
      CopyBreaks(history, since, was, o, t);
    } else if OntoItself(was, o, longest) {
      GoneIsNotPlaced(fs, was, o.src, o.dst);
    }
  }

  /** movePath past its checks: the folders for dst, and then the rename or the copy. */
  method MakeAndMove(disk: Disk, o: Order, t: Path) returns (err: Option<Error>, ghost mid: Files, ghost since: nat)
    requires WellFormed(disk.nodes) && o.src in disk.nodes && |o.src| <= disk.longest && Beside(t, o.dst) && NoTree(disk.nodes, t)
    requires Within(o.dst, o.src) && IsFolder(disk.nodes, o.src) ==> o.unresolved || Parent(o.dst) !in disk.nodes
    modifies disk
    ensures old(disk.history) <= disk.history && old(disk.faults) <= disk.faults
    ensures Sound(old(disk.nodes), o, disk.longest) ==> Promise(disk, |old(disk.history)|, err, old(disk.nodes), o)
    ensures Within(o.dst, o.src) ==> err.Some? && LosesNothing(disk, |old(disk.history)|, old(disk.nodes))
    ensures |old(disk.history)| <= since
    ensures disk.faults == old(disk.faults) ==>
      Unsound(disk.history, since, disk.nodes, mid, old(disk.nodes), o, t, err, disk.longest)
    ensures err.None? ==> Doable(old(disk.nodes), o, disk.longest)
    ensures disk.faults == old(disk.faults) && Doable(old(disk.nodes), o, disk.longest) ==> err.None?
    ensures disk.faults == old(disk.faults) ==> NoTree(disk.nodes, t)
  {
    ghost var was, from := disk.nodes, |disk.history|;
    if o.src == o.dst {
      assert IsFolder(was, Parent(o.dst));
    }
    err := MakeFolders(disk, o, t);
    mid, since := disk.nodes, |disk.history|;
    FoldersAreElsewhere(mid, was, o, t, disk.longest);
    BesideIsApart(was, t, o.dst, o.src);
    if !Within(o.dst, o.src) {
      SameCanGo(mid, was, o, disk.longest);
    }
    if err.None? {
      err := RenameOrCopy(disk, o, t, was);
      if Within(o.dst, o.src) {
        OutsideKeepsAll(disk.history, since, disk.nodes, mid, was, t);
        if IsFolder(was, Parent(o.dst)) {
          WithinParent(o.dst, o.src);
          AboveIn(was, Parent(o.dst), o.src);
        }
      }
    }
  }

  /** When no call fails of itself, a request that is not sound breaks the promise, each kind in its own way. */
  ghost predicate Breaks(disk: Disk, from: nat, err: Option<Error>, was: Files, o: Order, t: Path)
    reads disk
  {
    && (!Sound(was, o, disk.longest) ==> !Promise(disk, from, err, was, o))
    && (OntoItself(was, o, disk.longest) ==> err.None? && NoTree(disk.nodes, o.dst))
    && (CopiesItself(was, o, disk.longest) || (NewFolderInside(was, o, disk.longest) && o.crossMount && |o.dst| <= disk.longest) ==>
          (err == Some(TooLong) || err == Some(NotCopyable)) && Appears(disk.history, from, t))
  }

  lemma NothingHappened(was: Files, o: Order)
    ensures Untouched(was, was, o.src, o.dst) && KeepsAll(was, was)
  {
  }

  lemma UnreachedIsSound(was: Files, o: Order, longest: nat)
    ensures o.src !in was || |o.src| > longest ==> Sound(was, o, longest)
  {
  }

  /** What is refused for lying inside src is sound. */
  lemma RefusedIsSound(was: Files, o: Order, longest: nat)
    requires WellFormed(was)
    ensures !o.unresolved && Within(o.dst, o.src) && Parent(o.dst) in was ==> Sound(was, o, longest)
  {
    if Within(o.dst, o.src) && Parent(o.dst) in was {
      forall k: nat
        ensures !Makeable(was, Parent(o.dst), k, longest)
      {
        if k < |Parent(o.dst)| {
          PrefixIn(was, Parent(o.dst), k + 1);
        }
      }
    }
  }

  /**
   movePath. For a sound request, whichever calls fail, at every moment the trees at
   src and dst are as they were or dst holds the whole of what src held, and an error
   other than a leftover original means nothing there changed. For any other request
   this is broken as soon as no call fails of itself: a leaf moved onto itself is gone,
   and a folder moved into itself gains folders or a copy of itself and ends in an
   error. Even then nothing it held is lost.
   */
  method Move(disk: Disk, o: Order, t: Path) returns (err: Option<Error>)
    requires WellFormed(disk.nodes) && Beside(t, o.dst) && NoTree(disk.nodes, t)
    modifies disk
    ensures old(disk.history) <= disk.history && old(disk.faults) <= disk.faults
    ensures Sound(old(disk.nodes), o, disk.longest) ==> Promise(disk, |old(disk.history)|, err, old(disk.nodes), o)
    ensures disk.faults == old(disk.faults) ==> Breaks(disk, |old(disk.history)|, err, old(disk.nodes), o, t)
    ensures Within(o.dst, o.src) ==> err.Some? && LosesNothing(disk, |old(disk.history)|, old(disk.nodes))
    ensures err.None? ==> Doable(old(disk.nodes), o, disk.longest)
    ensures disk.faults == old(disk.faults) && Doable(old(disk.nodes), o, disk.longest) ==> err.None?
    ensures disk.faults == old(disk.faults) ==> NoTree(disk.nodes, t)
  {
    ghost var was := disk.nodes;
    NothingHappened(was, o);
    var fault := disk.Fault();
    if fault || o.src !in disk.nodes || |o.src| > disk.longest {
      UnreachedIsSound(was, o, disk.longest);
      return Some(NotFound);
    }
    if disk.nodes[o.src].Dir? {
      err := RefuseNesting(disk, o.src, o.dst, o.unresolved);
      if err.Some? {
        RefusedIsSound(was, o, disk.longest);
        return;
      }
    }
    ghost var mid, since;
    err, mid, since := MakeAndMove(disk, o, t);
    if disk.faults == old(disk.faults) {
      UnsoundBreaks(disk.history, |old(disk.history)|, since, disk.nodes, mid, was, o, t, err, disk.longest);
    }
  }

  /** One request of each kind that is not sound. */
  lemma UnsoundOrders(longest: nat)
    requires longest >= 3
    ensures var was: Files := map[[] := Dir(0), ["a"] := Dir(0), ["f"] := File([], 0)];
      && WellFormed(was)
      && OntoItself(was, Order(["f"], ["f"], true, false, true, false), longest)
      && NewFolderInside(was, Order(["a"], ["a", "b", "c"], false, true, true, false), longest)
      && CopiesItself(was, Order(["a"], ["a", "b"], false, false, true, true), longest)
  {
    var was: Files := map[[] := Dir(0), ["a"] := Dir(0), ["f"] := File([], 0)];
    assert Parent(["a"]) == [] && Parent(["f"]) == [] && Parent(["a", "b"]) == ["a"] && Parent(["a", "b", "c"]) == ["a", "b"];
    assert ["a", "b"][..1] == ["a"] && ["a", "b"][..2] == ["a", "b"];
    assert Makeable(was, ["a", "b"], 1, longest);
  }
}
