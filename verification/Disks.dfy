/**
 A disk whose calls may fail: a call fails or not as it likes, a write may stop half
 way, and a removal may stop after any of its entries. The disk remembers every
 state it has been in and how many calls failed of themselves.
 */
module Disks {
  import opened Collections
  import opened Options
  import opened ByteStrings
  import opened FileTree
  import opened CopySteps

  datatype Error = Io | TooLong | NotFound | Exists | IntoItself | NotCopyable | NeedsRecursive | OriginalLeft

  datatype RenameResult = Renamed | CrossDevice | Failed

  const BUILDING_FILE_MODE: nat := 0x180

  /** The new tree is at d, and but for it and the temporary name nothing has changed. */
  ghost predicate InPlace(fs: Files, was: Files, t: Path, d: Path, s: Path) {
    TreeIs(fs, d, was, s) && NoTree(fs, t) && forall q :: !Under(d, q) && !Under(t, q) ==> SameAt(fs, was, q)
  }

  ghost predicate NotYetOrWhole(fs: Files, was: Files, t: Path, d: Path, s: Path) {
    SameOutside(fs, was, t) || InPlace(fs, was, t, d, s)
  }

  ghost predicate NotYetOrWholeSince(history: seq<Files>, from: nat, was: Files, t: Path, d: Path, s: Path) {
    forall i :: from <= i < |history| ==> NotYetOrWhole(history[i], was, t, d, s)
  }

  /** A name in d's folder other than d. */
  predicate Beside(t: Path, d: Path) {
    |t| > 0 && |d| > 0 && Parent(t) == Parent(d) && t != d
  }

  class Disk {
    /** The most names a path may have; the kernel takes no longer one. */
    const longest: nat
    var nodes: Files
    ghost var history: seq<Files>
    ghost var faults: nat

    constructor (longest: nat, nodes: Files)
      ensures this.longest == longest && this.nodes == nodes && history == [] && faults == 0
    {
      this.longest, this.nodes, history, faults := longest, nodes, [], 0;
    }

    // ----- Single calls -----

    /** Whether a call fails of itself. */
    method Fault() returns (fault: bool)
      modifies this`faults
      ensures faults == old(faults) + if fault then 1 else 0
    {
      fault := *;
      if fault {
        faults := faults + 1;
      }
    }

    /** mkdir, symlink, or an exclusive open: a new entry in an existing folder. */
    method Create(p: Path, node: Node) returns (err: Option<Error>)
      requires |p| > 0
      modifies this
      ensures old(faults) <= faults && history == old(history) + [nodes]
      ensures err.None? ==> CanCreate(old(nodes), p, longest) && nodes == old(nodes)[p := node]
      ensures err.Some? ==> nodes == old(nodes)
      ensures err == Some(TooLong) ==> |p| > longest
      ensures faults == old(faults) && IsFolder(old(nodes), Parent(p)) && p !in old(nodes) ==>
        err == if |p| > longest then Some(TooLong) else None
    {
      var fault := Fault();
      if fault || p in nodes || !IsFolder(nodes, Parent(p)) {
        err := Some(Io);
      } else if |p| > longest {
        err := Some(TooLong);
      } else {
        err := None;
        nodes := nodes[p := node];
      }
      history := history + [nodes];
    }

    /** Writing a file's bytes: a failure leaves any part of them. */
    method Write(p: Path, content: Bytes) returns (ok: bool)
      requires p in nodes && nodes[p].File?
      modifies this
      ensures old(faults) <= faults && history == old(history) + [nodes]
      ensures p in nodes && nodes[p].File? && nodes == old(nodes)[p := nodes[p]]
      ensures ok ==> nodes[p] == old(nodes)[p].(content := content)
      ensures faults == old(faults) ==> ok
    {
      var n: int := *;
      ok := n < 0 || n >= |content|;
      if !ok {
        faults := faults + 1;
      }
      nodes := nodes[p := nodes[p].(content := if ok then content else content[..n])];
      history := history + [nodes];
    }

    method Chmod(p: Path, mode: nat) returns (ok: bool)
      requires p in nodes && (nodes[p].File? || nodes[p].Dir?)
      modifies this
      ensures old(faults) <= faults && history == old(history) + [nodes]
      ensures nodes == if ok then old(nodes)[p := old(nodes)[p].(mode := mode)] else old(nodes)
      ensures faults == old(faults) ==> ok
    {
      var fault := Fault();
      ok := !fault;
      if ok {
        nodes := nodes[p := nodes[p].(mode := mode)];
      }
      history := history + [nodes];
    }

    /** A folder's names, in some order. */
    method ReadDir(p: Path) returns (ok: bool, names: seq<string>)
      modifies this`faults
      ensures old(faults) <= faults && (faults == old(faults) ==> ok)
      ensures ok ==> (forall n :: n in names <==> p + [n] in nodes) && Unique(names)
    {
      names := [];
      var fault := Fault();
      if fault {
        return false, names;
      }
      var left := set q | q in nodes && |q| == |p| + 1 && Under(p, q);
      while left != {}
        invariant forall q :: q in left ==> q in nodes && |q| == |p| + 1 && Under(p, q)
        invariant forall n :: n in names <==> p + [n] in nodes && p + [n] !in left
        invariant Unique(names)
        decreases |left|
      {
        var q :| q in left;
        assert q == p + [q[|p|]];
        left := left - {q};
        names := names + [q[|p|]];
      }
      return true, names;
    }

    /** Removing one entry. */
    method Unlink(p: Path) returns (ok: bool)
      modifies this
      ensures old(faults) <= faults && (faults == old(faults) ==> ok)
      ensures ok ==> faults == old(faults) && nodes == old(nodes) - {p} && history == old(history) + [nodes]
      ensures !ok ==> nodes == old(nodes) && history == old(history)
    {
      var fault := Fault();
      if !fault {
        nodes := nodes - {p};
        history := history + [nodes];
      }
      return !fault;
    }

    /** Removing a tree entry by entry, in any order, as far as it gets. */
    method RemoveAll(p: Path) returns (ok: bool)
      modifies this
      ensures old(faults) <= faults && (faults == old(faults) ==> ok)
      ensures old(history) <= history && OnlyInside(history, |old(history)|, old(nodes), p)
      ensures SameOutside(nodes, old(nodes), p)
      ensures ok ==> NoTree(nodes, p)
      ensures NoTree(old(nodes), p) ==> nodes == old(nodes) && history == old(history)
    {
      var left := set q | q in nodes && Under(p, q);
      while left != {}
        invariant old(history) <= history && OnlyInside(history, |old(history)|, old(nodes), p)
        invariant SameOutside(nodes, old(nodes), p) && faults == old(faults)
        invariant forall q :: q in nodes && Under(p, q) ==> q in left
        invariant forall q :: q in left ==> Under(p, q) && q in old(nodes)
        invariant NoTree(old(nodes), p) ==> nodes == old(nodes) && history == old(history)
        decreases |left|
      {
        var q :| q in left;
        ok := Unlink(q);
        if !ok {
          return;
        }
        left := left - {q};
      }
      return true;
    }

    /** rename, in one step; `crossMount` is whether the kernel sees two mounts. */
    method Rename(s: Path, d: Path, overwrite: bool, crossMount: bool) returns (r: RenameResult)
      requires |d| > 0
      modifies this
      ensures old(faults) <= faults && history == old(history) + [nodes]
      ensures !r.Renamed? ==> nodes == old(nodes)
      ensures r.Renamed? ==> nodes == (if s == d then old(nodes) else Moved(old(nodes), s, d))
      ensures !r.Failed? ==> s in old(nodes) && Fits(s, d) && IsFolder(old(nodes), Parent(d)) && r.CrossDevice? == crossMount
      ensures r.Renamed? ==> s in old(nodes) && CanTake(old(nodes), s, d, overwrite)
      ensures faults == old(faults) && s in old(nodes) && Fits(s, d) && IsFolder(old(nodes), Parent(d)) ==>
        (if crossMount then r.CrossDevice? else r.Renamed? <==> CanTake(old(nodes), s, d, overwrite))
    {
      var fault := Fault();
      if fault || s !in nodes || !Fits(s, d) || !IsFolder(nodes, Parent(d)) {
        r := Failed;
      } else if crossMount {
        r := CrossDevice;
      } else if d in nodes && !overwrite {
        r := Failed;
      } else if s == d {
        r := Renamed;
      } else if Under(s, d) || Under(d, s) {
        r := Failed;
      } else if d in nodes && (nodes[d].Dir? != nodes[s].Dir?) {
        r := Failed;
      } else if exists q :: q in nodes && Under(d, q) && q != d {
        r := Failed;
      } else {
        nodes := Moved(nodes, s, d);
        r := Renamed;
      }
      history := history + [nodes];
    }

    predicate Fits(s: Path, d: Path) {
      |s| <= longest && |d| <= longest
    }

    // ----- Copying a tree -----

    /** One file: created empty, filled, and given its mode last. */
    method CopyFileContents(s: Path, t: Path) returns (err: Option<Error>)
      requires s in nodes && nodes[s].File? && |t| > 0 && t !in nodes
      modifies this
      ensures old(faults) <= faults && old(history) <= history
      ensures OneTouched(nodes, old(nodes), t) && OnlyOneTouched(history, |old(history)|, old(nodes), t)
      ensures err.None? ==> nodes == old(nodes)[t := old(nodes)[s]]
      ensures err.None? ==> IsFolder(old(nodes), Parent(t)) && |t| <= longest
      ensures faults == old(faults) && IsFolder(old(nodes), Parent(t)) ==> err == if |t| > longest then Some(TooLong) else None
    {
      var file := nodes[s];
      var fault := Fault();
      if fault {
        return Some(Io);
      }
      err := Create(t, File([], BUILDING_FILE_MODE));
      if err.Some? {
        return;
      }
      var ok := Write(t, file.content);
      fault := Fault();
      if !ok || fault {
        return Some(Io);
      }
      ok := Chmod(t, file.mode);
      return if ok then None else Some(Io);
    }

    /** A link made again at t. */
    method CopyLink(s: Path, t: Path) returns (err: Option<Error>)
      requires s in nodes && nodes[s].Link? && |t| > 0 && t !in nodes
      modifies this
      ensures old(faults) <= faults && old(history) <= history
      ensures OneTouched(nodes, old(nodes), t) && OnlyOneTouched(history, |old(history)|, old(nodes), t)
      ensures err.None? ==> nodes == old(nodes)[t := old(nodes)[s]]
      ensures err.None? ==> IsFolder(old(nodes), Parent(t)) && |t| <= longest
      ensures faults == old(faults) && IsFolder(old(nodes), Parent(t)) ==> err == if |t| > longest then Some(TooLong) else None
    {
      var fault := Fault();
      if fault {
        return Some(Io);
      }
      err := Create(t, nodes[s]);
    }

    /** What is no folder: a link, a file, or what cannot be copied. */
    method CopyEntry(s: Path, t: Path) returns (err: Option<Error>)
      requires WellFormed(nodes) && s in nodes && !nodes[s].Dir? && |t| > 0 && NoTree(nodes, t)
      modifies this
      ensures old(faults) <= faults && old(history) <= history
      ensures OneTouched(nodes, old(nodes), t) && OnlyOneTouched(history, |old(history)|, old(nodes), t)
      ensures err.None? ==> !old(nodes)[s].Special? && IsFolder(old(nodes), Parent(t)) && |t| <= longest
      ensures err.None? ==> nodes == old(nodes)[t := old(nodes)[s]]
      ensures faults == old(faults) && IsFolder(old(nodes), Parent(t)) ==>
        err == if old(nodes)[s].Special? then Some(NotCopyable) else if |t| > longest then Some(TooLong) else None
    {
      match nodes[s] {
        case Special => err := Some(NotCopyable);
        case Link(_) => err := CopyLink(s, t);
        case File(_, _) => err := CopyFileContents(s, t);
      }
    }

    /**
     copyTree. Only the tree at t changes, and on success it is the tree at s. A copy
     of a folder into itself follows its own copy down, and so always ends in an error:
     when no call fails of itself, because a path got too long or an entry cannot be
     copied. Any other copy then succeeds if its tree is in reach, and only then.
     */
    method CopyTree(s: Path, t: Path) returns (err: Option<Error>)
      requires WellFormed(nodes) && s in nodes && |t| > 0 && NoTree(nodes, t)
      modifies this
      ensures old(faults) <= faults && WellFormed(nodes)
      ensures old(history) <= history && OnlyInside(history, |old(history)|, old(nodes), t)
      ensures SameOutside(nodes, old(nodes), t)
      ensures err.None? ==> TreeIs(nodes, t, old(nodes), s) && Copyable(old(nodes), s, |t|, longest)
      ensures IsFolder(old(nodes), s) && Under(s, t) ==> err.Some?
      ensures !IsFolder(old(nodes), Parent(t)) ==> err.Some? && nodes == old(nodes) && AllStill(history, |old(history)|, nodes)
      ensures faults == old(faults) ==> CalmCopy(err, old(nodes), s, t, longest)
      ensures faults == old(faults) && CanCreate(old(nodes), t, longest) && IsFolder(old(nodes), s) ==>
        |old(history)| < |history| && t in history[|old(history)|]
      decreases longest + 1 - |t|, 2
    {
      ghost var was := nodes;
      if nodes[s].Dir? {
        err := CopyFolder(s, t, nodes[s].mode);
        return;
      }
      err := CopyEntry(s, t);
      TouchesAreInside(history, |old(history)|, nodes, was, t);
      SingleCopyable(was, s, |t|, longest);
      if err.None? {
        OneEntry(nodes, t, was, s);
      }
    }

    /** The folder at t, still empty, and what the folder at s lists then. */
    method BeginFolder(s: Path, t: Path) returns (err: Option<Error>, names: seq<string>)
      requires WellFormed(nodes) && IsFolder(nodes, s) && |t| > 0 && NoTree(nodes, t)
      modifies this
      ensures old(faults) <= faults && WellFormed(nodes) && history == old(history) + [nodes]
      ensures nodes == old(nodes) || (CanCreate(old(nodes), t, longest) && nodes == old(nodes)[t := Dir(BUILDING_FOLDER_MODE)])
      ensures err.None? ==> CanCreate(old(nodes), t, longest) && Copying(nodes, t, old(nodes), s, names, 0)
      ensures err.None? && Under(s, t) ==> t[|s|] in names
      ensures faults == old(faults) && IsFolder(old(nodes), Parent(t)) ==> err == if |t| > longest then Some(TooLong) else None
    {
      ghost var was := nodes;
      names := [];
      err := Create(t, Dir(BUILDING_FOLDER_MODE));
      if err.Some? {
        return;
      }
      CreateKeepsShape(was, t, Dir(BUILDING_FOLDER_MODE));
      var ok;
      ok, names := ReadDir(s);
      if !ok {
        return Some(Io), names;
      }
      FillingBegins(nodes, t, was, s, names);
      if Under(s, t) {
        NextOnTheWay(nodes, t, s);
      }
    }

    method CopyFolder(s: Path, t: Path, mode: nat) returns (err: Option<Error>)
      requires WellFormed(nodes) && s in nodes && nodes[s] == Dir(mode) && |t| > 0 && NoTree(nodes, t)
      modifies this
      ensures old(faults) <= faults && WellFormed(nodes)
      ensures old(history) <= history && OnlyInside(history, |old(history)|, old(nodes), t)
      ensures SameOutside(nodes, old(nodes), t)
      ensures err.None? ==> TreeIs(nodes, t, old(nodes), s) && Copyable(old(nodes), s, |t|, longest) && !Under(s, t)
      ensures !IsFolder(old(nodes), Parent(t)) ==> err.Some? && nodes == old(nodes) && AllStill(history, |old(history)|, nodes)
      ensures faults == old(faults) ==> CalmCopy(err, old(nodes), s, t, longest)
      ensures faults == old(faults) && CanCreate(old(nodes), t, longest) ==>
        |old(history)| < |history| && t in history[|old(history)|]
      decreases longest + 1 - |t|, 1
    {
      ghost var was, from := nodes, |history|;
      var names;
      err, names := BeginFolder(s, t);
      if err.Some? {
        return;
      }
      err := FillFolder(s, t, names, mode, was, from);
    }

    /** The folder's entries, and then its mode. */
    method FillFolder(s: Path, t: Path, names: seq<string>, mode: nat, ghost was: Files, ghost from: nat) returns (err: Option<Error>)
      requires 0 < |t| <= longest && WellFormed(was) && s in was && was[s] == Dir(mode) && !Under(t, s)
      requires Copying(nodes, t, was, s, names, 0) && (Under(s, t) ==> t[|s|] in names)
      requires from <= |history| && OnlyInside(history, from, was, t)
      modifies this
      ensures old(faults) <= faults && WellFormed(nodes)
      ensures old(history) <= history && OnlyInside(history, from, was, t)
      ensures SameOutside(nodes, was, t)
      ensures err.None? ==> TreeIs(nodes, t, was, s) && Copyable(was, s, |t|, longest) && !Under(s, t)
      ensures faults == old(faults) ==> Calm(err) && (Copyable(was, s, |t|, longest) && !Under(s, t) ==> err.None?)
      decreases longest + 1 - |t|, 0, 2
    {
      err := CopyChildren(s, t, names, was, from);
      if err.Some? {
        return;
      }
      ghost var built := nodes;
      var ok := Chmod(t, mode);
      ChangeKeepsShape(built, t, Dir(mode));
      if !ok {
        return Some(Io);
      }
      FolderWhole(nodes, built, t, was, s, names, mode, longest);
    }

    method CopyChildren(s: Path, t: Path, names: seq<string>, ghost was: Files, ghost from: nat) returns (err: Option<Error>)
      requires 0 < |t| <= longest && !Under(t, s) && Copying(nodes, t, was, s, names, 0)
      requires Under(s, t) ==> t[|s|] in names
      requires from <= |history| && OnlyInside(history, from, was, t)
      modifies this
      ensures old(faults) <= faults && WellFormed(nodes) && IsFolder(nodes, t) && SameOutside(nodes, was, t)
      ensures old(history) <= history && OnlyInside(history, from, was, t)
      ensures err.None? ==> !Under(s, t) && Building(nodes, t, was, s, names, |names|)
      ensures err.None? ==> EntriesCopyable(was, s, names, |t|, longest)
      ensures faults == old(faults) ==> Calm(err) && (Copyable(was, s, |t|, longest) && !Under(s, t) ==> err.None?)
      decreases longest + 1 - |t|, 0, 1
    {
      err := None;
      for i := 0 to |names|
        invariant old(faults) <= faults && err.None?
        invariant old(history) <= history && OnlyInside(history, from, was, t)
        invariant Copying(nodes, t, was, s, names, i)
        invariant !Under(s, t) ==> EntriesCopyable(was, s, names[..i], |t|, longest)
      {
        err := CopyChild(s, t, names, i, was, from);
        if err.Some? {
          return;
        }
        if !Under(s, t) {
          OneMoreCopyable(was, s, names, i, |t|, longest);
        }
      }
      assert names[..|names|] == names;
    }

    method CopyChild(s: Path, t: Path, names: seq<string>, i: nat, ghost was: Files, ghost from: nat) returns (err: Option<Error>)
      requires 0 < |t| <= longest && !Under(t, s) && i < |names| && Copying(nodes, t, was, s, names, i)
      requires from <= |history| && OnlyInside(history, from, was, t)
      modifies this
      ensures old(faults) <= faults
      ensures faults == old(faults) ==> Calm(err) && (Copyable(was, s, |t|, longest) && !Under(s, t) ==> err.None?)
      ensures err.None? && !Under(s, t) ==> Copyable(was, s + [names[i]], |t| + 1, longest)
      ensures old(history) <= history && OnlyInside(history, from, was, t)
      ensures WellFormed(nodes) && IsFolder(nodes, t) && SameOutside(nodes, was, t)
      ensures err.None? ==> Copying(nodes, t, was, s, names, i + 1)
      decreases longest + 1 - |t|, 0, 0
    {
      var n := names[i];
      NextIsFree(nodes, t, was, s, names, i);
      ghost var mid, since := nodes, |history|;
      if Under(s, t) && n == t[|s|] {
        NextOnTheWay(nodes, t, s);
      }
      var fault := Fault();
      if fault {
        return Some(Io);
      }
      if Copyable(was, s, |t|, longest) && !Under(s, t) {
        ChildCopyable(mid, was, t, s, n, longest);
      }
      err := CopyTree(s + [n], t + [n]);
      ChildHistory(history, since, mid, was, t, n);
      FillingGoesOn(nodes, mid, t, was, s, names, i);
      if err.None? {
        CopyingGoesOn(nodes, mid, t, was, s, names, i);
        if !Under(s, t) {
          ChildApart(t, s, n);
          SameCopyable(mid, was, t, s + [n], |t| + 1, longest);
        }
      }
    }
  }

  /** How a copy can end when no call fails of itself. */
  predicate Calm(err: Option<Error>) {
    err == None || err == Some(TooLong) || err == Some(NotCopyable)
  }

  /** A tree in reach, with a free name to go to, is then copied. */
  ghost predicate CalmCopy(err: Option<Error>, was: Files, s: Path, t: Path, longest: nat)
    requires |t| > 0
  {
    && (IsFolder(was, Parent(t)) ==> Calm(err))
    && (CanCreate(was, t, longest) && Copyable(was, s, |t|, longest) && !Under(s, t) ==> err.None?)
  }

  /** A rename on one mount may put s at d: d is free or may be replaced, by what is like it, and holds nothing. */
  predicate CanTake(fs: Files, s: Path, d: Path, overwrite: bool)
    requires s in fs
  {
    && (d in fs ==> overwrite)
    && (s != d ==>
          && !Under(s, d) && !Under(d, s) && (d in fs ==> fs[s].Dir? == fs[d].Dir?)
          && forall q :: q in fs && Under(d, q) ==> q == d)
  }
}
