/**
 The steps of copying a tree: what has changed so far, what a folder half copied
 holds, and why a copy that is done is whole.
 */
module CopySteps {
  import opened Collections
  import opened FileTree

  const BUILDING_FOLDER_MODE: nat := 0x1c0

  /** Every state recorded since the first `from` differs from `was` only inside the tree at p. */
  ghost predicate OnlyInside(history: seq<Files>, from: nat, was: Files, p: Path) {
    forall i :: from <= i < |history| ==> SameOutside(history[i], was, p)
  }

  /** Every state recorded since the first `from` is `was`. */
  ghost predicate AllStill(history: seq<Files>, from: nat, was: Files) {
    forall i :: from <= i < |history| ==> history[i] == was
  }

  /** A file, a link or an empty folder. */
  ghost predicate Leaf(fs: Files, s: Path) {
    s in fs && !fs[s].Special? && forall q :: q in fs ==> !Within(q, s)
  }

  /** At most an entry at t that is no folder has come to be. */
  ghost predicate OneTouched(fs: Files, was: Files, t: Path) {
    fs == was || (|t| > 0 && IsFolder(was, Parent(t)) && t in fs && !fs[t].Dir? && fs == was[t := fs[t]])
  }

  ghost predicate OnlyOneTouched(history: seq<Files>, from: nat, was: Files, t: Path) {
    forall i :: from <= i < |history| ==> OneTouched(history[i], was, t)
  }

  lemma TouchedIsInside(fs: Files, was: Files, t: Path)
    requires WellFormed(was) && t !in was && OneTouched(fs, was, t)
    ensures WellFormed(fs) && SameOutside(fs, was, t)
  {
  }

  lemma TouchesAreInside(history: seq<Files>, from: nat, fs: Files, was: Files, t: Path)
    requires WellFormed(was) && t !in was && OneTouched(fs, was, t) && OnlyOneTouched(history, from, was, t)
    ensures WellFormed(fs) && SameOutside(fs, was, t) && OnlyInside(history, from, was, t)
    ensures |t| > 0 && !IsFolder(was, Parent(t)) ==> fs == was && AllStill(history, from, was)
  {
    TouchedIsInside(fs, was, t);
    forall i | from <= i < |history|
      ensures SameOutside(history[i], was, t)
    {
      TouchedIsInside(history[i], was, t);
    }
  }

  /** A file or a link: nothing lies below it. */
  lemma OneEntry(fs: Files, t: Path, was: Files, s: Path)
    requires WellFormed(was) && s in was && !was[s].Dir?
    requires NoTree(was, t) && fs == was[t := was[s]]
    ensures TreeIs(fs, t, was, s)
  {
    forall q | Under(t, q)
      ensures CopyAt(fs, t, q, was, s)
    {
      var o := Rebase(q, t, s);
      RebaseBack(q, t, s);
      assert Rebase(s, s, t) == t && Rebase(t, t, s) == s;
      if o in was {
        NothingBelow(was, s, o);
      }
    }
  }

  /** The folder at t being filled from the folder at s: only the names done so far are in it, and the names listed are still there. */
  ghost predicate Filling(fs: Files, t: Path, was: Files, s: Path, names: seq<string>, i: nat)
    requires i <= |names|
  {
    && WellFormed(fs) && SameOutside(fs, was, t) && t in fs && fs[t] == Dir(BUILDING_FOLDER_MODE)
    && Unique(names) && (forall n :: n in names ==> s + [n] in fs)
    && forall q :: q in fs && Within(q, t) ==> q[|t|] in names[..i]
  }

  /** What it holds of them is whole. */
  ghost predicate Building(fs: Files, t: Path, was: Files, s: Path, names: seq<string>, i: nat)
    requires i <= |names|
  {
    && (forall n :: n in names <==> s + [n] in was)
    && forall q :: Within(q, t) ==> BuiltAt(fs, t, q, was, s, names[..i])
  }

  ghost predicate BuiltAt(fs: Files, t: Path, q: Path, was: Files, s: Path, done: seq<string>)
    requires Within(q, t)
  {
    if q[|t|] in done then CopyAt(fs, t, q, was, s) else q !in fs
  }

  /** Filled up to i; if t lies inside s, the name on the way to it has not been reached. */
  ghost predicate Copying(fs: Files, t: Path, was: Files, s: Path, names: seq<string>, i: nat)
    requires i <= |names|
  {
    && Filling(fs, t, was, s, names, i)
    && (if Within(t, s) then t[|s|] !in names[..i] else Building(fs, t, was, s, names, i))
  }

  /** Nothing in the tree at s defies copying, and every path of its copy has at most `longest` names when its root has `n`. */
  ghost predicate Copyable(fs: Files, s: Path, n: nat, longest: nat) {
    forall q :: q in fs && Under(s, q) ==> !fs[q].Special? && |q| - |s| + n <= longest
  }

  lemma ChildUnder(t: Path, n: string, q: Path)
    requires Under(t + [n], q)
    ensures Under(t, q) && |q| > |t| && q[|t|] == n
  {
  }

  lemma NotYet(names: seq<string>, i: nat)
    requires Unique(names) && i < |names|
    ensures names[i] in names && names[i] !in names[..i]
  {
  }

  /** The new folder, and the listing of the other one made after it. */
  lemma FillingBegins(fs: Files, t: Path, was: Files, s: Path, names: seq<string>)
    requires WellFormed(was) && |t| > 0 && NoTree(was, t) && IsFolder(was, Parent(t))
    requires fs == was[t := Dir(BUILDING_FOLDER_MODE)]
    requires Unique(names) && forall n :: n in names <==> s + [n] in fs
    ensures Copying(fs, t, was, s, names, 0)
  {
    CreateKeepsShape(was, t, Dir(BUILDING_FOLDER_MODE));
  }

  lemma NextIsFree(fs: Files, t: Path, was: Files, s: Path, names: seq<string>, i: nat)
    requires i < |names| && Filling(fs, t, was, s, names, i)
    ensures s + [names[i]] in fs && NoTree(fs, t + [names[i]])
  {
    NotYet(names, i);
    forall q | q in fs
      ensures !Under(t + [names[i]], q)
    {
      if Under(t + [names[i]], q) {
        ChildUnder(t, names[i], q);
      }
    }
  }

  lemma ParentsUnder(t: Path, n: string, s: Path, m: string)
    requires Under(t + [n], s + [m])
    ensures Under(t, s)
  {
    assert t == (s + [m])[..|t|] && (s + [m])[..|t|] == s[..|t|];
  }

  lemma ListedStay(fs: Files, mid: Files, t: Path, s: Path, n: string, m: string)
    requires SameOutside(fs, mid, t + [n]) && !Under(t, s) && s + [m] in mid
    ensures s + [m] in fs
  {
    if Under(t + [n], s + [m]) {
      ParentsUnder(t, n, s, m);
    }
    assert SameAt(fs, mid, s + [m]);
  }

  lemma DoneGrow(fs: Files, mid: Files, t: Path, names: seq<string>, i: nat, q: Path)
    requires i < |names| && SameOutside(fs, mid, t + [names[i]]) && q in fs && Within(q, t)
    requires q in mid ==> q[|t|] in names[..i]
    ensures q[|t|] in names[..i + 1]
  {
    assert names[..i + 1] == names[..i] + [names[i]];
    if q[|t|] != names[i] {
      assert SameAt(fs, mid, q);
    }
  }

  lemma FillingGoesOn(fs: Files, mid: Files, t: Path, was: Files, s: Path, names: seq<string>, i: nat)
    requires i < |names| && Filling(mid, t, was, s, names, i) && !Under(t, s)
    requires WellFormed(fs) && SameOutside(fs, mid, t + [names[i]])
    ensures Filling(fs, t, was, s, names, i + 1)
  {
    SameOutsideChain(fs, mid, was, t, names[i]);
    assert SameAt(fs, mid, t);
    forall m | m in names
      ensures s + [m] in fs
    {
      ListedStay(fs, mid, t, s, names[i], m);
    }
    forall q | q in fs && Within(q, t)
      ensures q[|t|] in names[..i + 1]
    {
      DoneGrow(fs, mid, t, names, i, q);
    }
  }

  lemma SameOutsideChain(fs: Files, mid: Files, was: Files, t: Path, n: string)
    requires SameOutside(fs, mid, t + [n]) && SameOutside(mid, was, t)
    ensures SameOutside(fs, was, t)
  {
    forall q | !Under(t, q)
      ensures SameAt(fs, was, q)
    {
      if Under(t + [n], q) {
        ChildUnder(t, n, q);
      }
      assert SameAt(mid, was, q) && SameAt(fs, mid, q);
    }
  }

  lemma ChildHistory(history: seq<Files>, from: nat, mid: Files, was: Files, t: Path, n: string)
    requires OnlyInside(history, from, mid, t + [n]) && SameOutside(mid, was, t)
    ensures OnlyInside(history, from, was, t)
  {
    forall i | from <= i < |history|
      ensures SameOutside(history[i], was, t)
    {
      SameOutsideChain(history[i], mid, was, t, n);
    }
  }

  lemma ChildCopied(fs: Files, mid: Files, t: Path, was: Files, s: Path, n: string, q: Path)
    requires TreeIs(fs, t + [n], mid, s + [n]) && SameTree(mid, was, s) && Under(t + [n], q)
    ensures Under(t, q) && CopyAt(fs, t, q, was, s)
  {
    assert t == q[..|t|];
    assert CopyAt(fs, t + [n], q, mid, s + [n]);
    assert Rebase(q, t + [n], s + [n]) == Rebase(q, t, s) by {
      assert q[|t|..] == [n] + q[|t| + 1..];
    }
    RebaseBack(q, t, s);
    assert SameAt(mid, was, Rebase(q, t, s));
  }

  lemma BuildingGoesOn(fs: Files, mid: Files, t: Path, was: Files, s: Path, names: seq<string>, i: nat)
    requires i < |names| && Building(mid, t, was, s, names, i) && SameOutside(mid, was, t) && !Under(s, t) && !Under(t, s)
    requires SameOutside(fs, mid, t + [names[i]]) && TreeIs(fs, t + [names[i]], mid, s + [names[i]])
    ensures Building(fs, t, was, s, names, i + 1)
  {
    var n := names[i];
    SameOutsideIsSameTree(mid, was, t, s);
    forall q | Within(q, t)
      ensures BuiltAt(fs, t, q, was, s, names[..i + 1])
    {
      assert BuiltAt(mid, t, q, was, s, names[..i]);
      if q[|t|] == n {
        assert Under(t + [n], q);
        ChildCopied(fs, mid, t, was, s, n, q);
        assert names[..i + 1][i] == n;
      } else {
        assert !Under(t + [n], q);
        assert SameAt(fs, mid, q);
        assert q[|t|] in names[..i + 1] <==> q[|t|] in names[..i] by {
          assert names[..i + 1] == names[..i] + [n];
        }
      }
    }
  }

  lemma NotReached(names: seq<string>, i: nat, n: string)
    requires i < |names| && n !in names[..i] && names[i] != n
    ensures n !in names[..i + 1]
  {
    assert names[..i + 1] == names[..i] + [names[i]];
  }

  lemma CopyingGoesOn(fs: Files, mid: Files, t: Path, was: Files, s: Path, names: seq<string>, i: nat)
    requires i < |names| && Copying(mid, t, was, s, names, i) && !Under(t, s) && Filling(fs, t, was, s, names, i + 1)
    requires SameOutside(fs, mid, t + [names[i]]) && TreeIs(fs, t + [names[i]], mid, s + [names[i]])
    requires Within(t, s) ==> names[i] != t[|s|]
    ensures Copying(fs, t, was, s, names, i + 1)
  {
    if Within(t, s) {
      NotReached(names, i, t[|s|]);
    } else {
      BuildingGoesOn(fs, mid, t, was, s, names, i);
    }
  }

  /** The copies of a folder's entries are as much in reach as its own. */
  lemma ChildCopyable(mid: Files, was: Files, t: Path, s: Path, n: string, longest: nat)
    requires SameOutside(mid, was, t) && !Under(s, t) && !Under(t, s)
    requires s + [n] in mid && Copyable(was, s, |t|, longest)
    ensures Copyable(mid, s + [n], |t| + 1, longest) && |t| + 1 <= longest && !Under(s + [n], t + [n])
  {
    SameOutsideIsSameTree(mid, was, t, s);
    assert Under(s, s + [n]) && SameAt(mid, was, s + [n]);
    forall q | q in mid && Under(s + [n], q)
      ensures !mid[q].Special? && |q| - |s + [n]| + (|t| + 1) <= longest
    {
      ChildUnder(s, n, q);
      assert SameAt(mid, was, q);
    }
    if Under(s + [n], t + [n]) {
      ParentsUnder(s, n, t, n);
    }
  }

  /** So are the copies of the entries of s with these names. */
  ghost predicate EntriesCopyable(was: Files, s: Path, names: seq<string>, n: nat, longest: nat) {
    forall m :: m in names ==> Copyable(was, s + [m], n + 1, longest)
  }

  lemma OneMoreCopyable(was: Files, s: Path, names: seq<string>, i: nat, n: nat, longest: nat)
    requires i < |names| && EntriesCopyable(was, s, names[..i], n, longest) && Copyable(was, s + [names[i]], n + 1, longest)
    ensures EntriesCopyable(was, s, names[..i + 1], n, longest)
  {
    assert names[..i + 1] == names[..i] + [names[i]];
  }

  lemma BelowEntry(was: Files, s: Path, m: string, q: Path, n: nat, longest: nat)
    requires Copyable(was, s + [m], n + 1, longest) && q in was && Within(q, s) && q[|s|] == m
    ensures !was[q].Special? && |q| - |s| + n <= longest
  {
    assert q[..|s| + 1] == s + [m];
    assert Under(s + [m], q);
  }

  /** And a folder's copy is in reach when its entries' are. */
  lemma FolderCopyable(was: Files, s: Path, names: seq<string>, n: nat, longest: nat)
    requires WellFormed(was) && IsFolder(was, s) && n <= longest
    requires forall m :: m in names <==> s + [m] in was
    requires EntriesCopyable(was, s, names, n, longest)
    ensures Copyable(was, s, n, longest)
  {
    forall q | q in was && Under(s, q)
      ensures !was[q].Special? && |q| - |s| + n <= longest
    {
      if q != s {
        NameListed(was, s, names, q);
        BelowEntry(was, s, q[|s|], q, n, longest);
      }
    }
  }

  lemma SingleCopyable(fs: Files, s: Path, n: nat, longest: nat)
    requires WellFormed(fs) && s in fs && !fs[s].Dir?
    ensures Copyable(fs, s, n, longest) <==> !fs[s].Special? && n <= longest
  {
    forall q | q in fs && Under(s, q)
      ensures q == s
    {
      NothingBelow(fs, s, q);
    }
  }

  lemma ChildApart(t: Path, s: Path, n: string)
    requires !Under(s, t) && !Under(t, s)
    ensures !Under(s + [n], t) && (Under(t, s + [n]) ==> t == s + [n])
  {
    if Under(s + [n], t) {
      ChildUnder(s, n, t);
    }
  }

  lemma SameCopyable(mid: Files, was: Files, t: Path, s: Path, n: nat, longest: nat)
    requires SameOutside(mid, was, t) && !Under(s, t) && !Under(t, s) && Copyable(mid, s, n, longest)
    ensures Copyable(was, s, n, longest)
  {
    SameOutsideIsSameTree(mid, was, t, s);
    forall q | q in was && Under(s, q)
      ensures !was[q].Special? && |q| - |s| + n <= longest
    {
      assert SameAt(mid, was, q);
    }
  }

  lemma NameListed(was: Files, s: Path, names: seq<string>, o: Path)
    requires WellFormed(was) && o in was && Within(o, s)
    requires forall n :: n in names <==> s + [n] in was
    ensures o[|s|] in names
  {
    assert o[..|s| + 1] == s + [o[|s|]];
    PrefixIn(was, o, |s| + 1);
  }

  lemma FolderDone(fs: Files, mid: Files, t: Path, was: Files, s: Path, names: seq<string>, mode: nat)
    requires Building(mid, t, was, s, names, |names|) && fs == mid[t := Dir(mode)]
    requires WellFormed(was) && s in was && was[s] == Dir(mode)
    ensures TreeIs(fs, t, was, s)
  {
    forall q | Under(t, q)
      ensures CopyAt(fs, t, q, was, s)
    {
      var o := Rebase(q, t, s);
      if q == t {
        assert o == s;
      } else {
        assert names[..|names|] == names;
        assert BuiltAt(mid, t, q, was, s, names);
        assert o[|s|] == q[|t|];
        if o in was {
          NameListed(was, s, names, o);
        }
      }
    }
  }

  lemma FolderWhole(fs: Files, mid: Files, t: Path, was: Files, s: Path, names: seq<string>, mode: nat, longest: nat)
    requires WellFormed(was) && s in was && was[s] == Dir(mode) && |t| <= longest
    requires Building(mid, t, was, s, names, |names|) && SameOutside(mid, was, t) && fs == mid[t := Dir(mode)]
    requires EntriesCopyable(was, s, names, |t|, longest)
    ensures TreeIs(fs, t, was, s) && Copyable(was, s, |t|, longest) && SameOutside(fs, was, t)
  {
    FolderDone(fs, mid, t, was, s, names, mode);
    FolderCopyable(was, s, names, |t|, longest);
  }

  // ----- A copy into the folder being copied -----

  /** The entry of s on the way to t, and what its own copy is: again a copy into itself. */
  lemma NextOnTheWay(fs: Files, t: Path, s: Path)
    requires WellFormed(fs) && IsFolder(fs, t) && Within(t, s)
    ensures var n := t[|s|]; IsFolder(fs, s + [n]) && Within(t + [n], s + [n])
  {
    var n := t[|s|];
    assert t[..|s| + 1] == s + [n];
    AboveIn(fs, t, s + [n]);
  }

  // ----- Chaining -----

  lemma StillOutside(history: seq<Files>, from: nat, fs: Files, mid: Files, was: Files, t: Path)
    requires OnlyInside(history, from, mid, t) && SameOutside(fs, mid, t) && SameOutside(mid, was, t)
    ensures OnlyInside(history, from, was, t) && SameOutside(fs, was, t)
  {
  }
}
