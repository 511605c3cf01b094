/**
 A filesystem as a map from paths to entries, and what a rename, a copy and a
 removal make of the trees in it.
 */
module FileTree {
  import opened ByteStrings

  type Path = seq<string>

  /** One entry; `mode` is its permission bits. A device, pipe or socket is Special. */
  datatype Node = File(content: Bytes, mode: nat) | Link(target: string) | Dir(mode: nat) | Special

  type Files = map<Path, Node>

  /** q is p or lies inside it. */
  predicate Under(p: Path, q: Path) {
    p <= q
  }

  function Parent(p: Path): Path
    requires |p| > 0
  {
    p[..|p| - 1]
  }

  /** Every entry but the root lies in a folder. */
  ghost predicate WellFormed(fs: Files) {
    forall q :: q in fs && |q| > 0 ==> Parent(q) in fs && fs[Parent(q)].Dir?
  }

  /** q lies strictly inside the folder p. */
  predicate Within(q: Path, p: Path) {
    Under(p, q) && p != q
  }

  predicate IsFolder(fs: Files, p: Path) {
    p in fs && fs[p].Dir?
  }

  /** A new entry needs a folder to lie in, a free name, and a path the kernel takes: `longest` names at most. */
  predicate CanCreate(fs: Files, p: Path, longest: nat) {
    0 < |p| <= longest && p !in fs && IsFolder(fs, Parent(p))
  }

  // ----- Well-formed disks -----

  lemma {:induction false} PrefixIn(fs: Files, p: Path, k: nat)
    requires WellFormed(fs) && p in fs && k <= |p|
    ensures p[..k] in fs && (k < |p| ==> fs[p[..k]].Dir?)
    decreases |p|
  {
    if k == |p| {
      assert p[..k] == p;
    } else {
      PrefixIn(fs, Parent(p), k);
      assert Parent(p)[..k] == p[..k];
    }
  }

  /** The folders on the way to an entry are there. */
  lemma AboveIn(fs: Files, p: Path, q: Path)
    requires WellFormed(fs) && p in fs && Under(q, p)
    ensures q in fs && (q != p ==> fs[q].Dir?)
  {
    PrefixIn(fs, p, |q|);
    assert p[..|q|] == q;
  }

  lemma CreateKeepsShape(fs: Files, p: Path, node: Node)
    requires WellFormed(fs) && |p| > 0 && p !in fs && IsFolder(fs, Parent(p))
    ensures WellFormed(fs[p := node])
  {
  }

  lemma ChangeKeepsShape(fs: Files, p: Path, node: Node)
    requires WellFormed(fs) && p in fs && (fs[p].Dir? ==> node.Dir?)
    ensures WellFormed(fs[p := node])
  {
  }

  lemma NothingBelow(fs: Files, s: Path, q: Path)
    requires WellFormed(fs) && s in fs && !fs[s].Dir? && Under(s, q) && q in fs
    ensures q == s
  {
    AboveIn(fs, q, s);
  }

  /** A path of greatest length in the tree at s. */
  lemma {:induction false} Deepest(fs: Files, s: Path) returns (q: Path)
    requires s in fs
    ensures q in fs && Under(s, q) && forall o :: o in fs && Under(s, o) ==> |o| <= |q|
    decreases |fs|
  {
    q := s;
    if o :| o in fs && Within(o, s) {
      q := Deepest(fs - {o}, s);
      if |o| > |q| {
        q := o;
      }
    }
  }

  /** Where a path inside one tree lies in another. */
  function Rebase(q: Path, from: Path, to: Path): Path
    requires Under(from, q)
  {
    to + q[|from|..]
  }

  lemma RebaseBack(q: Path, from: Path, to: Path)
    requires Under(from, q)
    ensures Under(to, Rebase(q, from, to)) && Rebase(Rebase(q, from, to), to, from) == q
  {
  }

  // ----- Comparing trees -----

  ghost predicate SameAt(fs: Files, was: Files, q: Path) {
    (q in fs <==> q in was) && (q in fs ==> fs[q] == was[q])
  }

  /** The tree at p is what it was. */
  ghost predicate SameTree(fs: Files, was: Files, p: Path) {
    forall q :: Under(p, q) ==> SameAt(fs, was, q)
  }

  /** Nothing outside the tree at p has changed. */
  ghost predicate SameOutside(fs: Files, was: Files, p: Path) {
    forall q :: !Under(p, q) ==> SameAt(fs, was, q)
  }

  /** The tree at p, entry by entry, is the one that was at s. */
  ghost predicate CopyAt(fs: Files, p: Path, q: Path, was: Files, s: Path)
    requires Under(p, q)
  {
    var o := Rebase(q, p, s);
    (q in fs <==> o in was) && (q in fs ==> fs[q] == was[o])
  }

  ghost predicate TreeIs(fs: Files, p: Path, was: Files, s: Path) {
    forall q :: Under(p, q) ==> CopyAt(fs, p, q, was, s)
  }

  ghost predicate NoTree(fs: Files, p: Path) {
    forall q :: q in fs ==> !Under(p, q)
  }

  lemma SameOutsideIsSameTree(fs: Files, was: Files, p: Path, s: Path)
    requires SameOutside(fs, was, p) && !Under(p, s) && !Under(s, p)
    ensures SameTree(fs, was, s)
  {
  }

  // ----- Whole operations -----

  /** A rename: the tree at s is now at d, and what was at d is gone. */
  function Moved(fs: Files, s: Path, d: Path): Files {
    map q | q in (set k | k in fs && !Under(s, k) && !Under(d, k)) + (set k | k in fs && Under(s, k) :: Rebase(k, s, d)) ::
      (if Under(d, q) then if Rebase(q, d, s) in fs then fs[Rebase(q, d, s)] else Special else if q in fs then fs[q] else Special)
  }

  lemma MovedIsTree(fs: Files, s: Path, d: Path)
    ensures TreeIs(Moved(fs, s, d), d, fs, s)
  {
    var t := Moved(fs, s, d);
    forall q | Under(d, q)
      ensures CopyAt(t, d, q, fs, s)
    {
      RebaseBack(q, d, s);
      var o := Rebase(q, d, s);
      if o in fs {
        assert Rebase(o, s, d) == q;
      }
      if q in t {
        var k :| k in fs && Under(s, k) && Rebase(k, s, d) == q;
        RebaseBack(k, s, d);
      }
    }
  }

  lemma MovedElsewhere(fs: Files, s: Path, d: Path, q: Path)
    requires !Under(s, q) && !Under(d, q)
    ensures SameAt(Moved(fs, s, d), fs, q)
  {
  }

  lemma MovedAway(fs: Files, s: Path, d: Path)
    requires !Under(s, d) && !Under(d, s)
    ensures NoTree(Moved(fs, s, d), s)
  {
  }
}
