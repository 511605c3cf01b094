/** Counters by name, the sums over them, and sequences that list a set of names in a fixed order. */
module Tallies {
  import opened Collections

  type Tally = map<string, int>

  function Get(t: Tally, k: string): int {
    if k in t then t[k] else 0
  }

  function Bump(t: Tally, k: string, n: int): Tally {
    t[k := Get(t, k) + n]
  }

  /** One tally added to another, counter by counter. */
  function Combined(a: Tally, b: Tally): Tally {
    map k | k in a.Keys + b.Keys :: Get(a, k) + Get(b, k)
  }

  ghost function Pick(t: Tally): string
    requires t != map[]
    ensures Pick(t) in t
  {
    var k :| k in t;
    k
  }

  ghost function Sum(t: Tally): int
    decreases |t|
  {
    if t == map[] then 0 else t[Pick(t)] + Sum(t - {Pick(t)})
  }

  lemma {:induction false} SumWithout(t: Tally, k: string)
    requires k in t
    ensures Sum(t) == t[k] + Sum(t - {k})
    decreases |t|
  {
    var p := Pick(t);
    if p != k {
      SumWithout(t - {p}, k);
      SumWithout(t - {k}, p);
      assert t - {p} - {k} == t - {k} - {p};
    }
  }

  lemma SumOfUpdate(t: Tally, k: string, v: int)
    ensures Sum(t[k := v]) == Sum(t) - Get(t, k) + v
  {
    SumWithout(t[k := v], k);
    assert t[k := v] - {k} == t - {k};
    if k in t {
      SumWithout(t, k);
    } else {
      assert t - {k} == t;
    }
  }

  lemma CombinedWithNone(a: Tally, b: Tally)
    requires b == map[]
    ensures Combined(a, b) == a
  {
  }

  lemma CombinedOneMore(a: Tally, b: Tally, k: string)
    requires k in b
    ensures Combined(a, b) == Bump(Combined(a, b - {k}), k, b[k])
  {
  }

  lemma SumOfBump(t: Tally, k: string, n: int)
    ensures Sum(Bump(t, k, n)) == Sum(t) + n
  {
    SumOfUpdate(t, k, Get(t, k) + n);
  }

  lemma SumOfNone(t: Tally)
    requires |t| == 0
    ensures Sum(t) == 0 && t == map[]
  {
  }

  lemma SumOfCombinedStep(a: Tally, b: Tally, k: string)
    requires k in b && Sum(Combined(a, b - {k})) == Sum(a) + Sum(b - {k})
    ensures Sum(Combined(a, b)) == Sum(a) + Sum(b)
  {
    CombinedOneMore(a, b, k);
    SumOfBump(Combined(a, b - {k}), k, b[k]);
    SumWithout(b, k);
  }

  lemma {:induction false} SumOfCombined(a: Tally, b: Tally)
    ensures Sum(Combined(a, b)) == Sum(a) + Sum(b)
    decreases |b|
  {
    if |b| == 0 {
      SumOfNone(b);
      CombinedWithNone(a, b);
    } else {
      var k :| k in b;
      SumOfCombined(a, b - {k});
      SumOfCombinedStep(a, b, k);
    }
  }

  lemma NothingLeft(b: Tally)
    ensures b - b.Keys == map[]
  {
  }

  lemma LeftOneMore(b: Tally, left: set<string>, k: string)
    requires k in left && k in b
    ensures b - (left - {k}) - {k} == b - left
  {
  }

  /** A tally added to another one counter at a time, whichever order the counters come in. */
  method AddTally(a: Tally, b: Tally) returns (r: Tally)
    ensures r == Combined(a, b)
  {
    r := a;
    var left := b.Keys;
    NothingLeft(b);
    CombinedWithNone(a, b - left);
    while left != {}
      invariant left <= b.Keys && r == Combined(a, b - left)
      decreases |left|
    {
      var k :| k in left;
      LeftOneMore(b, left, k);
      CombinedOneMore(a, b - (left - {k}), k);
      left := left - {k};
      r := Bump(r, k, b[k]);
    }
    assert b - {} == b;
  }

  // ----- Order -----

  /** The order of Go's strings. */
  predicate Less(a: string, b: string) {
    |b| > 0 && (|a| == 0 || a[0] < b[0] || (a[0] == b[0] && Less(a[1..], b[1..])))
  }

  lemma {:induction false} LessIsTransitive(a: string, b: string, c: string)
    requires Less(a, b) && Less(b, c)
    ensures Less(a, c)
    decreases |a|
  {
    if |a| > 0 && a[0] == b[0] && b[0] == c[0] {
      LessIsTransitive(a[1..], b[1..], c[1..]);
    }
  }

  lemma {:induction false} LessIsIrreflexive(a: string)
    ensures !Less(a, a)
  {
    if |a| > 0 {
      LessIsIrreflexive(a[1..]);
    }
  }

  lemma {:induction false} LessIsTotal(a: string, b: string)
    requires a != b
    ensures Less(a, b) || Less(b, a)
    decreases |a|
  {
    if |a| > 0 && |b| > 0 && a[0] == b[0] {
      assert a == [a[0]] + a[1..] && b == [b[0]] + b[1..];
      LessIsTotal(a[1..], b[1..]);
    }
  }

  ghost predicate StrictOrder<T(!new)>(lt: (T, T) -> bool) {
    && (forall x :: !lt(x, x))
    && (forall x, y, z :: lt(x, y) && lt(y, z) ==> lt(x, z))
  }

  ghost predicate Ascending<T>(lt: (T, T) -> bool, s: seq<T>) {
    forall i, j :: 0 <= i < j < |s| ==> lt(s[i], s[j])
  }

  ghost predicate SameElements<T(!new)>(a: seq<T>, b: seq<T>) {
    forall x :: x in a <==> x in b
  }

  lemma FirstIsLeast<T>(lt: (T, T) -> bool, s: seq<T>, x: T)
    requires Ascending(lt, s) && x in s
    ensures x == s[0] || lt(s[0], x)
  {
  }

  /** The least element comes first in both. */
  lemma SameFirst<T(!new)>(lt: (T, T) -> bool, a: seq<T>, b: seq<T>)
    requires StrictOrder(lt) && Ascending(lt, a) && Ascending(lt, b) && SameElements(a, b) && |a| > 0 && |b| > 0
    ensures a[0] == b[0]
  {
    FirstIsIn(a);
    FirstIsIn(b);
    FirstIsLeast(lt, a, b[0]);
    FirstIsLeast(lt, b, a[0]);
  }

  /** There is one way to list a set in ascending order: sorting forgets the order things came in. */
  lemma {:induction false} AscendingIsUnique<T(!new)>(lt: (T, T) -> bool, a: seq<T>, b: seq<T>)
    requires StrictOrder(lt) && Ascending(lt, a) && Ascending(lt, b) && SameElements(a, b)
    ensures a == b
    decreases |a|
  {
    if |a| == 0 {
      if |b| > 0 {
        FirstIsIn(b);
      }
    } else {
      FirstIsIn(a);
      SameFirst(lt, a, b);
      TailHasTheRest(lt, a, b);
      AscendingIsUnique(lt, a[1..], b[1..]);
    }
  }

  lemma TailHasTheRest<T(!new)>(lt: (T, T) -> bool, a: seq<T>, b: seq<T>)
    requires StrictOrder(lt) && Ascending(lt, a) && Ascending(lt, b) && SameElements(a, b) && |a| > 0 && |b| > 0 && a[0] == b[0]
    ensures SameElements(a[1..], b[1..]) && Ascending(lt, a[1..]) && Ascending(lt, b[1..])
  {
    forall x
      ensures x in a[1..] <==> x in a && x != a[0]
      ensures x in b[1..] <==> x in b && x != b[0]
    {
      assert x in a ==> x == a[0] || x in a[1..];
      assert x in b ==> x == b[0] || x in b[1..];
    }
  }

  /** Insertion into an ascending sequence. */
  function Insert<T(!new)>(lt: (T, T) -> bool, s: seq<T>, x: T): (r: seq<T>)
    ensures forall y :: y in r <==> y in s || y == x
  {
    if |s| == 0 || lt(x, s[0]) then
      assert forall y :: y in [x] + s <==> y in s || y == x;
      [x] + s
    else
      assert forall y :: y in s <==> y == s[0] || y in s[1..];
      [s[0]] + Insert(lt, s[1..], x)
  }

  lemma {:induction false} InsertKeepsAscending<T(!new)>(lt: (T, T) -> bool, s: seq<T>, x: T)
    requires StrictOrder(lt) && Ascending(lt, s)
    requires forall y :: y in s ==> lt(x, y) || lt(y, x)
    ensures Ascending(lt, Insert(lt, s, x))
  {
    if |s| > 0 && !lt(x, s[0]) {
      InsertKeepsAscending(lt, s[1..], x);
      var rest := Insert(lt, s[1..], x);
      assert s[0] in s;
      forall j | 0 <= j < |rest|
        ensures lt(s[0], rest[j])
      {
        assert rest[j] in rest;
        if rest[j] in s[1..] {
          var k :| 0 <= k < |s[1..]| && s[1..][k] == rest[j];
          assert lt(s[0], s[k + 1]);
        }
      }
    } else if |s| > 0 {
      forall j | 0 <= j < |s|
        ensures lt(x, s[j])
      {
        assert j > 0 ==> lt(s[0], s[j]);
      }
    }
  }
}
