/**
 Go strings and byte slices as sequences of bytes, with the two searches the
 session command runner is built on: the first occurrence of a marker
 (`strings.Index`) and the longest suffix of the captured text that a marker
 could still grow out of.
 */
module ByteStrings {
  type Byte = b: int | 0 <= b < 256
  type Bytes = seq<Byte>

  const NEWLINE: Byte := 10

  ghost predicate OccursAt(text: Bytes, pat: Bytes, i: int) {
    0 <= i && i + |pat| <= |text| && text[i..i + |pat|] == pat
  }

  /** `strings.Index`: the first place `pat` occurs, or -1. */
  function IndexOf(text: Bytes, pat: Bytes): (r: int)
    ensures r == -1 || OccursAt(text, pat, r)
  {
    IndexFrom(text, pat, 0)
  }

  function IndexFrom(text: Bytes, pat: Bytes, from: nat): (r: int)
    ensures r == -1 || (from <= r && OccursAt(text, pat, r))
    decreases |text| - from
  {
    if from + |pat| > |text| then -1
    else if text[from..from + |pat|] == pat then from
    else IndexFrom(text, pat, from + 1)
  }

  lemma {:induction false} IndexFromIsFirst(text: Bytes, pat: Bytes, from: nat, j: int)
    requires from <= j && OccursAt(text, pat, j)
    ensures 0 <= IndexFrom(text, pat, from) <= j
    decreases |text| - from
  {
    if text[from..from + |pat|] != pat {
      IndexFromIsFirst(text, pat, from + 1, j);
    }
  }

  /** No occurrence comes before the one IndexOf reports, and none is missed. */
  lemma IndexIsFirst(text: Bytes, pat: Bytes, j: int)
    requires OccursAt(text, pat, j)
    ensures 0 <= IndexOf(text, pat) <= j
  {
    IndexFromIsFirst(text, pat, 0, j);
  }

  // ----- Occurrences and concatenation -----

  lemma OccursInPrefix(a: Bytes, b: Bytes, pat: Bytes, i: int)
    requires i + |pat| <= |a|
    ensures OccursAt(a + b, pat, i) <==> OccursAt(a, pat, i)
  {
  }

  lemma OccursInSuffix(a: Bytes, b: Bytes, pat: Bytes, i: int)
    requires |a| <= i
    ensures OccursAt(a + b, pat, i) <==> OccursAt(b, pat, i - |a|)
  {
  }

  /** An occurrence found once stays the first one, however the text grows. */
  lemma IndexStable(a: Bytes, b: Bytes, pat: Bytes)
    requires IndexOf(a, pat) >= 0
    ensures IndexOf(a + b, pat) == IndexOf(a, pat)
  {
    var i := IndexOf(a, pat);
    OccursInPrefix(a, b, pat, i);
    IndexIsFirst(a + b, pat, i);
    var j := IndexOf(a + b, pat);
    OccursInPrefix(a, b, pat, j);
    IndexIsFirst(a, pat, j);
  }

  /** Text before the last |pat| - 1 bytes of `a` cannot start a new occurrence. */
  lemma NewOccurrenceIsLate(a: Bytes, b: Bytes, pat: Bytes, i: int)
    requires IndexOf(a, pat) < 0
    requires OccursAt(a + b, pat, i)
    ensures |a| < i + |pat|
  {
    if i + |pat| <= |a| {
      OccursInPrefix(a, b, pat, i);
      IndexIsFirst(a, pat, i);
    }
  }

  /** Dropping a head no occurrence starts in only shifts the first occurrence. */
  lemma IndexAfterDrop(head: Bytes, rest: Bytes, pat: Bytes)
    requires forall i :: OccursAt(head + rest, pat, i) ==> |head| <= i
    ensures IndexOf(head + rest, pat) == if IndexOf(rest, pat) < 0 then -1 else |head| + IndexOf(rest, pat)
  {
    var text := head + rest;
    var i, j := IndexOf(text, pat), IndexOf(rest, pat);
    if i >= 0 {
      OccursInSuffix(head, rest, pat, i);
      IndexIsFirst(rest, pat, i - |head|);
    }
    if j >= 0 {
      OccursInSuffix(head, rest, pat, |head| + j);
      IndexIsFirst(text, pat, |head| + j);
    }
  }

  // ----- Borders: where two copies of one marker may overlap -----

  /** `pat` begins with none of its proper suffixes. */
  ghost predicate Unbordered(pat: Bytes) {
    forall k :: 0 < k < |pat| ==> pat[..k] != pat[|pat| - k..]
  }

  /** A pattern whose last byte occurs nowhere else in it is unbordered. */
  lemma LastByteUniqueIsUnbordered(pat: Bytes)
    requires pat != []
    requires forall i :: 0 <= i < |pat| - 1 ==> pat[i] != pat[|pat| - 1]
    ensures Unbordered(pat)
  {
    forall k | 0 < k < |pat| ensures pat[..k] != pat[|pat| - k..] {
      assert pat[..k][k - 1] == pat[k - 1];
      assert pat[|pat| - k..][k - 1] == pat[|pat| - 1];
    }
  }

  /** Two overlapping copies of a pattern make a border of it. */
  lemma OverlapIsBorder(a: Bytes, pat: Bytes, b: Bytes, i: nat, k: nat)
    requires OccursAt(a + pat + b, pat, i)
    requires i < |a| < i + |pat| && k == i + |pat| - |a|
    ensures pat[|pat| - k..] == pat[..k]
  {
  }

  /** In `a + pat + b`, with none in `a`, an unbordered pattern is found exactly at |a|. */
  lemma UnborderedIndex(a: Bytes, pat: Bytes, b: Bytes)
    requires pat != [] && Unbordered(pat)
    requires IndexOf(a, pat) < 0
    ensures IndexOf(a + pat + b, pat) == |a|
  {
    var text := a + pat + b;
    assert text[|a|..|a| + |pat|] == pat;
    IndexIsFirst(text, pat, |a|);
    var i := IndexOf(text, pat);
    if i < |a| {
      assert text == a + (pat + b);
      NewOccurrenceIsLate(a, pat + b, pat, i);
      OverlapIsBorder(a, pat, b, i, i + |pat| - |a|);
    }
  }

  // ----- Held-back suffixes -----

  /** The last `k` bytes of `captured` are a proper prefix of `pattern`. */
  predicate HeldBy(captured: Bytes, pattern: Bytes, k: nat) {
    k < |pattern| && k <= |captured| && captured[|captured| - k..] == pattern[..k]
  }

  /** How much of `captured`, at its end, could be the start of `pattern`: the most of it, but never all of `pattern`. */
  function HoldBack(captured: Bytes, pattern: Bytes): (k: nat)
    requires pattern != []
    ensures HeldBy(captured, pattern, k)
  {
    HoldBackFrom(captured, pattern, if |pattern| - 1 < |captured| then |pattern| - 1 else |captured|)
  }

  function HoldBackFrom(captured: Bytes, pattern: Bytes, top: nat): (k: nat)
    requires pattern != [] && top < |pattern| && top <= |captured|
    ensures k <= top && HeldBy(captured, pattern, k)
  {
    if captured[|captured| - top..] == pattern[..top] then top
    else HoldBackFrom(captured, pattern, top - 1)
  }

  lemma {:induction false} HoldBackFromIsLongest(captured: Bytes, pattern: Bytes, top: nat, j: nat)
    requires pattern != [] && top < |pattern| && top <= |captured|
    requires j <= top && HeldBy(captured, pattern, j)
    ensures j <= HoldBackFrom(captured, pattern, top)
  {
    if captured[|captured| - top..] != pattern[..top] {
      HoldBackFromIsLongest(captured, pattern, top - 1, j);
    }
  }

  /** No longer suffix could still grow into the pattern. */
  lemma HoldBackIsLongest(captured: Bytes, pattern: Bytes, j: nat)
    requires pattern != [] && HeldBy(captured, pattern, j)
    ensures j <= HoldBack(captured, pattern)
  {
    HoldBackFromIsLongest(captured, pattern, if |pattern| - 1 < |captured| then |pattern| - 1 else |captured|, j);
  }

  /** The loop of longestEndMarkerPrefixSuffix, which tries the longest candidate first. */
  method LongestEndMarkerPrefixSuffix(captured: Bytes, pattern: Bytes) returns (k: nat)
    ensures pattern == [] ==> k == 0
    ensures pattern != [] ==> HeldBy(captured, pattern, k) && k == HoldBack(captured, pattern)
  {
    if pattern == [] {
      return 0;
    }
    k := if |pattern| - 1 < |captured| then |pattern| - 1 else |captured|;
    while k > 0
      invariant k < |pattern| && k <= |captured|
      invariant HoldBackFrom(captured, pattern, k) == HoldBack(captured, pattern)
    {
      if captured[|captured| - k..] == pattern[..k] {
        return;
      }
      k := k - 1;
    }
  }

  /** Whatever arrives next, no occurrence starts before the held-back suffix. */
  lemma HoldBackCoversOccurrence(a: Bytes, b: Bytes, pat: Bytes, i: int)
    requires pat != []
    requires IndexOf(a, pat) < 0
    requires OccursAt(a + b, pat, i)
    ensures |a| - HoldBack(a, pat) <= i
  {
    NewOccurrenceIsLate(a, b, pat, i);
    if i < |a| {
      var k := |a| - i;
      assert a[|a| - k..] == (a + b)[i..i + |pat|][..k] == pat[..k];
      HoldBackIsLongest(a, pat, k);
    }
  }

  /** The safe length never shrinks as text arrives. */
  lemma SafeLengthGrows(a: Bytes, b: Bytes, pat: Bytes)
    requires pat != []
    ensures |a| - HoldBack(a, pat) <= |a + b| - HoldBack(a + b, pat)
  {
    var k := HoldBack(a + b, pat);
    if |b| < k {
      var j := k - |b|;
      assert a[|a| - j..] == (a + b)[|a + b| - k..][..j] == pat[..k][..j] == pat[..j];
      HoldBackIsLongest(a, pat, j);
    }
  }
}
