/**
 UTF-8 as Go's unicode/utf8 reads it (sections 3 and 4 of RFC 3629), and the two
 helpers toolboxd cuts text with: the whole-character prefix of a buffer, and the
 same-length text in which stray bytes become question marks. Every function
 looks at a position in a fixed text, so one text can be compared with a part of it.
 */
module Utf8 {
  import opened ByteStrings

  const QUESTION: Byte := '?' as int

  predicate Continuation(b: Byte) {
    0x80 <= b <= 0xBF
  }

  /** `utf8.RuneStart`. */
  predicate RuneStart(b: Byte) {
    !Continuation(b)
  }

  /** A byte a character may begin with. */
  predicate Begins(b: Byte) {
    b < 0x80 || 0xC2 <= b <= 0xF4
  }

  /** The length of a character that begins with `b`; 1 for a byte none begins with. */
  function Width(b: Byte): (n: nat)
    ensures 1 <= n <= 4
  {
    if b < 0xC2 then 1 else if b <= 0xDF then 2 else if b <= 0xEF then 3 else if b <= 0xF4 then 4 else 1
  }

  /** What the second byte may be: no overlong form, no surrogate, nothing past U+10FFFF. */
  predicate SecondOk(first: Byte, second: Byte) {
    && (if first == 0xE0 then 0xA0 else if first == 0xF0 then 0x90 else 0x80) <= second
    && second <= (if first == 0xED then 0x9F else if first == 0xF4 then 0x8F else 0xBF)
  }

  /** `utf8.DecodeRune(s[i:])`: the character's length, or 0 where Go reports an error of width 1. */
  function RuneAt(s: Bytes, i: nat): (n: nat)
    requires i < |s|
    ensures i + n <= |s| && n <= 4
  {
    var n := Width(s[i]);
    if !Begins(s[i]) || |s| - i < n then 0
    else if n >= 2 && !SecondOk(s[i], s[i + 1]) then 0
    else if n >= 3 && !Continuation(s[i + 2]) then 0
    else if n >= 4 && !Continuation(s[i + 3]) then 0
    else n
  }

  /** `utf8.FullRune(s[i:])`. */
  predicate FullRune(s: Bytes, i: nat)
    requires i <= |s|
  {
    && i < |s|
    && (|s| - i >= Width(s[i]) || (|s| - i > 1 && !SecondOk(s[i], s[i + 1])) || (|s| - i > 2 && !Continuation(s[i + 2])))
  }

  /** No bytes added behind `s` change how the character at `i` decodes. */
  ghost predicate Decided(s: Bytes, i: nat)
    requires i < |s|
  {
    forall more: Bytes :: RuneAt(s + more, i) == RuneAt(s, i)
  }

  /** Bytes that complete the character begun at `i`. */
  function Completion(s: Bytes, i: nat): Bytes
    requires i < |s|
  {
    var second: Byte := if s[i] == 0xE0 then 0xA0 else if s[i] == 0xF0 then 0x90 else 0x80;
    (if |s| - i > 1 then [] else [second]) + [0x80, 0x80]
  }

  lemma CompletionChanges(s: Bytes, i: nat)
    requires i < |s| && RuneStart(s[i]) && !FullRune(s, i)
    ensures RuneAt(s, i) == 0 && RuneAt(s + Completion(s, i), i) > 0
  {
    var all := s + Completion(s, i);
    assert forall j :: 0 <= j < |s| ==> all[j] == s[j];
  }

  /** FullRune says exactly that: a character it does not hold of decodes differently once completed. */
  lemma FullRuneExactly(s: Bytes, i: nat)
    requires i < |s| && RuneStart(s[i])
    ensures FullRune(s, i) <==> Decided(s, i)
  {
    if FullRune(s, i) {
      forall more: Bytes
        ensures RuneAt(s + more, i) == RuneAt(s, i)
      {
        assert forall j :: 0 <= j < |s| ==> (s + more)[j] == s[j];
      }
    } else {
      CompletionChanges(s, i);
      assert RuneAt(s + Completion(s, i), i) != RuneAt(s, i);
    }
  }

  // ----- A text and a part of it -----

  /** `w` is what `s` holds from `from` on. */
  ghost predicate Part(w: Bytes, s: Bytes, from: nat) {
    from + |w| <= |s| && forall x {:trigger w[x]} :: 0 <= x < |w| ==> w[x] == s[from + x]
  }

  // ----- An independent definition: the encoding of a scalar value -----

  predicate ScalarValue(c: int) {
    0 <= c < 0xD800 || 0xE000 <= c < 0x11_0000
  }

  function Encode(c: int): Bytes
    requires ScalarValue(c)
  {
    if c < 0x80 then [c]
    else if c < 0x800 then [0xC0 + c / 64, 0x80 + c % 64]
    else if c < 0x1_0000 then [0xE0 + c / 64 / 64, 0x80 + c / 64 % 64, 0x80 + c % 64]
    else [0xF0 + c / 64 / 64 / 64, 0x80 + c / 64 / 64 % 64, 0x80 + c / 64 % 64, 0x80 + c % 64]
  }

  function Push(value: int, b: int): int {
    64 * value + (b - 0x80)
  }

  function Decode(s: Bytes, i: nat): int
    requires i < |s| && RuneAt(s, i) > 0
  {
    var n := RuneAt(s, i);
    var first: int := s[i];
    if n == 1 then first
    else if n == 2 then Push(first - 0xC0, s[i + 1])
    else if n == 3 then Push(Push(first - 0xE0, s[i + 1]), s[i + 2])
    else Push(Push(Push(first - 0xF0, s[i + 1]), s[i + 2]), s[i + 3])
  }

  lemma PushSplits(value: int, b: int)
    requires 0x80 <= b <= 0xBF
    ensures Push(value, b) / 64 == value && Push(value, b) % 64 == b - 0x80
  {
  }

  lemma PushOfParts(c: int)
    ensures Push(c / 64, 0x80 + c % 64) == c
  {
  }

  /** What is read as a character is the encoding of a scalar value. */
  lemma DecodedIsEncoded(s: Bytes, i: nat)
    requires i < |s| && RuneAt(s, i) > 0
    ensures ScalarValue(Decode(s, i))
    ensures |Encode(Decode(s, i))| == RuneAt(s, i) && Part(Encode(Decode(s, i)), s, i)
  {
    var n := RuneAt(s, i);
    if n == 2 {
      PushSplits(s[i] as int - 0xC0, s[i + 1]);
    } else if n == 3 {
      var v: int := Push(s[i] as int - 0xE0, s[i + 1]);
      PushSplits(s[i] as int - 0xE0, s[i + 1]);
      PushSplits(v, s[i + 2]);
    } else if n == 4 {
      var v: int := Push(s[i] as int - 0xF0, s[i + 1]);
      PushSplits(s[i] as int - 0xF0, s[i + 1]);
      PushSplits(v, s[i + 2]);
      PushSplits(Push(v, s[i + 2]), s[i + 3]);
    }
  }

  /** The encoding of a scalar value is read back whole, whatever follows it. */
  lemma EncodedIsDecoded(c: int, rest: Bytes)
    requires ScalarValue(c)
    ensures RuneAt(Encode(c) + rest, 0) == |Encode(c)| && Decode(Encode(c) + rest, 0) == c
  {
    PushOfParts(c);
    PushOfParts(c / 64);
    PushOfParts(c / 64 / 64);
  }

  // ----- Decoding in a text and in a part of it -----

  /** A character settled within the part decodes the same in the whole. */
  lemma SettledInPart(w: Bytes, s: Bytes, from: nat, i: nat)
    requires Part(w, s, from) && i < |w| && (RuneStart(w[i]) ==> FullRune(w, i))
    ensures RuneAt(s, from + i) == RuneAt(w, i)
  {
  }

  /** A character of the whole that ends within the part decodes the same in the part. */
  lemma RuneInPart(w: Bytes, s: Bytes, from: nat, i: nat)
    requires Part(w, s, from) && i < |w| && i + RuneAt(s, from + i) <= |w|
    ensures RuneAt(w, i) == RuneAt(s, from + i)
  {
  }

  /** A later byte that starts a character settles the one before it. */
  lemma LaterStartSettles(s: Bytes, j: nat, k: nat)
    requires j < k < |s| && RuneStart(s[k])
    ensures FullRune(s, j) && j + RuneAt(s, j) <= k
  {
  }

  // ----- wholeRunesLen -----

  /** No character that starts in the first `n` bytes of `s` is waiting for more bytes. */
  ghost predicate Settled(s: Bytes, n: nat) {
    n <= |s| && forall i :: 0 <= i < n && RuneStart(s[i]) ==> FullRune(s, i)
  }

  function WholeFrom(s: Bytes, i: int): (n: nat)
    requires -1 <= i < |s|
    ensures n <= |s|
    decreases i + 1
  {
    if i < 0 || i <= |s| - 4 then |s|
    else if RuneStart(s[i]) then (if FullRune(s, i) then |s| else i)
    else WholeFrom(s, i - 1)
  }

  /** Where `s` stops being whole: before a character it breaks off in the middle of, or at its end. */
  function WholeRunesLen(s: Bytes): (n: nat)
    ensures n <= |s|
  {
    WholeFrom(s, |s| - 1)
  }

  /** The loop of wholeRunesLen: at most three bytes back from the end. */
  method FindWholeRunesLen(text: Bytes) returns (n: nat)
    ensures n == WholeRunesLen(text)
  {
    var i := |text| - 1;
    while i >= 0 && i > |text| - 4
      invariant -1 <= i < |text|
      invariant WholeFrom(text, i) == WholeRunesLen(text)
    {
      if RuneStart(text[i]) {
        if FullRune(text, i) {
          return |text|;
        }
        return i;
      }
      i := i - 1;
    }
    return |text|;
  }

  lemma {:induction false} WholeFromMeaning(s: Bytes, i: int)
    requires -1 <= i < |s|
    requires forall j :: i < j < |s| ==> !RuneStart(s[j])
    ensures var n := WholeFrom(s, i);
      Settled(s, n) && (n < |s| ==> |s| - n <= 3 && RuneStart(s[n]) && !FullRune(s, n))
    decreases i + 1
  {
    if i >= 0 && i > |s| - 4 && !RuneStart(s[i]) {
      WholeFromMeaning(s, i - 1);
    } else {
      forall j | 0 <= j < WholeFrom(s, i) && RuneStart(s[j]) ensures FullRune(s, j) {
        if j < i && RuneStart(s[i]) {
          LaterStartSettles(s, j, i);
        }
      }
    }
  }

  /**
   wholeRunesLen is the longest prefix all of whose characters are settled, and it
   cuts at most three bytes, at a byte that starts a character.
   */
  lemma WholeRunesLenMeaning(s: Bytes)
    ensures var n := WholeRunesLen(s);
      && |s| - n <= 3 && (n < |s| ==> RuneStart(s[n]))
      && forall k: nat :: k <= |s| ==> (Settled(s, k) <==> k <= n)
  {
    WholeFromMeaning(s, |s| - 1);
  }

  ghost predicate AllDecided(s: Bytes, n: nat) {
    n <= |s| && forall i :: 0 <= i < n && RuneStart(s[i]) ==> Decided(s, i)
  }

  /** The cut is the last one before which whatever is written next changes no character. */
  lemma WholeRunesLenIsExact(s: Bytes)
    ensures var n := WholeRunesLen(s);
      && |s| - n <= 3 && (n < |s| ==> RuneStart(s[n]))
      && forall k: nat :: k <= |s| ==> (AllDecided(s, k) <==> k <= n)
  {
    WholeRunesLenMeaning(s);
    forall k: nat | k <= |s|
      ensures AllDecided(s, k) <==> Settled(s, k)
    {
      forall i | 0 <= i < k && RuneStart(s[i])
        ensures FullRune(s, i) <==> Decided(s, i)
      {
        FullRuneExactly(s, i);
      }
    }
  }

  // ----- Where decoding stops -----

  /** How far decoding moves: one character, or one byte that is part of none. */
  function Advance(s: Bytes, i: nat): (n: nat)
    requires i < |s|
    ensures 1 <= n && i + n <= |s|
  {
    if RuneAt(s, i) == 0 then 1 else RuneAt(s, i)
  }

  /** Decoding from `i`, character by character, comes to a stop at `k`. */
  predicate Stops(s: Bytes, i: nat, k: nat)
    decreases k - i
  {
    i == k || (i < k && i < |s| && Stops(s, i + Advance(s, i), k))
  }

  lemma {:induction false} StopsCompose(s: Bytes, i: nat, j: nat, k: nat)
    requires Stops(s, i, j) && Stops(s, j, k)
    ensures Stops(s, i, k)
    decreases j - i
  {
    if i != j {
      StopsCompose(s, i + Advance(s, i), j, k);
      StopsForward(s, j, k);
    }
  }

  lemma {:induction false} StopsForward(s: Bytes, i: nat, k: nat)
    requires Stops(s, i, k)
    ensures i <= k && (i <= |s| ==> k <= |s|)
    decreases k - i
  {
    if i != k {
      StopsForward(s, i + Advance(s, i), k);
    }
  }

  lemma {:induction false} StopsAtEnd(s: Bytes, i: nat)
    requires i <= |s|
    ensures Stops(s, i, |s|)
    decreases |s| - i
  {
    if i < |s| {
      StopsAtEnd(s, i + Advance(s, i));
    }
  }

  /** Decoding the whole stops after the settled prefix of a part, whatever bytes come later. */
  lemma {:induction false} SettledStops(w: Bytes, s: Bytes, from: nat, n: nat, i: nat)
    requires Part(w, s, from) && Settled(w, n) && (n == |w| || RuneStart(w[n]))
    requires i <= n
    ensures Stops(s, from + i, from + n)
    decreases n - i
  {
    if i < n {
      SettledInPart(w, s, from, i);
      if n < |w| {
        LaterStartSettles(w, i, n);
      }
      SettledStops(w, s, from, n, i + Advance(w, i));
    }
  }

  // ----- sameLengthUTF8 -----

  /** Whether byte `j` is part of a character, decoding from `i`. */
  predicate Kept(s: Bytes, i: nat, j: nat)
    requires i <= j < |s|
    decreases |s| - i
  {
    if j < i + Advance(s, i) then RuneAt(s, i) > 0 else Kept(s, i + Advance(s, i), j)
  }

  /** The text with a question mark for every stray byte. */
  function SameLength(s: Bytes): (r: Bytes)
    ensures |r| == |s|
    ensures forall j :: 0 <= j < |s| ==> r[j] == if Kept(s, 0, j) then s[j] else QUESTION
  {
    seq(|s|, j requires 0 <= j < |s| => if Kept(s, 0, j) then s[j] else QUESTION)
  }

  /** Past a stop it does not matter where decoding began. */
  lemma {:induction false} KeptFromStop(s: Bytes, i: nat, k: nat, j: nat)
    requires Stops(s, i, k) && i <= k <= j < |s|
    ensures Kept(s, i, j) == Kept(s, k, j)
    decreases k - i
  {
    if i != k {
      StopsForward(s, i + Advance(s, i), k);
      KeptFromStop(s, i + Advance(s, i), k, j);
    }
  }

  /** A part that ends at a stop keeps the same bytes the whole keeps. */
  lemma {:induction false} KeptInPart(w: Bytes, s: Bytes, from: nat, i: nat, j: nat)
    requires Part(w, s, from) && i <= j < |w| && Stops(s, from + i, from + |w|)
    ensures Kept(w, i, j) == Kept(s, from + i, from + j)
    decreases |w| - i
  {
    StopsForward(s, from + i + Advance(s, from + i), from + |w|);
    RuneInPart(w, s, from, i);
    if j >= i + Advance(w, i) {
      KeptInPart(w, s, from, i + Advance(w, i), j);
    }
  }

  lemma SameByteOfPart(w: Bytes, s: Bytes, from: nat, j: nat)
    requires Part(w, s, from) && Stops(s, 0, from) && Stops(s, from, from + |w|) && j < |w|
    ensures SameLength(w)[j] == SameLength(s)[from + j]
  {
    KeptInPart(w, s, from, 0, j);
    KeptFromStop(s, 0, from, from + j);
  }

  /** Between two stops, a part's same-length text is the same part of the whole's. */
  lemma SameLengthOfPart(w: Bytes, s: Bytes, from: nat)
    requires Part(w, s, from) && Stops(s, 0, from) && Stops(s, from, from + |w|)
    ensures Part(SameLength(w), SameLength(s), from)
  {
    forall j | 0 <= j < |w| ensures SameLength(w)[j] == SameLength(s)[from + j] {
      SameByteOfPart(w, s, from, j);
    }
  }

  /** `utf8.Valid(s[i:])`. */
  predicate Valid(s: Bytes, i: nat)
    requires i <= |s|
    decreases |s| - i
  {
    i == |s| || (RuneAt(s, i) > 0 && Valid(s, i + RuneAt(s, i)))
  }

  lemma {:induction false} ValidKept(s: Bytes, i: nat, j: nat)
    requires i <= j < |s| && Valid(s, i)
    ensures Kept(s, i, j)
    decreases |s| - i
  {
    if j >= i + Advance(s, i) {
      ValidKept(s, i + Advance(s, i), j);
    }
  }

  /** Valid text goes out unchanged. */
  lemma ValidUnchanged(s: Bytes)
    requires Valid(s, 0)
    ensures SameLength(s) == s
  {
    forall j | 0 <= j < |s| ensures SameLength(s)[j] == s[j] {
      ValidKept(s, 0, j);
    }
  }

  /** The bytes of a character at a stop are all kept, a stray byte is not. */
  lemma {:induction false} KeptAtStop(s: Bytes, i: nat, j: nat)
    requires i < |s| && Stops(s, 0, i) && i <= j < i + Advance(s, i)
    ensures Kept(s, 0, j) == (RuneAt(s, i) > 0)
  {
    KeptFromStop(s, 0, i, j);
  }

  /** The text that goes out is always valid UTF-8. */
  lemma {:induction false} SameLengthIsValid(s: Bytes, i: nat)
    requires i <= |s| && Stops(s, 0, i)
    ensures Valid(SameLength(s), i)
    decreases |s| - i
  {
    if i < |s| {
      var n := Advance(s, i);
      StopsCompose(s, 0, i, i + n);
      SameLengthIsValid(s, i + n);
      var r := SameLength(s);
      forall j | i <= j < i + n ensures r[j] == if RuneAt(s, i) > 0 then s[j] else QUESTION {
        KeptAtStop(s, i, j);
      }
      SameRune(s, r, i);
    }
  }

  lemma SameRune(s: Bytes, r: Bytes, i: nat)
    requires i < |s| == |r|
    requires forall j :: i <= j < i + Advance(s, i) ==> r[j] == if RuneAt(s, i) > 0 then s[j] else QUESTION
    ensures RuneAt(r, i) == Advance(s, i)
  {
  }

  /** A valid text cut at a stop is valid. */
  lemma {:induction false} ValidPrefix(w: Bytes, s: Bytes, i: nat)
    requires Part(w, s, 0) && i <= |w| && Valid(s, i) && Stops(s, i, |w|)
    ensures Valid(w, i)
    decreases |w| - i
  {
    if i < |w| {
      StopsForward(s, i + Advance(s, i), |w|);
      RuneInPart(w, s, 0, i);
      ValidPrefix(w, s, i + RuneAt(w, i));
    }
  }

  /** What the loop below does next: one character kept, or one byte replaced. */
  lemma NextStretch(text: Bytes, i: nat)
    requires i < |text| && Stops(text, 0, i)
    ensures Stops(text, 0, i + Advance(text, i))
    ensures forall j :: i <= j < i + Advance(text, i) ==>
      SameLength(text)[j] == if RuneAt(text, i) > 0 then text[j] else QUESTION
  {
    StopsCompose(text, 0, i, i + Advance(text, i));
    forall j | i <= j < i + Advance(text, i)
      ensures Kept(text, 0, j) == (RuneAt(text, i) > 0)
    {
      KeptAtStop(text, i, j);
    }
  }

  /** sameLengthUTF8, in place on a copy. */
  method SameLengthUtf8(text: Bytes) returns (r: Bytes)
    ensures r == SameLength(text)
  {
    if Valid(text, 0) {
      ValidUnchanged(text);
      return text;
    }
    var out := new Byte[|text|](i requires 0 <= i < |text| => text[i]);
    ghost var whole := SameLength(text);
    var i := 0;
    while i < |text|
      invariant 0 <= i <= |text| == out.Length && Stops(text, 0, i)
      invariant forall j :: i <= j < |text| ==> out[j] == text[j]
      invariant forall j :: 0 <= j < i ==> out[j] == whole[j]
    {
      ghost var before := out[..];
      SameTail(before, text, i);
      NextStretch(text, i);
      var n := RuneAt(out[..], i);
      if n == 0 {
        out[i] := QUESTION;
        n := 1;
      }
      i := i + n;
    }
    assert out[..] == whole;
    return out[..];
  }

  /** Decoding at `i` looks only at the bytes from `i` on. */
  lemma SameTail(a: Bytes, b: Bytes, i: nat)
    requires |a| == |b| && i < |a| && forall j :: i <= j < |a| ==> a[j] == b[j]
    ensures RuneAt(a, i) == RuneAt(b, i)
  {
  }
}
