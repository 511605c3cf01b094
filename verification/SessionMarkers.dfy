/**
 The markers the session command runner delimits one command with, and the exit
 code it reads after the end marker.
 */
module SessionMarkers {
  import opened Options
  import opened ByteStrings

  /** The start marker, the end marker with its colon, and the stderr sentinel with its newline. */
  datatype Markers = Markers(start: Bytes, pattern: Bytes, sentinel: Bytes)
  {
    /** What the runner itself relies on: nothing is empty, and the end marker does not begin a line. */
    ghost predicate Usable() {
      start != [] && pattern != [] && sentinel != [] && pattern[0] != NEWLINE
    }
  }

  function Ascii(s: string): (b: Bytes)
    requires forall i :: 0 <= i < |s| ==> s[i] < 128 as char
    ensures |b| == |s| && forall i :: 0 <= i < |s| ==> b[i] == s[i] as int
  {
    seq(|s|, i requires 0 <= i < |s| => s[i] as int)
  }

  const COLON: Byte := ':' as int

  /** A command id: eight random bytes in hexadecimal. */
  predicate CommandId(id: Bytes) {
    forall i :: 0 <= i < |id| ==> '0' as int <= id[i] <= '9' as int || 'a' as int <= id[i] <= 'f' as int
  }

  function MarkersFor(id: Bytes): (m: Markers) {
    Markers(
      Ascii("__SB_DAYTONA_START_") + id + Ascii("__"),
      Ascii("__SB_DAYTONA_END_") + id + Ascii("__") + [COLON],
      Ascii("__SB_DAYTONA_ERR_") + id + Ascii("__") + [NEWLINE])
  }

  /** The end pattern and the sentinel end in a byte they hold nowhere else, so neither overlaps itself. */
  lemma MarkersDoNotOverlap(id: Bytes)
    requires CommandId(id)
    ensures MarkersFor(id).Usable()
    ensures Unbordered(MarkersFor(id).pattern) && Unbordered(MarkersFor(id).sentinel)
  {
    var m := MarkersFor(id);
    var p := Ascii("__SB_DAYTONA_END_") + id + Ascii("__");
    var e := Ascii("__SB_DAYTONA_ERR_") + id + Ascii("__");
    PlainBytes("__SB_DAYTONA_END_");
    PlainBytes("__SB_DAYTONA_ERR_");
    assert m.pattern[..|p|] == p && m.sentinel[..|e|] == e;
    assert m.pattern[0] == Ascii("__SB_DAYTONA_END_")[0];
    LastByteUniqueIsUnbordered(m.pattern);
    LastByteUniqueIsUnbordered(m.sentinel);
  }

  lemma PlainBytes(s: string)
    requires forall i :: 0 <= i < |s| ==> s[i] == '_' || 'A' <= s[i] <= 'Z'
    ensures forall i :: 0 <= i < |s| ==> Ascii(s)[i] != COLON && Ascii(s)[i] != NEWLINE
  {
  }

  // ----- The exit code -----

  predicate IsSpace(b: Byte) {
    9 <= b <= 13 || b == 32
  }

  function TrimLeft(s: Bytes): Bytes {
    if s != [] && IsSpace(s[0]) then TrimLeft(s[1..]) else s
  }

  function TrimRight(s: Bytes): Bytes {
    if s != [] && IsSpace(s[|s| - 1]) then TrimRight(s[..|s| - 1]) else s
  }

  predicate IsDigit(b: Byte) {
    '0' as int <= b <= '9' as int
  }

  predicate AllDigits(s: Bytes) {
    forall i :: 0 <= i < |s| ==> IsDigit(s[i])
  }

  function DigitsValue(s: Bytes): nat
    requires AllDigits(s)
  {
    if s == [] then 0 else 10 * DigitsValue(s[..|s| - 1]) + (s[|s| - 1] - '0' as int)
  }

  /** `strconv.ParseInt(s, 10, 32)`. */
  function ParseInt32(s: Bytes): Option<int> {
    var negative := s != [] && s[0] == '-' as int;
    var digits := if s != [] && (s[0] == '-' as int || s[0] == '+' as int) then s[1..] else s;
    if digits == [] || !AllDigits(digits) then None
    else
      var v := if negative then 0 - DigitsValue(digits) else DigitsValue(digits);
      if -0x8000_0000 <= v < 0x8000_0000 then Some(v) else None
  }

  /** What a status line is taken to say; anything but a number is a failure. */
  function ExitCode(line: Bytes): int {
    match ParseInt32(TrimRight(TrimLeft(line)))
    case Some(v) => v
    case None => 1
  }

  /** Digits with or without a sign are a number if it fits 32 bits. */
  lemma ParseSigned(digits: Bytes)
    requires digits != [] && AllDigits(digits)
    ensures var v: int := DigitsValue(digits);
      && ParseInt32(digits) == (if v <= 0x7fff_ffff then Some(v) else None)
      && ParseInt32(['+' as int] + digits) == (if v <= 0x7fff_ffff then Some(v) else None)
      && ParseInt32(['-' as int] + digits) == (if v <= 0x8000_0000 then Some(-v) else None)
  {
    assert (['+' as int] + digits)[1..] == digits && (['-' as int] + digits)[1..] == digits;
    assert IsDigit(digits[0]);
  }

  /** Nothing else is a number. */
  lemma ParsedIsNumber(s: Bytes)
    requires ParseInt32(s).Some?
    ensures s != []
    ensures var digits := if s[0] == '+' as int || s[0] == '-' as int then s[1..] else s;
      digits != [] && AllDigits(digits)
  {
  }

  /** Tabs, line ends, form feeds and spaces. */
  predicate AllBlank(s: Bytes) {
    forall i :: 0 <= i < |s| ==> 9 <= s[i] <= 13 || s[i] == 32
  }

  lemma {:induction false} BlankBefore(blanks: Bytes, s: Bytes)
    requires AllBlank(blanks)
    ensures TrimLeft(blanks + s) == TrimLeft(s)
    decreases |blanks|
  {
    if blanks == [] {
      assert blanks + s == s;
    } else {
      BlankBefore(blanks[1..], s);
      assert (blanks + s)[1..] == blanks[1..] + s;
    }
  }

  lemma {:induction false} BlankAfter(s: Bytes, blanks: Bytes)
    requires AllBlank(blanks)
    ensures TrimRight(s + blanks) == TrimRight(s)
    decreases |blanks|
  {
    if blanks == [] {
      assert s + blanks == s;
    } else {
      var n := |blanks| - 1;
      BlankAfter(s, blanks[..n]);
      assert (s + blanks)[..|s| + n] == s + blanks[..n];
    }
  }

  lemma TrimNone(s: Bytes)
    requires s != [] ==> !IsSpace(s[0]) && !IsSpace(s[|s| - 1])
    ensures TrimLeft(s) == s && TrimRight(s) == s
  {
  }

  /** The exit code of a status with blanks around it is the status, and what is no number counts as a failure. */
  lemma ExitCodeExactly(before: Bytes, s: Bytes, after: Bytes)
    requires AllBlank(before) && AllBlank(after)
    requires s != [] && !IsSpace(s[0]) && !IsSpace(s[|s| - 1])
    ensures ExitCode(before + (s + after)) == if ParseInt32(s).Some? then ParseInt32(s).value else 1
  {
    BlankBefore(before, s + after);
    assert (s + after)[0] == s[0];
    BlankAfter(s, after);
    TrimNone(s);
  }

  function Decimal(n: nat): (s: Bytes)
    ensures s != [] && AllDigits(s)
  {
    if n < 10 then [n + '0' as int] else Decimal(n / 10) + [n % 10 + '0' as int]
  }

  lemma {:induction false} DecimalValue(n: nat)
    ensures DigitsValue(Decimal(n)) == n
  {
    if n >= 10 {
      DecimalValue(n / 10);
      var s := Decimal(n);
      assert s[..|s| - 1] == Decimal(n / 10);
    } else {
      assert Decimal(n)[..0] == [];
    }
  }

  /** The status the shell prints is the exit code the runner records. */
  lemma ExitCodeOfDecimal(n: nat)
    requires n < 0x8000_0000
    ensures ExitCode(Decimal(n)) == n
    ensures forall i :: 0 <= i < |Decimal(n)| ==> Decimal(n)[i] != NEWLINE
  {
    var s := Decimal(n);
    assert IsDigit(s[0]) && IsDigit(s[|s| - 1]);
    DecimalValue(n);
  }
}
