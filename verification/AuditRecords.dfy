/** The audit records an access review reads, and how it shows their values. */
module AuditRecords {
  import opened Options

  datatype Caller = Caller(kind: string, id: string, name: string, team: string)

  datatype Request = Request(count: int, source: string, routes: seq<string>)

  /** The fields of a record the review uses; times are instants. */
  datatype Event = Event(
    time: int, kind: string, result: string, reason: string, ref: string,
    dropped: int, caller: Option<Caller>, request: Option<Request>)

  /** The zero time of a row nothing has set yet. */
  const ZERO_TIME: int := 0

  const KIND_API := "api"
  const KIND_GAP := "gap"
  const KIND_AUTH_DENIED := "auth_denied"
  const RESULT_DENIED := "denied"
  const REASON_RATE_LIMITED := "rate_limited"
  const MAX_RUNES := 256

  // ----- Values as the report shows them -----

  predicate Control(c: char) {
    c < ' ' || '\U{7f}' <= c <= '\U{9f}'
  }

  predicate Space(c: char) {
    || c == ' ' || '\t' <= c <= '\r' || c == '\U{85}' || c == '\U{a0}' || c == '\U{1680}' || '\U{2000}' <= c <= '\U{200a}'
    || c == '\U{2028}' || c == '\U{2029}' || c == '\U{202f}' || c == '\U{205f}' || c == '\U{3000}'
  }

  function TrimLeft(s: string): string {
    if |s| > 0 && Space(s[0]) then TrimLeft(s[1..]) else s
  }

  function TrimRight(s: string): string {
    if |s| > 0 && Space(s[|s| - 1]) then TrimRight(s[..|s| - 1]) else s
  }

  function Trimmed(s: string): string {
    TrimRight(TrimLeft(s))
  }

  function Printable(s: string, room: nat): string {
    if |s| == 0 then ""
    else if Control(s[0]) then Printable(s[1..], room)
    else if room == 0 then ""
    else [s[0]] + Printable(s[1..], room - 1)
  }

  lemma {:induction false} PrintableMeaning(s: string, room: nat)
    ensures |Printable(s, room)| <= room && forall i :: 0 <= i < |Printable(s, room)| ==> !Control(Printable(s, room)[i])
  {
    if |s| > 0 && Control(s[0]) {
      PrintableMeaning(s[1..], room);
    } else if |s| > 0 && room > 0 {
      PrintableMeaning(s[1..], room - 1);
    }
  }

  function Clean(s: string): string {
    Printable(Trimmed(s), MAX_RUNES)
  }

  /** A cleaned value is short and printable throughout. */
  lemma CleanIsPrintable(s: string)
    ensures |Clean(s)| <= MAX_RUNES && forall i :: 0 <= i < |Clean(s)| ==> !Control(Clean(s)[i])
  {
    PrintableMeaning(Trimmed(s), MAX_RUNES);
  }

  predicate AllSpace(s: string) {
    forall i :: 0 <= i < |s| ==> Space(s[i])
  }

  lemma {:induction false} LeftTrimmed(s: string) returns (a: string)
    ensures s == a + TrimLeft(s) && AllSpace(a) && (|TrimLeft(s)| > 0 ==> !Space(TrimLeft(s)[0]))
    decreases |s|
  {
    a := "";
    if |s| > 0 && Space(s[0]) {
      a := LeftTrimmed(s[1..]);
      assert s == [s[0]] + (a + TrimLeft(s[1..]));
      a := [s[0]] + a;
    }
  }

  lemma {:induction false} RightTrimmed(s: string) returns (b: string)
    ensures s == TrimRight(s) + b && AllSpace(b) && (|TrimRight(s)| > 0 ==> !Space(TrimRight(s)[|TrimRight(s)| - 1]))
    decreases |s|
  {
    b := "";
    var n := |s| - 1;
    if |s| > 0 && Space(s[n]) {
      b := RightTrimmed(s[..n]);
      assert s == (TrimRight(s[..n]) + b) + [s[n]];
      b := b + [s[n]];
    }
  }

  /** Trimming takes the white space off both ends and nothing else. */
  lemma TrimmedMeaning(s: string) returns (a: string, b: string)
    ensures s == a + Trimmed(s) + b && AllSpace(a) && AllSpace(b)
    ensures |Trimmed(s)| > 0 ==> !Space(Trimmed(s)[0]) && !Space(Trimmed(s)[|Trimmed(s)| - 1])
  {
    a := LeftTrimmed(s);
    b := RightTrimmed(TrimLeft(s));
    assert s == a + (Trimmed(s) + b);
  }

  /** A text without control characters is kept up to the cap. */
  lemma {:induction false} PrintableKeeps(s: string, room: nat)
    requires forall i :: 0 <= i < |s| ==> !Control(s[i])
    ensures Printable(s, room) == if |s| <= room then s else s[..room]
    decreases |s|
  {
    if |s| > 0 && room > 0 {
      PrintableKeeps(s[1..], room - 1);
      assert s == [s[0]] + s[1..];
    }
  }

  /** A control character makes no difference, wherever it stands. */
  lemma {:induction false} PrintableSkips(a: string, c: char, b: string, room: nat)
    requires Control(c)
    ensures Printable(a + [c] + b, room) == Printable(a + b, room)
    decreases |a|
  {
    if |a| == 0 {
      assert (a + [c] + b)[1..] == b && a + b == b;
    } else {
      assert (a + [c] + b)[1..] == a[1..] + [c] + b && (a + b)[1..] == a[1..] + b;
      PrintableSkips(a[1..], c, b, room);
      if room > 0 {
        PrintableSkips(a[1..], c, b, room - 1);
      }
    }
  }

  /** What one more character of the loop below makes of the name so far. */
  lemma PrintableInTurn(t: string, i: nat, r: string)
    requires i < |t| && |r| <= MAX_RUNES
    ensures r + Printable(t[i..], MAX_RUNES - |r|) ==
      if Control(t[i]) then r + Printable(t[i + 1..], MAX_RUNES - |r|)
      else if |r| == MAX_RUNES then r else (r + [t[i]]) + Printable(t[i + 1..], MAX_RUNES - |r| - 1)
  {
  }

  method SanitizeDisplayName(s: string) returns (r: string)
    ensures r == Clean(s)
  {
    var t := Trimmed(s);
    r := KeepPrintable(t);
  }

  method KeepPrintable(t: string) returns (r: string)
    ensures r == Printable(t, MAX_RUNES)
  {
    r := "";
    assert t[0..] == t;
    for i := 0 to |t|
      invariant |r| <= MAX_RUNES && Printable(t, MAX_RUNES) == r + Printable(t[i..], MAX_RUNES - |r|)
    {
      PrintableInTurn(t, i, r);
      if Control(t[i]) {
        continue;
      }
      if |r| == MAX_RUNES {
        break;
      }
      r := r + [t[i]];
    }
  }

  function OrUnknown(s: string): string {
    if s == "" then "unknown" else s
  }

  function Joined(parts: seq<string>): string {
    if |parts| == 0 then "" else if |parts| == 1 then parts[0] else parts[0] + ", " + Joined(parts[1..])
  }

  /** How a record is named when it is its caller's most recent one. */
  function ActionText(ev: Event): string {
    if ev.reason == REASON_RATE_LIMITED && ev.request.Some? && |ev.request.value.routes| > 0
    then Clean("rate_limited " + Joined(ev.request.value.routes))
    else if ev.kind == KIND_API then Clean(ev.ref)
    else Trimmed(OrUnknown(Clean(ev.kind)) + " " + Clean(ev.ref))
  }

  /** Joining two lists of parts joins the two texts. */
  lemma {:induction false} JoinedBoth(a: seq<string>, b: seq<string>)
    requires |a| > 0 && |b| > 0
    ensures Joined(a + b) == Joined(a) + ", " + Joined(b) && Joined([a[0]]) == a[0]
    decreases |a|
  {
    assert (a + b)[1..] == a[1..] + b;
    if |a| > 1 {
      JoinedBoth(a[1..], b);
      var rest := Joined(a[1..]);
      assert a[0] + ", " + (rest + ", " + Joined(b)) == (a[0] + ", " + rest) + ", " + Joined(b);
    } else {
      assert a[1..] + b == b;
    }
  }

  /** A rate-limited record is named by its routes, an api record by its own, and any other by its kind and reference. */
  lemma ActionTextIs(ev: Event)
    ensures var limited := ev.reason == REASON_RATE_LIMITED && ev.request.Some? && ev.request.value.routes != [];
      && (limited ==> ActionText(ev) == Clean("rate_limited " + Joined(ev.request.value.routes)))
      && (!limited && ev.kind == KIND_API ==> ActionText(ev) == Clean(ev.ref))
      && (!limited && ev.kind != KIND_API && Clean(ev.kind) != "" ==> ActionText(ev) == Trimmed(Clean(ev.kind) + " " + Clean(ev.ref)))
  {
  }

  // ----- What a record counts for -----

  /** The calls a record stands for. */
  function CallCount(ev: Event): int {
    if ev.reason == REASON_RATE_LIMITED && ev.dropped > 0 then ev.dropped
    else if ev.request.Some? && ev.request.value.count > 1 then ev.request.value.count
    else 1
  }

  /** A refusal record counts itself and, if positive, the number folded into it. */
  function RefusalCount(ev: Event): int {
    1 + if ev.dropped > 0 then ev.dropped else 0
  }

  /**
   A record has a kind and stands for at least one call: for the dropped ones if it
   reports rate limiting, or else for those folded into it.
   */
  lemma CountsMeaning(ev: Event)
    ensures CallCount(ev) >= 1 && RefusalCount(ev) >= 1
    ensures ev.reason == REASON_RATE_LIMITED && ev.dropped >= 1 ==> CallCount(ev) == ev.dropped
    ensures ev.reason != REASON_RATE_LIMITED || ev.dropped <= 0 ==>
      (CallCount(ev) > 1 <==> ev.request.Some? && ev.request.value.count > 1)
      && (CallCount(ev) > 1 ==> CallCount(ev) == ev.request.value.count)
    ensures RefusalCount(ev) > 1 <==> ev.dropped > 0
    ensures ev.dropped > 0 ==> RefusalCount(ev) - ev.dropped == 1
    ensures CallKind(ev) != "" && (Clean(ev.kind) != "" ==> CallKind(ev) == Clean(ev.kind))
  {
  }

  function CallKind(ev: Event): string {
    OrUnknown(Clean(ev.kind))
  }

  /** A record counted against its caller. */
  predicate Counted(ev: Event) {
    ev.kind != KIND_GAP && ev.kind != KIND_AUTH_DENIED && ev.caller.Some? && Clean(ev.caller.value.id) != ""
  }

  /** What a counted record says about its caller, with every value cleaned. */
  datatype Act = Act(
    who: string, kind: string, name: string, team: string,
    callKind: string, calls: int, denied: bool, rateLimited: bool,
    time: int, action: string, node: string)

  function ActOf(node: string, ev: Event): Act
    requires ev.caller.Some?
  {
    var c := ev.caller.value;
    Act(Clean(c.id), Clean(c.kind), Clean(c.name), Clean(c.team), CallKind(ev), CallCount(ev),
        ev.kind == KIND_API && ev.result == RESULT_DENIED, ev.kind == KIND_API && ev.reason == REASON_RATE_LIMITED,
        ev.time, ActionText(ev), node)
  }
}
