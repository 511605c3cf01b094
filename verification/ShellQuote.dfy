/**
 The command line `aerolvm exec` builds from the words after "--", read back by a
 shell: token recognition and quote removal for unquoted text, the backslash and
 single quotes, as sections 2.2.1, 2.2.2 and 2.3 of POSIX.1-2017 XCU define them.
 */
module ShellQuote {
  // ----- Building the command line -----

  predicate SafeChar(c: char) {
    || 'a' <= c <= 'z' || 'A' <= c <= 'Z' || '0' <= c <= '9'
    || c == '@' || c == '%' || c == '+' || c == '=' || c == ':' || c == ',' || c == '.' || c == '/' || c == '-' || c == '_'
  }

  predicate Safe(s: string) {
    forall i :: 0 <= i < |s| ==> SafeChar(s[i])
  }

  /** Every single quote becomes: close the quotes, an escaped quote, open them again. */
  function Escaped(s: string): string {
    if |s| == 0 then "" else (if s[0] == '\'' then "'\\''" else [s[0]]) + Escaped(s[1..])
  }

  function Quoted(s: string): string {
    if s == "" then "''" else if Safe(s) then s else "'" + Escaped(s) + "'"
  }

  function Joined(words: seq<string>): string {
    if |words| == 0 then ""
    else if |words| == 1 then words[0]
    else words[0] + " " + Joined(words[1..])
  }

  function QuotedWords(words: seq<string>): seq<string> {
    seq(|words|, i requires 0 <= i < |words| => Quoted(words[i]))
  }

  function CommandLine(words: seq<string>): string {
    if |words| == 1 then words[0] else Joined(QuotedWords(words))
  }

  method ShellQuote(s: string) returns (quoted: string)
    ensures quoted == Quoted(s)
  {
    if s == "" {
      return "''";
    }
    var safe := true;
    for i := 0 to |s|
      invariant safe && Safe(s[..i])
    {
      if !SafeChar(s[i]) {
        safe := false;
        break;
      }
    }
    if safe {
      assert s[..|s|] == s;
      return s;
    }
    return "'" + Escaped(s) + "'";
  }

  method ShellCommand(words: seq<string>) returns (line: string)
    ensures line == CommandLine(words)
  {
    if |words| == 1 {
      return words[0];
    }
    var quoted: seq<string> := [];
    for i := 0 to |words|
      invariant quoted == QuotedWords(words[..i])
    {
      var q := ShellQuote(words[i]);
      quoted := quoted + [q];
    }
    assert words[..|words|] == words;
    return Joined(quoted);
  }

  // ----- Reading it back -----

  /** Between two tokens; in one, unquoted or in single quotes; after a backslash; or past something this reader does not cover. */
  datatype Reader =
    | Between(words: seq<string>)
    | InWord(words: seq<string>, word: string)
    | InQuotes(words: seq<string>, word: string)
    | AfterBackslash(back: Reader)
    | NotPlain

  /** Operators, newlines, other quotes, expansions and patterns: nothing here reads them. */
  predicate Special(c: char) {
    || c == '|' || c == '&' || c == ';' || c == '<' || c == '>' || c == '(' || c == ')' || c == '\n'
    || c == '$' || c == '`' || c == '"' || c == '*' || c == '?' || c == '[' || c == '~'
  }

  function Grow(r: Reader, c: char): Reader {
    match r
    case Between(words) => InWord(words, [c])
    case InWord(words, word) => InWord(words, word + [c])
    case _ => NotPlain
  }

  /** One character outside quotes. */
  function Unquoted(r: Reader, c: char): Reader
    requires r.Between? || r.InWord?
  {
    if c == '\\' then AfterBackslash(r)
    else if c == '\'' then if r.Between? then InQuotes(r.words, "") else InQuotes(r.words, r.word)
    else if Special(c) || (c == '#' && r.Between?) then NotPlain
    else if c == ' ' || c == '\t' then if r.Between? then r else Between(r.words + [r.word])
    else Grow(r, c)
  }

  function Step(r: Reader, c: char): Reader {
    match r
    case Between(_) => Unquoted(r, c)
    case InWord(_, _) => Unquoted(r, c)
    case InQuotes(words, word) => if c == '\'' then InWord(words, word) else InQuotes(words, word + [c])
    case AfterBackslash(back) => if c == '\n' then back else Grow(back, c)
    case NotPlain => NotPlain
  }

  function Read(r: Reader, s: string): Reader
    decreases |s|
  {
    if |s| == 0 then r else Read(Step(r, s[0]), s[1..])
  }

  datatype Tokens = Words(words: seq<string>) | Unreadable

  /** The words a shell sees in a line of this kind, quotes removed. */
  function Tokenize(line: string): Tokens {
    match Read(Between([]), line)
    case Between(words) => Words(words)
    case InWord(words, word) => Words(words + [word])
    case _ => Unreadable
  }

  // ----- The round trip -----

  lemma ReadOne(r: Reader, c: char)
    ensures Read(r, [c]) == Step(r, c)
  {
  }

  lemma ReadNext(r: Reader, c: char, rest: string)
    ensures Read(r, [c] + rest) == Read(Step(r, c), rest)
  {
  }

  lemma {:induction false} ReadInTurn(r: Reader, a: string, b: string)
    ensures Read(r, a + b) == Read(Read(r, a), b)
    decreases |a|
  {
    if |a| == 0 {
      assert a + b == b;
    } else {
      ReadInTurn(Step(r, a[0]), a[1..], b);
      assert (a + b)[1..] == a[1..] + b;
    }
  }

  /** Read as itself wherever a word has begun. */
  predicate Ordinary(c: char) {
    !Special(c) && c != '\\' && c != '\'' && c != ' ' && c != '\t'
  }

  predicate AllOrdinary(s: string) {
    forall i :: 0 <= i < |s| ==> Ordinary(s[i])
  }

  lemma {:induction false} OrdinaryIsRead(words: seq<string>, word: string, s: string)
    requires AllOrdinary(s)
    ensures Read(InWord(words, word), s) == InWord(words, word + s)
    decreases |s|
  {
    if |s| == 0 {
      assert word + s == word;
    } else {
      assert Step(InWord(words, word), s[0]) == InWord(words, word + [s[0]]);
      OrdinaryIsRead(words, word + [s[0]], s[1..]);
      assert word + [s[0]] + s[1..] == word + s;
    }
  }

  /** A word that needs no quotes: text read as itself, not beginning a comment. */
  predicate PlainWord(w: string) {
    w != "" && AllOrdinary(w) && w[0] != '#'
  }

  lemma PlainWordIsRead(words: seq<string>, w: string)
    requires PlainWord(w)
    ensures Read(Between(words), w) == InWord(words, w)
  {
    assert w == [w[0]] + w[1..];
    ReadNext(Between(words), w[0], w[1..]);
    OrdinaryIsRead(words, [w[0]], w[1..]);
  }

  lemma SafeIsOrdinary(c: char)
    requires SafeChar(c)
    ensures Ordinary(c) && c != '#'
  {
  }

  lemma SafeIsPlain(w: string)
    requires w != "" && Safe(w)
    ensures PlainWord(w)
  {
    forall i | 0 <= i < |w| ensures Ordinary(w[i]) && w[i] != '#' {
      SafeIsOrdinary(w[i]);
    }
  }

  /** An escaped quote leaves and enters the quotes again, one quote longer. */
  lemma EscapedQuoteIsRead(words: seq<string>, word: string)
    ensures Read(InQuotes(words, word), "'\\''") == InQuotes(words, word + "'")
  {
  }

  lemma {:induction false} EscapedIsRead(words: seq<string>, word: string, s: string)
    ensures Read(InQuotes(words, word), Escaped(s)) == InQuotes(words, word + s)
    decreases |s|
  {
    if |s| == 0 {
      assert word + s == word;
    } else {
      var head := if s[0] == '\'' then "'\\''" else [s[0]];
      ReadInTurn(InQuotes(words, word), head, Escaped(s[1..]));
      if s[0] == '\'' {
        EscapedQuoteIsRead(words, word);
      } else {
        ReadOne(InQuotes(words, word), s[0]);
      }
      EscapedIsRead(words, word + [s[0]], s[1..]);
      assert word + [s[0]] + s[1..] == word + s;
    }
  }

  /** Between two tokens, a quoted word reads as that word. */
  lemma QuotedIsRead(words: seq<string>, w: string)
    ensures Read(Between(words), Quoted(w)) == InWord(words, w)
  {
    if w == "" {
      assert "''" == ['\''] + ['\''];
      ReadNext(Between(words), '\'', ['\'']);
      ReadOne(InQuotes(words, ""), '\'');
    } else if Safe(w) {
      SafeIsPlain(w);
      PlainWordIsRead(words, w);
    } else {
      ReadInTurn(Between(words), "'", Escaped(w) + "'");
      assert "'" + (Escaped(w) + "'") == Quoted(w);
      ReadOne(Between(words), '\'');
      ReadInTurn(InQuotes(words, ""), Escaped(w), "'");
      EscapedIsRead(words, "", w);
      assert "" + w == w;
      ReadOne(InQuotes(words, w), '\'');
    }
  }

  /** A quoted word and the blank after it. */
  lemma WordIsRead(before: seq<string>, w: string, rest: string)
    ensures Read(Between(before), Quoted(w) + (" " + rest)) == Read(Between(before + [w]), rest)
  {
    ReadInTurn(Between(before), Quoted(w), " " + rest);
    QuotedIsRead(before, w);
    ReadNext(InWord(before, w), ' ', rest);
  }

  lemma JoinedInTurn(words: seq<string>)
    requires |words| > 1
    ensures Joined(QuotedWords(words)) == Quoted(words[0]) + (" " + Joined(QuotedWords(words[1..])))
  {
    assert QuotedWords(words)[1..] == QuotedWords(words[1..]);
    assert Quoted(words[0]) + " " + Joined(QuotedWords(words[1..])) == Quoted(words[0]) + (" " + Joined(QuotedWords(words[1..])));
  }

  lemma JoinedOfOne(words: seq<string>)
    requires |words| == 1
    ensures Joined(QuotedWords(words)) == Quoted(words[0])
  {
  }

  function AllButLast(before: seq<string>, words: seq<string>): seq<string>
    requires |words| > 0
  {
    before + words[..|words| - 1]
  }

  lemma AllButLastInTurn(before: seq<string>, words: seq<string>)
    requires |words| > 1
    ensures AllButLast(before + [words[0]], words[1..]) == AllButLast(before, words)
  {
  }

  lemma {:induction false} JoinedIsRead(before: seq<string>, words: seq<string>, line: string)
    requires |words| > 0 && line == Joined(QuotedWords(words))
    ensures Read(Between(before), line) == InWord(AllButLast(before, words), words[|words| - 1])
    decreases |words|
  {
    if |words| == 1 {
      JoinedOfOne(words);
      QuotedIsRead(before, words[0]);
      assert AllButLast(before, words) == before;
    } else {
      var rest := Joined(QuotedWords(words[1..]));
      JoinedInTurn(words);
      WordIsRead(before, words[0], rest);
      JoinedIsRead(before + [words[0]], words[1..], rest);
      AllButLastInTurn(before, words);
    }
  }

  lemma EndsInWord(line: string, words: seq<string>, word: string)
    requires Read(Between([]), line) == InWord(words, word)
    ensures Tokenize(line) == Words(words + [word])
  {
  }

  /** Any other number of words than one is read back. */
  lemma QuotedLineReadsBack(words: seq<string>)
    requires |words| != 1
    ensures Tokenize(CommandLine(words)) == Words(words)
  {
    if |words| > 0 {
      var n := |words| - 1;
      assert AllButLast([], words) == words[..n] && words == words[..n] + [words[n]];
      JoinedIsRead([], words, CommandLine(words));
      EndsInWord(CommandLine(words), words[..n], words[n]);
    }
  }

  // ----- A single word, which is not quoted -----

  function Total(words: seq<string>): nat {
    if |words| == 0 then 0 else Total(words[..|words| - 1]) + |words[|words| - 1]|
  }

  /** How many characters the words hold so far. */
  function Held(r: Reader): nat {
    match r
    case Between(words) => Total(words)
    case InWord(words, word) => Total(words) + |word|
    case InQuotes(words, word) => Total(words) + |word|
    case AfterBackslash(back) => Held(back)
    case NotPlain => 0
  }

  lemma TotalNext(words: seq<string>, word: string)
    ensures Total(words + [word]) == Total(words) + |word|
  {
    assert (words + [word])[..|words|] == words;
  }

  /** No character is kept twice; outside quotes only an ordinary one is kept at once. */
  lemma StepHolds(r: Reader, c: char)
    ensures Held(Step(r, c)) <= Held(r) + 1
    ensures (r.Between? || r.InWord?) && Held(Step(r, c)) == Held(r) + 1 ==>
              Step(r, c).InWord? && Ordinary(c) && (r.Between? ==> c != '#')
  {
    if r.InWord? {
      TotalNext(r.words, r.word);
    }
  }

  lemma {:induction false} ReadHolds(r: Reader, s: string)
    ensures Held(Read(r, s)) <= Held(r) + |s|
    decreases |s|
  {
    if |s| > 0 {
      StepHolds(r, s[0]);
      ReadHolds(Step(r, s[0]), s[1..]);
    }
  }

  /** A text of which every character is kept is ordinary throughout. */
  lemma {:induction false} KeptIsOrdinary(r: Reader, s: string)
    requires (r.Between? || r.InWord?) && Held(Read(r, s)) == Held(r) + |s|
    ensures AllOrdinary(s) && (r.Between? && s != "" ==> s[0] != '#')
    decreases |s|
  {
    if |s| > 0 {
      StepHolds(r, s[0]);
      ReadHolds(Step(r, s[0]), s[1..]);
      KeptIsOrdinary(Step(r, s[0]), s[1..]);
      assert s == [s[0]] + s[1..];
    }
  }

  lemma OnlyWord(words: seq<string>, word: string, w: string)
    requires words + [word] == [w]
    ensures words == [] && word == w
  {
    assert |words| == 0;
    assert (words + [word])[0] == word;
  }

  /** Read as itself, a text is read whole. */
  lemma OneWordHolds(w: string)
    requires Tokenize(w) == Words([w])
    ensures w != "" && Held(Read(Between([]), w)) == |w|
  {
    var r := Read(Between([]), w);
    TotalNext([], w);
    assert [] + [w] == [w];
    if r.InWord? {
      OnlyWord(r.words, r.word, w);
    }
  }

  /** A single word is handed over as written, and is read as itself if and only if it needs no quotes. */
  lemma SingleWordReadsBack(w: string)
    ensures Tokenize(CommandLine([w])) == Words([w]) <==> PlainWord(w)
  {
    if PlainWord(w) {
      PlainWordIsRead([], w);
      EndsInWord(w, [], w);
    } else if Tokenize(w) == Words([w]) {
      OneWordHolds(w);
      KeptIsOrdinary(Between([]), w);
    }
  }

  /** The shell sees exactly the words given, if and only if they are not a single word that needs quotes. */
  lemma CommandLineReadsBack(words: seq<string>)
    ensures Tokenize(CommandLine(words)) == Words(words) <==> (|words| == 1 ==> PlainWord(words[0]))
  {
    if |words| == 1 {
      SingleWordReadsBack(words[0]);
      assert words == [words[0]];
    } else {
      QuotedLineReadsBack(words);
    }
  }

  lemma BlankIsRead()
    ensures Read(Between([]), "a b") == InWord(["a"], "b")
  {
  }

  lemma OperatorIsNot()
    ensures Read(Between([]), "a;b") == NotPlain
  {
  }

  /** The others may be read as several words, or as more than words. */
  lemma SingleWordIsNotQuoted()
    ensures Tokenize(CommandLine(["a b"])) == Words(["a", "b"])
    ensures Tokenize(CommandLine(["a;b"])) == Unreadable
  {
    BlankIsRead();
    OperatorIsNot();
  }

  /** Different words make different command lines. */
  lemma CommandLineIsInjective(a: seq<string>, b: seq<string>)
    requires |a| == 1 ==> PlainWord(a[0])
    requires |b| == 1 ==> PlainWord(b[0])
    requires CommandLine(a) == CommandLine(b)
    ensures a == b
  {
    CommandLineReadsBack(a);
    CommandLineReadsBack(b);
  }
}
