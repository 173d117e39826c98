/** Shell quoting (`cmd/virt/temp_entry_point.go`, `internal/ci/framework.go`)
    against a lexer for the quoting rules of the POSIX.1-2017 Shell Command
    Language, sections 2.2.1 (backslash), 2.2.2 (single quotes) and 2.2.3
    (double quotes). */
module Shell {

  import opened Options

  // ------------------------------------------------------------ the lexer

  /** Where the lexer stands: between words, inside an unquoted part of a word,
      or inside one of the two kinds of quotes. */
  datatype Mode = Blank | Word | Single | Double

  predicate IsBlank(c: char) {
    c == ' ' || c == '\t'
  }

  /** Characters that an unquoted position does not take literally: operators,
      expansions, patterns, tildes and the newline. */
  predicate IsSpecial(c: char) {
    c in "|&;<>()$`*?[~\n"
  }

  /** Characters a backslash escapes inside double quotes. */
  predicate IsDoubleEscaped(c: char) {
    c in "$`\"\\\n"
  }

  /** Splits a command line into words and removes quotes. `word` is the word
      being read, `done` the words already finished. `None` means that the text
      is not a plain list of words: a quote is open, or a character would be
      taken as an operator, an expansion or a comment. */
  function Scan(s: string, mode: Mode, word: string, done: seq<string>): Option<seq<string>>
    decreases |s|
  {
    if s == [] then
      match mode
      case Blank => Some(done)
      case Word => Some(done + [word])
      case _ => None
    else
      var c, rest := s[0], s[1..];
      match mode
      case Single =>
        if c == '\'' then Scan(rest, Word, word, done) else Scan(rest, Single, word + [c], done)
      case Double =>
        if c == '"' then Scan(rest, Word, word, done)
        else if c == '$' || c == '`' then None
        else if c == '\\' && rest != [] && IsDoubleEscaped(rest[0]) then
          Scan(rest[1..], Double, if rest[0] == '\n' then word else word + [rest[0]], done)
        else Scan(rest, Double, word + [c], done)
      case _ =>
        if IsBlank(c) then Scan(rest, Blank, [], if mode.Word? then done + [word] else done)
        else if c == '\'' then Scan(rest, Single, word, done)
        else if c == '"' then Scan(rest, Double, word, done)
        else if c == '\\' then
          if rest == [] then None
          else if rest[0] == '\n' then Scan(rest[1..], mode, word, done)
          else Scan(rest[1..], Word, word + [rest[0]], done)
        else if IsSpecial(c) || (c == '#' && mode.Blank?) then None
        else Scan(rest, Word, word + [c], done)
  }

  function Lex(s: string): Option<seq<string>> {
    Scan(s, Blank, [], [])
  }

  // ------------------------------------------------------------ the printers

  /** `strings.ReplaceAll(s, "'", with)`. */
  function ReplaceQuotes(s: string, with: string): string {
    if s == [] then []
    else (if s[0] == '\'' then with else [s[0]]) + ReplaceQuotes(s[1..], with)
  }

  const BACKSLASH_QUOTE := "'\\''"
  const DOUBLE_QUOTE := "'\"'\"'"

  /** `shellQuote` of `cmd/virt`. */
  function Quote(s: string): string {
    if s == "" then "''" else "'" + ReplaceQuotes(s, BACKSLASH_QUOTE) + "'"
  }

  predicate IsSafe(c: char) {
    'a' <= c <= 'z' || 'A' <= c <= 'Z' || '0' <= c <= '9' || c in "_@%+=:,./-"
  }

  /** `shellQuote` of `internal/ci`: safe words are printed bare. */
  function QuoteUnlessSafe(s: string): string {
    if s != "" && forall i :: 0 <= i < |s| ==> IsSafe(s[i]) then s
    else "'" + ReplaceQuotes(s, DOUBLE_QUOTE) + "'"
  }

  /** `strings.Join(parts, " ")`. */
  function Join(parts: seq<string>): string {
    if |parts| == 0 then ""
    else if |parts| == 1 then parts[0]
    else Join(parts[..|parts| - 1]) + " " + parts[|parts| - 1]
  }

  function QuoteAll(parts: seq<string>): (r: seq<string>)
    ensures |r| == |parts|
  {
    if parts == [] then [] else QuoteAll(parts[..|parts| - 1]) + [Quote(parts[|parts| - 1])]
  }

  // ------------------------------------------------------------ round trips

  /** Inside single quotes, a replacement that closes the quote, adds a literal
      quote and opens the quote again contributes exactly one quote. */
  lemma ReplacementIsOneQuote(with: string, rest: string, word: string, done: seq<string>)
    requires with == BACKSLASH_QUOTE || with == DOUBLE_QUOTE
    ensures Scan(with + rest, Single, word, done) == Scan(rest, Single, word + ['\''], done)
  {
    var s := with + rest;
    if with == BACKSLASH_QUOTE {
      assert s[0] == '\'' && s[1] == '\\' && s[2] == '\'' && s[3] == '\'';
      assert s[1..][1..] == s[2..] && s[2..][1..] == s[3..] && s[3..][1..] == rest;
      assert Scan(s[1..], Word, word, done) == Scan(s[3..], Word, word + ['\''], done);
    } else {
      assert s[0] == '\'' && s[1] == '"' && s[2] == '\'' && s[3] == '"' && s[4] == '\'';
      assert s[1..][1..] == s[2..] && s[2..][1..] == s[3..] && s[3..][1..] == s[4..] && s[4..][1..] == rest;
      assert Scan(s[1..], Word, word, done) == Scan(s[2..], Double, word, done);
      assert Scan(s[2..], Double, word, done) == Scan(s[3..], Double, word + ['\''], done);
      assert Scan(s[3..], Double, word + ['\''], done) == Scan(s[4..], Word, word + ['\''], done);
    }
  }

  /** Scanning the body of a single-quoted printing yields the original text. */
  lemma {:induction false} QuotedBody(s: string, with: string, rest: string, word: string, done: seq<string>)
    requires with == BACKSLASH_QUOTE || with == DOUBLE_QUOTE
    ensures Scan(ReplaceQuotes(s, with) + ("'" + rest), Single, word, done) == Scan(rest, Word, word + s, done)
    decreases |s|
  {
    var tail := "'" + rest;
    if s == [] {
      assert ReplaceQuotes(s, with) + tail == tail && tail[1..] == rest;
      assert word + s == word;
    } else {
      var body := ReplaceQuotes(s[1..], with);
      QuotedBody(s[1..], with, rest, word + [s[0]], done);
      assert word + [s[0]] + s[1..] == word + s;
      if s[0] == '\'' {
        assert ReplaceQuotes(s, with) + tail == with + (body + tail);
        ReplacementIsOneQuote(with, body + tail, word, done);
      } else {
        assert ReplaceQuotes(s, with) + tail == [s[0]] + (body + tail);
      }
    }
  }

  lemma QuotedWord(s: string, with: string, rest: string, done: seq<string>)
    requires with == BACKSLASH_QUOTE || with == DOUBLE_QUOTE
    ensures Scan("'" + ReplaceQuotes(s, with) + "'" + rest, Blank, [], done) == Scan(rest, Word, s, done)
  {
    QuotedBody(s, with, rest, [], done);
    var inner := ReplaceQuotes(s, with) + ("'" + rest);
    var line := "'" + ReplaceQuotes(s, with) + "'" + rest;
    assert [] + s == s;
    assert line == ['\''] + inner && line[0] == '\'' && line[1..] == inner;
  }

  /** One printed argument, met between words, is read back as one word. */
  lemma QuoteIsOneWord(s: string, rest: string, done: seq<string>)
    ensures Scan(Quote(s) + rest, Blank, [], done) == Scan(rest, Word, s, done)
  {
    QuotedWord(s, BACKSLASH_QUOTE, rest, done);
    assert s == "" ==> Quote(s) == "'" + ReplaceQuotes(s, BACKSLASH_QUOTE) + "'";
  }

  lemma {:induction false} JoinScans(parts: seq<string>, rest: string)
    requires parts != []
    ensures Scan(Join(QuoteAll(parts)) + rest, Blank, [], []) ==
            Scan(rest, Word, parts[|parts| - 1], parts[..|parts| - 1])
    decreases |parts|
  {
    var front, last := parts[..|parts| - 1], parts[|parts| - 1];
    var quoted := QuoteAll(parts);
    assert quoted[|quoted| - 1] == Quote(last) && quoted[..|quoted| - 1] == QuoteAll(front);
    if front == [] {
      QuoteIsOneWord(last, rest, []);
    } else {
      var tail := " " + (Quote(last) + rest);
      JoinScans(front, tail);
      assert Join(quoted) + rest == Join(QuoteAll(front)) + tail;
      assert front[..|front| - 1] + [front[|front| - 1]] == front;
      assert tail[1..] == Quote(last) + rest;
      QuoteIsOneWord(last, rest, front);
    }
  }

  /** Lexing the printed command line gives back exactly the argument list. */
  lemma JoinRoundTrip(parts: seq<string>)
    ensures Lex(Join(QuoteAll(parts))) == Some(parts)
  {
    if parts != [] {
      JoinScans(parts, []);
      assert Join(QuoteAll(parts)) + [] == Join(QuoteAll(parts));
      assert parts[..|parts| - 1] + [parts[|parts| - 1]] == parts;
    }
  }

  /** `shellJoin`: quotes the parts one after the other and joins them. */
  method ShellJoin(parts: seq<string>) returns (line: string)
    ensures Lex(line) == Some(parts)
    ensures line == Join(QuoteAll(parts))
  {
    var quoted := [];
    for i := 0 to |parts|
      invariant quoted == QuoteAll(parts[..i])
    {
      assert parts[..i + 1][..i] == parts[..i];
      quoted := quoted + [Quote(parts[i])];
    }
    assert parts[..|parts|] == parts;
    line := Join(quoted);
    JoinRoundTrip(parts);
  }

  lemma SafeIsOrdinary(c: char)
    requires IsSafe(c)
    ensures !IsBlank(c) && !IsSpecial(c) && c != '\'' && c != '"' && c != '\\' && c != '#'
  {
  }

  lemma {:induction false} SafeWord(s: string, word: string, done: seq<string>)
    requires forall i :: 0 <= i < |s| ==> IsSafe(s[i])
    ensures Scan(s, Word, word, done) == Some(done + [word + s])
    decreases |s|
  {
    if s == [] {
      assert word + s == word;
    } else {
      SafeIsOrdinary(s[0]);
      SafeWord(s[1..], word + [s[0]], done);
      assert word + [s[0]] + s[1..] == word + s;
    }
  }

  lemma SafeWordAlone(s: string)
    requires s != "" && forall i :: 0 <= i < |s| ==> IsSafe(s[i])
    ensures Scan(s, Blank, [], []) == Some([s])
  {
    SafeWord(s[1..], [s[0]], []);
    assert [s[0]] + s[1..] == s;
    assert [] + [s] == [s];
    SafeStart(s);
  }

  lemma SafeStart(s: string)
    requires s != "" && IsSafe(s[0])
    ensures Scan(s, Blank, [], []) == Scan(s[1..], Word, [s[0]], [])
  {
    SafeIsOrdinary(s[0]);
    assert [] + [s[0]] == [s[0]];
  }

  /** The CI printer, bare or quoted, is read back as exactly one word. */
  lemma QuoteUnlessSafeRoundTrip(s: string)
    ensures Lex(QuoteUnlessSafe(s)) == Some([s])
  {
    var none: seq<string> := [];
    if s != "" && forall i :: 0 <= i < |s| ==> IsSafe(s[i]) {
      SafeWordAlone(s);
    } else {
      var line := "'" + ReplaceQuotes(s, DOUBLE_QUOTE) + "'";
      assert line + [] == line;
      QuotedWord(s, DOUBLE_QUOTE, [], none);
      assert none + [s] == [s];
    }
  }

  /** Hence no two argument lists are printed alike. */
  lemma JoinIsInjective(a: seq<string>, b: seq<string>)
    requires Join(QuoteAll(a)) == Join(QuoteAll(b))
    ensures a == b
  {
    JoinRoundTrip(a);
    JoinRoundTrip(b);
  }

  /** A letter, a digit, or a sign that means nothing to the shell. */
  ghost predicate Harmless(c: char) {
    || 'a' <= c <= 'z' || 'A' <= c <= 'Z' || '0' <= c <= '9'
    || c == '_' || c == '@' || c == '%' || c == '+' || c == '='
    || c == ':' || c == ',' || c == '.' || c == '/' || c == '-'
  }

  lemma {:induction false} ReplacingNeverShortens(s: string, with: string)
    requires |with| > 0
    ensures |ReplaceQuotes(s, with)| >= |s|
    decreases |s|
  {
    if s != [] {
      ReplacingNeverShortens(s[1..], with);
    }
  }

  /** Exactly the words of harmless characters, the empty one aside, are printed bare. */
  lemma BareIffHarmless(s: string)
    ensures QuoteUnlessSafe(s) == s <==> |s| > 0 && forall i :: 0 <= i < |s| ==> Harmless(s[i])
  {
    ReplacingNeverShortens(s, DOUBLE_QUOTE);
    assert forall c :: IsSafe(c) <==> Harmless(c);
  }
}
