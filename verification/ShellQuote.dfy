/** Printing a command so that a shell reads back exactly its arguments. */
module ShellQuote {

  const EXTRA := "_@%+=:,./-"

  predicate SafeChar(c: char) {
    'a' <= c <= 'z' || 'A' <= c <= 'Z' || '0' <= c <= '9' || c in EXTRA
  }

  predicate Safe(argument: string) {
    argument != "" && forall i :: 0 <= i < |argument| ==> SafeChar(argument[i])
  }

  /** Each single quote leaves the quoted text, is double-quoted, and re-enters it. */
  function EscapeQuotes(a: string): string {
    if a == [] then [] else (if a[0] == '\'' then "'\"'\"'" else [a[0]]) + EscapeQuotes(a[1..])
  }

  function Quoted(argument: string): string {
    if Safe(argument) then argument else "'" + EscapeQuotes(argument) + "'"
  }

  function Join(words: seq<string>): string {
    if words == [] then "" else if |words| == 1 then words[0] else words[0] + " " + Join(words[1..])
  }

  function QuotedAll(argv: seq<string>): seq<string> {
    seq(|argv|, i requires 0 <= i < |argv| => Quoted(argv[i]))
  }

  method ShellQuoteCommand(argv: seq<string>) returns (line: string)
    ensures line == Join(QuotedAll(argv))
    ensures Read(line) == Words(argv)
  {
    var quoted: seq<string> := [];
    while |quoted| < |argv|
      invariant |quoted| <= |argv| && forall i :: 0 <= i < |quoted| ==> quoted[i] == Quoted(argv[i])
    {
      var argument := argv[|quoted|];
      quoted := quoted + [if Safe(argument) then argument else "'" + EscapeQuotes(argument) + "'"];
    }
    assert quoted == QuotedAll(argv);
    line := Join(quoted);
    QuoteRoundTrip(argv);
  }

  // ----- A shell's reader -----

  datatype Result = Words(words: seq<string>) | Unreadable

  datatype Mode = Blank | Word | Single | Double

  /** Unquoted characters that a shell does not take literally (quoting characters and blanks aside). */
  const SPECIAL := "|&;<>()$`*?[#~\n"

  /** Tokens and quote removal (sections 2.2.1 to 2.2.3, 2.3 and 2.6.7 of XCU chapter 2 of
      POSIX.1-2017): blanks end words outside quotes; single quotes keep everything; in double quotes a
      backslash keeps its effect before five characters only. Expansions and operators are refused. */
  function ReadFrom(s: string, mode: Mode, current: string, words: seq<string>): Result
    decreases |s|
  {
    if s == [] then
      match mode
      case Blank => Words(words)
      case Word => Words(words + [current])
      case Single => Unreadable
      case Double => Unreadable
    else
      var c, rest := s[0], s[1..];
      match mode
      case Single =>
        if c == '\'' then ReadFrom(rest, Word, current, words)
        else ReadFrom(rest, Single, current + [c], words)
      case Double =>
        if c == '"' then ReadFrom(rest, Word, current, words)
        else if c == '$' || c == '`' then Unreadable
        else if c == '\\' && rest != [] && rest[0] in "$`\"\\\n" then
          ReadFrom(rest[1..], Double, if rest[0] == '\n' then current else current + [rest[0]], words)
        else ReadFrom(rest, Double, current + [c], words)
      case _ =>
        if c == ' ' || c == '\t' then ReadFrom(rest, Blank, "", if mode == Word then words + [current] else words)
        else if c == '\'' then ReadFrom(rest, Single, current, words)
        else if c == '"' then ReadFrom(rest, Double, current, words)
        else if c == '\\' then
          if rest == [] then Unreadable
          else if rest[0] == '\n' then ReadFrom(rest[1..], mode, current, words)
          else ReadFrom(rest[1..], Word, current + [rest[0]], words)
        else if c in SPECIAL then Unreadable
        else ReadFrom(rest, Word, current + [c], words)
  }

  function Read(line: string): Result {
    ReadFrom(line, Blank, "", [])
  }

  lemma SafeIsLiteral(c: char)
    requires SafeChar(c)
    ensures c !in SPECIAL && c !in " \t'\"\\"
  {
  }

  lemma {:induction false} ReadSafe(a: string, rest: string, mode: Mode, current: string, words: seq<string>)
    requires (forall i :: 0 <= i < |a| ==> SafeChar(a[i])) && a != [] && mode in {Blank, Word}
    ensures ReadFrom(a + rest, mode, current, words) == ReadFrom(rest, Word, current + a, words)
  {
    SafeIsLiteral(a[0]);
    assert (a + rest)[0] == a[0] && (a + rest)[1..] == a[1..] + rest;
    if |a| == 1 {
      assert a[1..] + rest == rest && current + [a[0]] == current + a;
    } else {
      ReadSafe(a[1..], rest, Word, current + [a[0]], words);
      assert current + [a[0]] + a[1..] == current + a;
    }
  }

  lemma {:induction false} ReadEscaped(a: string, rest: string, current: string, words: seq<string>)
    ensures ReadFrom(EscapeQuotes(a) + "'" + rest, Single, current, words) == ReadFrom(rest, Word, current + a, words)
  {
    var s := EscapeQuotes(a) + "'" + rest;
    if a == [] {
      assert s[0] == '\'' && s[1..] == rest && current + a == current;
    } else {
      var t := EscapeQuotes(a[1..]) + "'" + rest;
      ReadEscaped(a[1..], rest, current + [a[0]], words);
      assert current + [a[0]] + a[1..] == current + a;
      if a[0] == '\'' {
        assert s == "'\"'\"'" + t;
        ReadQuoteMark(t, current, words);
      } else {
        assert s == [a[0]] + t && s[0] == a[0] && s[1..] == t;
      }
    }
  }

  lemma ReadQuoteMark(t: string, current: string, words: seq<string>)
    ensures ReadFrom("'\"'\"'" + t, Single, current, words) == ReadFrom(t, Single, current + "'", words)
  {
    var s := "'\"'\"'" + t;
    assert s[0] == '\'' && s[1..][0] == '"' && s[1..][1..][0] == '\'' && s[1..][1..][1..][0] == '"';
    assert s[1..][1..][1..][1..][0] == '\'' && s[1..][1..][1..][1..][1..] == t;
    assert ReadFrom(s, Single, current, words) == ReadFrom(s[1..], Word, current, words);
    assert ReadFrom(s[1..], Word, current, words) == ReadFrom(s[1..][1..], Double, current, words);
    assert ReadFrom(s[1..][1..], Double, current, words) == ReadFrom(s[1..][1..][1..], Double, current + "'", words);
    assert ReadFrom(s[1..][1..][1..], Double, current + "'", words)
        == ReadFrom(s[1..][1..][1..][1..], Word, current + "'", words);
  }

  /** One printed argument is read as that argument, whatever follows. */
  lemma ReadQuoted(argument: string, rest: string, words: seq<string>)
    ensures ReadFrom(Quoted(argument) + rest, Blank, "", words) == ReadFrom(rest, Word, argument, words)
  {
    if Safe(argument) {
      ReadSafe(argument, rest, Blank, "", words);
      assert "" + argument == argument;
    } else {
      var s := Quoted(argument) + rest;
      var t := EscapeQuotes(argument) + "'" + rest;
      assert s == "'" + t && s[0] == '\'' && s[1..] == t;
      ReadEscaped(argument, rest, "", words);
      assert "" + argument == argument;
    }
  }

  lemma ReadBlank(rest: string, argument: string, words: seq<string>)
    ensures ReadFrom(" " + rest, Word, argument, words) == ReadFrom(rest, Blank, "", words + [argument])
  {
  }

  lemma ReadLast(argument: string, words: seq<string>)
    ensures ReadFrom(Quoted(argument) + "", Blank, "", words) == Words(words + [argument])
  {
    ReadQuoted(argument, "", words);
  }

  lemma ReadNext(argument: string, rest: string, words: seq<string>)
    ensures ReadFrom(Quoted(argument) + (" " + rest), Blank, "", words)
         == ReadFrom(rest, Blank, "", words + [argument])
  {
    ReadQuoted(argument, " " + rest, words);
    ReadBlank(rest, argument, words);
  }

  lemma QuotedRest(argv: seq<string>)
    requires argv != []
    ensures QuotedAll(argv) == [Quoted(argv[0])] + QuotedAll(argv[1..])
  {
  }

  lemma JoinMore(word: string, more: seq<string>)
    ensures Join([word] + more) == if more == [] then word + "" else word + (" " + Join(more))
  {
  }

  /** The printed line, one argument at a time. */
  function Line(argv: seq<string>): string
    requires argv != []
  {
    if |argv| == 1 then Quoted(argv[0]) + "" else Quoted(argv[0]) + (" " + Line(argv[1..]))
  }

  lemma {:induction false} JoinIsLine(argv: seq<string>)
    requires argv != []
    ensures Join(QuotedAll(argv)) == Line(argv)
  {
    QuotedRest(argv);
    JoinMore(Quoted(argv[0]), QuotedAll(argv[1..]));
    if |argv| > 1 { JoinIsLine(argv[1..]); }
  }

  lemma {:induction false} ReadLine(argv: seq<string>, words: seq<string>)
    requires argv != []
    ensures ReadFrom(Line(argv), Blank, "", words) == Words(words + argv)
  {
    if |argv| == 1 {
      ReadLast(argv[0], words);
      assert words + [argv[0]] == words + argv;
    } else {
      ReadNext(argv[0], Line(argv[1..]), words);
      ReadLine(argv[1..], words + [argv[0]]);
      assert words + [argv[0]] + argv[1..] == words + argv;
    }
  }

  /** Reading the printed command gives back its arguments: all of them, in order, empty ones and those
      with blanks, quotes or any other character included. */
  lemma QuoteRoundTrip(argv: seq<string>)
    ensures Read(Join(QuotedAll(argv))) == Words(argv)
  {
    if argv != [] {
      JoinIsLine(argv);
      ReadLine(argv, []);
      assert [] + argv == argv;
    }
  }
}
