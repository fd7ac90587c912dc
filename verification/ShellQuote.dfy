/**
 Quoting an argv for a remote shell (internal/httpapi/ssh_api.go) against the
 word splitting of the POSIX.1-2017 Shell Command Language: backslash (2.2.1),
 single quotes (2.2.2), token recognition (2.3) and quote removal (2.6.7).

 A char stands for a byte or for a character alike: the quoting only looks for
 ASCII characters and treats every other one the same.
 */
module ShellQuote {
  import opened Options

  // --- The quoting ---

  predicate IsSafe(c: char) {
    'a' <= c <= 'z' || 'A' <= c <= 'Z' || '0' <= c <= '9' || c in {'@', '%', '+', '=', ':', ',', '.', '/', '-', '_'}
  }

  predicate AllSafe(s: string) {
    forall i | 0 <= i < |s| :: IsSafe(s[i])
  }

  /** strings.ReplaceAll(s, "'", `'\''`). */
  function Escaped(s: string): string {
    if s == "" then "" else EscapedChar(s[0]) + Escaped(s[1..])
  }

  function EscapedChar(c: char): string { if c == '\'' then "'\\''" else [c] }

  function Quoted(s: string): string {
    if s == "" then "''" else if AllSafe(s) then s else "'" + Escaped(s) + "'"
  }

  function Joined(argv: seq<string>): string {
    if argv == [] then "" else if |argv| == 1 then Quoted(argv[0]) else Quoted(argv[0]) + " " + Joined(argv[1..])
  }

  method ShellQuote(s: string) returns (q: string)
    ensures q == Quoted(s)
  {
    if s == "" {
      return "''";
    }
    var safe := true;
    for i := 0 to |s|
      invariant safe && AllSafe(s[..i])
    {
      if !IsSafe(s[i]) {
        safe := false;
        break;
      }
    }
    if safe {
      assert s[..|s|] == s;
      return s;
    }
    return "'" + Escaped(s) + "'";
  }

  method ShellJoin(argv: seq<string>) returns (line: string)
    ensures line == Joined(argv)
  {
    var parts: seq<string> := [];
    for i := 0 to |argv|
      invariant |parts| == i && forall j | 0 <= j < i :: parts[j] == Quoted(argv[j])
    {
      var q := ShellQuote(argv[i]);
      parts := parts + [q];
    }
    line := "";
    for i := |parts| downto 0
      invariant line == Joined(argv[i..])
    {
      assert argv[i..][1..] == argv[i + 1..];
      line := if i + 1 == |parts| then parts[i] else parts[i] + " " + line;
    }
    assert argv[0..] == argv;
  }

  lemma {:induction false} EscapedIsLonger(s: string)
    ensures |Escaped(s)| >= |s|
  {
    if s != "" {
      EscapedIsLonger(s[1..]);
    }
  }

  /** Only a non-empty argument of plain characters is passed as it is; everything else is put in single quotes. */
  lemma UnquotedIff(s: string)
    ensures Quoted(s) == s <==>
              s != "" && forall i | 0 <= i < |s| ::
                'a' <= s[i] <= 'z' || 'A' <= s[i] <= 'Z' || '0' <= s[i] <= '9'
                || s[i] in {'@', '%', '+', '=', ':', ',', '.', '/', '-', '_'}
    ensures Quoted(s) != s ==> |Quoted(s)| >= 2 && Quoted(s)[0] == '\'' == Quoted(s)[|Quoted(s)| - 1]
  {
    EscapedIsLonger(s);
  }

  // --- The shell's side ---

  /** Plain between tokens or inside an unquoted part of a word; word is the word read so far, if one has begun. */
  datatype Mode = Plain | InSingle | Comment

  /** Meant is a character with a further meaning to the shell outside quotes: expansion, operator, pattern, newline. */
  datatype Lexed = Words(words: seq<string>) | Unterminated | Meant(c: char)

  predicate IsBlank(c: char) { c == ' ' || c == '\t' }

  /** The unquoted characters of section 2.2 that this lexer does not interpret; `=` and `%` are read literally. */
  predicate HasMeaning(c: char) {
    c in {'|', '&', ';', '<', '>', '(', ')', '$', '`', '"', '\n', '*', '?', '[', '~'}
  }

  function Finish(words: seq<string>, word: Option<string>): seq<string> {
    if word.Some? then words + [word.value] else words
  }

  function Grow(word: Option<string>, c: char): Option<string> {
    Some((if word.Some? then word.value else "") + [c])
  }

  /** Reads the rest of a command line into words with their quoting removed. */
  function Lex(line: string, mode: Mode, words: seq<string>, word: Option<string>): Lexed
    decreases |line|
  {
    if line == "" then
      if mode.InSingle? then Unterminated else Words(Finish(words, word))
    else
      var c := line[0];
      match mode
      case Comment => if c == '\n' then Meant(c) else Lex(line[1..], Comment, words, word)
      case InSingle =>
        if c == '\'' then Lex(line[1..], Plain, words, word)
        else Lex(line[1..], InSingle, words, Grow(word, c))
      case Plain =>
        if c == '\'' then Lex(line[1..], InSingle, words, if word.Some? then word else Some(""))
        else if c == '\\' then
          if |line| == 1 then Unterminated
          else if line[1] == '\n' then Lex(line[2..], Plain, words, word)
          else Lex(line[2..], Plain, words, Grow(word, line[1]))
        else if IsBlank(c) then Lex(line[1..], Plain, Finish(words, word), None)
        else if c == '#' && word.None? then Lex(line[1..], Comment, words, word)
        else if HasMeaning(c) then Meant(c)
        else Lex(line[1..], Plain, words, Grow(word, c))
  }

  function Shell(line: string): Lexed { Lex(line, Plain, [], None) }

  // --- Reading back what was quoted ---

  function Append(word: Option<string>, s: string): Option<string> {
    if s == "" then word else Some((if word.Some? then word.value else "") + s)
  }

  // One character at a time.

  lemma LexSafeChar(c: char, rest: string, words: seq<string>, word: Option<string>)
    requires IsSafe(c)
    ensures Lex([c] + rest, Plain, words, word) == Lex(rest, Plain, words, Grow(word, c))
  {
    assert ([c] + rest)[1..] == rest;
  }

  lemma LexBlank(rest: string, words: seq<string>, word: Option<string>)
    ensures Lex(" " + rest, Plain, words, word) == Lex(rest, Plain, Finish(words, word), None)
  {
    assert (" " + rest)[1..] == rest;
  }

  lemma LexOpenQuote(rest: string, words: seq<string>, word: Option<string>)
    ensures Lex("'" + rest, Plain, words, word) == Lex(rest, InSingle, words, if word.Some? then word else Some(""))
  {
    assert ("'" + rest)[1..] == rest;
  }

  lemma LexCloseQuote(rest: string, words: seq<string>, word: Option<string>)
    ensures Lex("'" + rest, InSingle, words, word) == Lex(rest, Plain, words, word)
  {
    assert ("'" + rest)[1..] == rest;
  }

  lemma LexQuotedChar(c: char, rest: string, words: seq<string>, word: string)
    requires c != '\''
    ensures Lex([c] + rest, InSingle, words, Some(word)) == Lex(rest, InSingle, words, Some(word + [c]))
  {
    assert ([c] + rest)[1..] == rest;
  }

  lemma LexBackslashQuote(rest: string, words: seq<string>, word: string)
    ensures Lex("\\'" + rest, Plain, words, Some(word)) == Lex(rest, Plain, words, Some(word + "'"))
  {
    assert ("\\'" + rest)[2..] == rest;
  }

  lemma {:induction false} LexSafe(s: string, rest: string, words: seq<string>, word: Option<string>)
    requires AllSafe(s)
    ensures Lex(s + rest, Plain, words, word) == Lex(rest, Plain, words, Append(word, s))
  {
    if s == "" {
      assert s + rest == rest;
    } else {
      assert s + rest == [s[0]] + (s[1..] + rest);
      LexSafeChar(s[0], s[1..] + rest, words, word);
      LexSafe(s[1..], rest, words, Grow(word, s[0]));
      assert (if word.Some? then word.value else "") + [s[0]] + s[1..] == (if word.Some? then word.value else "") + s;
    }
  }

  /** The escape for a quote: close the quoted part, a backslashed quote, open a quoted part again. */
  lemma LexQuoteEscape(rest: string, words: seq<string>, word: string)
    ensures Lex("'\\''" + rest, InSingle, words, Some(word)) == Lex(rest, InSingle, words, Some(word + "'"))
  {
    assert "'\\''" + rest == "'" + ("\\'" + ("'" + rest));
    LexCloseQuote("\\'" + ("'" + rest), words, Some(word));
    LexBackslashQuote("'" + rest, words, word);
    LexOpenQuote(rest, words, Some(word + "'"));
  }

  lemma LexEscapedChar(c: char, rest: string, words: seq<string>, word: string)
    ensures Lex(EscapedChar(c) + rest, InSingle, words, Some(word)) == Lex(rest, InSingle, words, Some(word + [c]))
  {
    if c == '\'' {
      LexQuoteEscape(rest, words, word);
    } else {
      LexQuotedChar(c, rest, words, word);
    }
  }

  /** Inside single quotes every character stands for itself, with the escape for the quote. */
  lemma {:induction false} LexEscaped(s: string, rest: string, words: seq<string>, word: string)
    ensures Lex(Escaped(s) + rest, InSingle, words, Some(word)) == Lex(rest, InSingle, words, Some(word + s))
  {
    if s == "" {
      assert Escaped(s) + rest == rest && word + s == word;
    } else {
      assert Escaped(s) + rest == EscapedChar(s[0]) + (Escaped(s[1..]) + rest);
      LexEscapedChar(s[0], Escaped(s[1..]) + rest, words, word);
      LexEscaped(s[1..], rest, words, word + [s[0]]);
      assert word + [s[0]] + s[1..] == word + s;
    }
  }

  lemma LexQuoted(s: string, rest: string, words: seq<string>)
    ensures Lex(Quoted(s) + rest, Plain, words, None) == Lex(rest, Plain, words, Some(s))
  {
    if s != "" && AllSafe(s) {
      LexSafe(s, rest, words, None);
      assert "" + s == s;
    } else {
      assert Quoted(s) + rest == "'" + (Escaped(s) + ("'" + rest));
      LexOpenQuote(Escaped(s) + ("'" + rest), words, None);
      LexEscaped(s, "'" + rest, words, "");
      LexCloseQuote(rest, words, Some("" + s));
      assert "" + s == s;
    }
  }

  lemma LexLast(s: string, words: seq<string>)
    ensures Lex(Quoted(s), Plain, words, None) == Words(words + [s])
  {
    LexQuoted(s, "", words);
    assert Quoted(s) + "" == Quoted(s);
  }

  lemma LexNext(s: string, rest: string, words: seq<string>)
    ensures Lex(Quoted(s) + " " + rest, Plain, words, None) == Lex(rest, Plain, words + [s], None)
  {
    assert Quoted(s) + " " + rest == Quoted(s) + (" " + rest);
    LexQuoted(s, " " + rest, words);
    LexBlank(rest, words, Some(s));
  }

  lemma {:induction false} LexJoined(argv: seq<string>, words: seq<string>)
    ensures Lex(Joined(argv), Plain, words, None) == Words(words + argv)
  {
    if argv == [] {
      assert words + argv == words;
    } else if |argv| == 1 {
      LexLast(argv[0], words);
      assert words + argv == words + [argv[0]];
    } else {
      LexNext(argv[0], Joined(argv[1..]), words);
      LexJoined(argv[1..], words + [argv[0]]);
      assert words + [argv[0]] + argv[1..] == words + argv;
    }
  }

  /** The shell reads a joined argv back as exactly that argv, with empty strings, quotes and blanks intact. */
  lemma RoundTrip(argv: seq<string>)
    ensures Shell(Joined(argv)) == Words(argv)
  {
    LexJoined(argv, []);
    assert [] + argv == argv;
  }

  lemma JoinIsInjective(a: seq<string>, b: seq<string>)
    requires Joined(a) == Joined(b)
    ensures a == b
  {
    RoundTrip(a);
    RoundTrip(b);
  }
}
