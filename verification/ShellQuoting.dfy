/** Single-quoting a string for the shell, against the shell's own reading of words. */
module ShellQuoting {
  import opened Wrappers
  import Decimal

  /** Each single quote of the value becomes: close, a double-quoted quote, open again. */
  function Escaped(value: string): string
  {
    if value == "" then "" else (if value[0] == '\'' then "'\"'\"'" else [value[0]]) + Escaped(value[1..])
  }

  function SingleQuote(value: string): string
  {
    "'" + Escaped(value) + "'"
  }

  // ---- Reading a word: POSIX.1-2017, XCU sections 2.2 and 2.3 ----

  datatype Mode = Plain | Single | Double

  /** Blanks, line breaks and operator characters end an unquoted word. */
  predicate EndsWord(c: char)
  {
    || c == ' ' || c == '\t' || c == '\n' || c == ';' || c == '&' || c == '|' || c == '<' || c == '>'
    || c == '(' || c == ')'
  }

  /** Characters that start an expansion, a comment or a pattern when not quoted. */
  predicate Expands(c: char)
  {
    c == '$' || c == '`' || c == '*' || c == '?' || c == '[' || c == '#' || c == '~'
  }

  /** Reads one word from the given quoting mode on, quotes removed: the word and what follows it,
      or None for an unterminated quote or an expansion, which is not read here. */
  function ReadFrom(s: string, mode: Mode, word: string): Option<(string, string)>
    decreases |s|
  {
    if s == "" then
      if mode == Plain then Some((word, "")) else None
    else
      var c := s[0];
      match mode
      case Plain =>
        if EndsWord(c) then Some((word, s))
        else if Expands(c) then None
        else if c == '\'' then ReadFrom(s[1..], Single, word)
        else if c == '"' then ReadFrom(s[1..], Double, word)
        else if c == '\\' then
          if |s| == 1 then None
          else if s[1] == '\n' then ReadFrom(s[2..], Plain, word)
          else ReadFrom(s[2..], Plain, word + [s[1]])
        else ReadFrom(s[1..], Plain, word + [c])
      case Single =>
        if c == '\'' then ReadFrom(s[1..], Plain, word) else ReadFrom(s[1..], Single, word + [c])
      case Double =>
        if c == '"' then ReadFrom(s[1..], Plain, word)
        else if c == '$' || c == '`' then None
        else if c == '\\' && |s| > 1 && s[1] == '\n' then ReadFrom(s[2..], Double, word)
        else if c == '\\' && |s| > 1 && (s[1] == '$' || s[1] == '`' || s[1] == '"' || s[1] == '\\') then ReadFrom(s[2..], Double, word + [s[1]])
        else ReadFrom(s[1..], Double, word + [c])
  }

  /** Skips blanks, then reads words up to the end of the line. */
  function ReadWords(s: string): Option<(seq<string>, string)>
    decreases |s|
  {
    if s == "" || s[0] == '\n' then Some(([], s))
    else if s[0] == ' ' || s[0] == '\t' then ReadWords(s[1..])
    else
      match ReadFrom(s, Plain, "")
      case None => None
      case Some((word, rest)) =>
        if |rest| >= |s| then None
        else
          match ReadWords(rest)
          case None => None
          case Some((words, tail)) => Some(([word] + words, tail))
  }

  lemma {:induction false} EscapedReadsBack(value: string, rest: string, word: string)
    requires rest == "" || EndsWord(rest[0])
    ensures ReadFrom(Escaped(value) + "'" + rest, Single, word) == Some((word + value, rest))
    decreases |value|
  {
    var s := Escaped(value) + "'" + rest;
    if value == "" {
      assert s == "'" + rest && s[1..] == rest;
      assert word + value == word;
    } else {
      var tail := Escaped(value[1..]) + "'" + rest;
      assert word + [value[0]] + value[1..] == word + value;
      EscapedReadsBack(value[1..], rest, word + [value[0]]);
      if value[0] == '\'' {
        assert s == "'\"'\"'" + tail;
        QuoteInQuotes(tail, word);
      } else {
        assert s == [value[0]] + tail && s[1..] == tail;
      }
    }
  }

  /** The five characters that stand for a quote, read inside single quotes. */
  lemma QuoteInQuotes(tail: string, word: string)
    ensures ReadFrom("'\"'\"'" + tail, Single, word) == ReadFrom(tail, Single, word + "'")
  {
    var s := "'\"'\"'" + tail;
    assert s[1..] == "\"'\"'" + tail;
    assert s[1..][1..] == "'\"'" + tail;
    assert s[1..][1..][1..] == "\"'" + tail;
    assert s[1..][1..][1..][1..] == "'" + tail;
    assert s[1..][1..][1..][1..][1..] == tail;
    assert ReadFrom(s, Single, word) == ReadFrom(s[1..], Plain, word);
    assert ReadFrom(s[1..], Plain, word) == ReadFrom(s[1..][1..], Double, word);
    assert ReadFrom(s[1..][1..], Double, word) == ReadFrom(s[1..][1..][1..], Double, word + ['\'']);
    assert ReadFrom(s[1..][1..][1..], Double, word + ['\'']) == ReadFrom(s[1..][1..][1..][1..], Plain, word + ['\'']);
  }

  lemma QuoteOpens()
    ensures !EndsWord('\'') && !Expands('\'')
  {
  }

  /** For every value, the shell reads the quoted form as one word, equal to the value. */
  lemma QuotedReadsBack(value: string, rest: string)
    requires rest == "" || EndsWord(rest[0])
    ensures ReadFrom(SingleQuote(value) + rest, Plain, "") == Some((value, rest))
  {
    var s := SingleQuote(value) + rest;
    assert s[1..] == Escaped(value) + "'" + rest;
    EscapedReadsBack(value, rest, "");
    assert "" + value == value;
    QuoteOpens();
    assert ReadFrom(s, Plain, "") == ReadFrom(s[1..], Single, "");
  }

  // ---- The command line that applies a timeout ----

  function TimeoutLine(command: string, timeoutSecs: nat): string
  {
    "  timeout " + Decimal.Print(timeoutSecs) + "s sh -lc " + SingleQuote(command)
  }

  predicate Quotes(c: char)
  {
    c == '\'' || c == '"' || c == '\\'
  }

  predicate IsPlainWord(w: string)
  {
    w != "" && forall i :: 0 <= i < |w| ==> !EndsWord(w[i]) && !Expands(w[i]) && !Quotes(w[i])
  }

  lemma {:induction false} PlainReads(w: string, rest: string, word: string)
    requires forall i :: 0 <= i < |w| ==> !EndsWord(w[i]) && !Expands(w[i]) && !Quotes(w[i])
    requires rest == "" || EndsWord(rest[0])
    ensures ReadFrom(w + rest, Plain, word) == Some((word + w, rest))
    decreases |w|
  {
    if w == "" {
      assert w + rest == rest && word + w == word;
    } else {
      assert (w + rest)[1..] == w[1..] + rest;
      assert word + [w[0]] + w[1..] == word + w;
      PlainReads(w[1..], rest, word + [w[0]]);
    }
  }

  /** Words set apart by single spaces, in front of something. */
  function Spaced(words: seq<string>, last: string): string
  {
    if words == [] then last else words[0] + " " + Spaced(words[1..], last)
  }

  lemma {:induction false} SpacedReads(words: seq<string>, last: string, more: seq<string>, tail: string)
    requires forall w :: w in words ==> IsPlainWord(w)
    requires ReadWords(last) == Some((more, tail))
    ensures ReadWords(Spaced(words, last)) == Some((words + more, tail))
  {
    if words == [] {
      assert words + more == more;
    } else {
      SpacedReads(words[1..], last, more, tail);
      NextWord(words[0], Spaced(words[1..], last), words[1..] + more, tail);
      assert words + more == [words[0]] + (words[1..] + more);
    }
  }

  lemma NextWord(w: string, rest: string, words: seq<string>, tail: string)
    requires IsPlainWord(w) && ReadWords(rest) == Some((words, tail))
    ensures ReadWords(w + " " + rest) == Some(([w] + words, tail))
  {
    var s := w + " " + rest;
    assert s == w + (" " + rest);
    PlainReads(w, " " + rest, "");
    assert "" + w == w;
    assert !EndsWord(s[0]);
    assert (" " + rest)[1..] == rest;
  }

  /** Whatever the command, the line runs `timeout` on `sh -lc` with that command as one argument. */
  lemma TimeoutLineWords(command: string, timeoutSecs: nat, rest: string)
    requires rest == "" || rest[0] == '\n'
    ensures ReadWords(TimeoutLine(command, timeoutSecs) + rest)
      == Some((["timeout", Decimal.Print(timeoutSecs) + "s", "sh", "-lc", command], rest))
  {
    hide ReadFrom, Decimal.Print, SingleQuote, IsPlainWord, Spaced, TimeoutLine;
    var quoted := SingleQuote(command) + rest;
    var duration := Decimal.Print(timeoutSecs) + "s";
    var words := ["timeout", duration, "sh", "-lc"];
    LastWord(command, rest);
    DurationIsPlain(timeoutSecs);
    LiteralsArePlain();
    SpacedReads(words, quoted, [command], rest);
    TimeoutLineIsSpaced(command, timeoutSecs, rest);
    var line := Spaced(words, quoted);
    assert ("  " + line)[1..] == " " + line && (" " + line)[1..] == line;
    assert words + [command] == ["timeout", duration, "sh", "-lc", command];
  }

  lemma LiteralsArePlain()
    ensures IsPlainWord("timeout") && IsPlainWord("sh") && IsPlainWord("-lc")
  {
  }

  lemma DurationIsPlain(secs: nat)
    ensures IsPlainWord(Decimal.Print(secs) + "s")
  {
    hide Decimal.Print;
    var duration := Decimal.Print(secs) + "s";
    assert forall i :: 0 <= i < |duration| - 1 ==> Decimal.IsDigit(duration[i]);
  }

  lemma TimeoutLineIsSpaced(command: string, timeoutSecs: nat, rest: string)
    ensures TimeoutLine(command, timeoutSecs) + rest
      == "  " + Spaced(["timeout", Decimal.Print(timeoutSecs) + "s", "sh", "-lc"], SingleQuote(command) + rest)
  {
    hide Decimal.Print, SingleQuote;
    var quoted := SingleQuote(command) + rest;
    var duration := Decimal.Print(timeoutSecs) + "s";
    assert Spaced([], quoted) == quoted;
    assert Spaced(["-lc"], quoted) == "-lc" + " " + quoted;
    assert ["sh", "-lc"][1..] == ["-lc"];
    assert Spaced(["sh", "-lc"], quoted) == "sh" + " " + Spaced(["-lc"], quoted);
    assert [duration, "sh", "-lc"][1..] == ["sh", "-lc"];
    assert Spaced([duration, "sh", "-lc"], quoted) == duration + " " + Spaced(["sh", "-lc"], quoted);
    assert ["timeout", duration, "sh", "-lc"][1..] == [duration, "sh", "-lc"];
  }

  lemma LastWord(command: string, rest: string)
    requires rest == "" || rest[0] == '\n'
    ensures ReadWords(SingleQuote(command) + rest) == Some(([command], rest))
  {
    QuotedReadsBack(command, rest);
    var s := SingleQuote(command) + rest;
    assert s[0] == '\'' && |rest| < |s|;
    assert ReadWords(rest) == Some(([], rest));
    assert [command] + [] == [command];
  }
}
