/** Strings the way the program's standard library sees them: Unicode scalar values with a UTF-8
    width each, white space, words, lines. */
module Text {

  /** The White_Space property of Unicode. */
  predicate IsWhitespace(c: char)
  {
    || '\U{0009}' <= c <= '\U{000D}' || c == ' ' || c == '\U{0085}' || c == '\U{00A0}' || c == '\U{1680}'
    || '\U{2000}' <= c <= '\U{200A}' || c == '\U{2028}' || c == '\U{2029}' || c == '\U{202F}' || c == '\U{205F}'
    || c == '\U{3000}'
  }

  /** Bytes that a scalar value takes in UTF-8. */
  function Width(c: char): (n: nat)
    ensures 1 <= n <= 4
  {
    if c < '\U{0080}' then 1 else if c < '\U{0800}' then 2 else if c < '\U{10000}' then 3 else 4
  }

  function ByteLen(s: string): nat
  {
    if s == "" then 0 else Width(s[0]) + ByteLen(s[1..])
  }

  lemma {:induction false} ByteLenConcat(a: string, b: string)
    ensures ByteLen(a + b) == ByteLen(a) + ByteLen(b)
  {
    if a == "" {
      assert a + b == b;
    } else {
      assert (a + b)[1..] == a[1..] + b;
      ByteLenConcat(a[1..], b);
    }
  }

  lemma {:induction false} ByteLenAtLeast(s: string)
    ensures |s| <= ByteLen(s) <= 4 * |s|
  {
    if s != "" { ByteLenAtLeast(s[1..]); }
  }

  // ---- White space at the ends ----

  predicate Trimmed(s: string)
  {
    s == "" || (!IsWhitespace(s[0]) && !IsWhitespace(s[|s| - 1]))
  }

  function LeadingWhitespace(s: string): (k: nat)
    ensures k <= |s| && forall i :: 0 <= i < k ==> IsWhitespace(s[i])
    ensures k < |s| ==> !IsWhitespace(s[k])
  {
    if s != "" && IsWhitespace(s[0]) then 1 + LeadingWhitespace(s[1..]) else 0
  }

  function TrimStart(s: string): string
  {
    s[LeadingWhitespace(s)..]
  }

  function TrimEnd(s: string): (t: string)
    ensures t == "" || !IsWhitespace(t[|t| - 1])
    ensures t <= s && forall i :: |t| <= i < |s| ==> IsWhitespace(s[i])
  {
    if s != "" && IsWhitespace(s[|s| - 1]) then TrimEnd(s[..|s| - 1]) else s
  }

  /** What is left without the white space at both ends. */
  function Trim(s: string): (t: string)
    ensures Trimmed(t)
    ensures Trimmed(s) ==> t == s
  {
    TrimEnd(TrimStart(s))
  }

  /** Trimming takes away white space at the ends and nothing else. */
  lemma TrimTakesOnlyWhitespace(s: string) returns (before: string, after: string)
    ensures s == before + Trim(s) + after
    ensures (forall c :: c in before ==> IsWhitespace(c)) && (forall c :: c in after ==> IsWhitespace(c))
  {
    hide TrimEnd, LeadingWhitespace, IsWhitespace;
    var k := LeadingWhitespace(s);
    before, after := s[..k], s[k..][|Trim(s)|..];
    TrimEndTakesOnlyWhitespace(s[k..]);
    assert s == before + s[k..];
    assert before + (Trim(s) + after) == before + Trim(s) + after;
  }

  lemma TrimEndTakesOnlyWhitespace(s: string)
    ensures s == TrimEnd(s) + s[|TrimEnd(s)|..]
    ensures forall c :: c in s[|TrimEnd(s)|..] ==> IsWhitespace(c)
  {
    hide IsWhitespace;
    var after := s[|TrimEnd(s)|..];
    forall c | c in after ensures IsWhitespace(c) {
      var i :| 0 <= i < |after| && after[i] == c;
      assert after[i] == s[|TrimEnd(s)| + i];
    }
  }

  // ---- Words ----

  predicate IsWord(w: string)
  {
    w != "" && forall c :: c in w ==> !IsWhitespace(c)
  }

  function WordEnd(s: string): (k: nat)
    ensures k <= |s|
    ensures forall i :: 0 <= i < k ==> !IsWhitespace(s[i])
    ensures k < |s| ==> IsWhitespace(s[k])
  {
    if s == "" || IsWhitespace(s[0]) then 0 else 1 + WordEnd(s[1..])
  }

  /** The maximal runs of non-white-space. */
  function Words(s: string): seq<string>
    decreases |s|
  {
    if s == "" then []
    else if IsWhitespace(s[0]) then Words(s[1..])
    else [s[..WordEnd(s)]] + Words(s[WordEnd(s)..])
  }

  lemma {:induction false} WordEndUnique(s: string, k: nat)
    requires k <= |s| && (forall i :: 0 <= i < k ==> !IsWhitespace(s[i])) && (k < |s| ==> IsWhitespace(s[k]))
    ensures WordEnd(s) == k
  {
  }

  /** White space separates: the words on its two sides do not touch. */
  lemma {:induction false} WordsConcat(a: string, c: char, b: string)
    requires IsWhitespace(c)
    ensures Words(a + [c] + b) == Words(a) + Words(b)
    decreases |a|
  {
    var s := a + [c] + b;
    if a == "" {
      assert s[1..] == b;
    } else if IsWhitespace(a[0]) {
      assert s[1..] == a[1..] + [c] + b;
      WordsConcat(a[1..], c, b);
    } else {
      var k := WordEnd(a);
      WordEndUnique(s, k);
      assert s[..k] == a[..k];
      assert s[k..] == a[k..] + [c] + b;
      WordsConcat(a[k..], c, b);
      assert Words(s) == [a[..k]] + (Words(a[k..]) + Words(b));
    }
  }

  lemma {:induction false} WordsAreWords(s: string)
    ensures forall w :: w in Words(s) ==> IsWord(w)
    decreases |s|
  {
    if s != "" {
      if IsWhitespace(s[0]) { WordsAreWords(s[1..]); } else { WordsAreWords(s[WordEnd(s)..]); }
    }
  }

  lemma WordIsItsOnlyWord(w: string)
    requires IsWord(w)
    ensures Words(w) == [w]
  {
    WordEndUnique(w, |w|);
    assert w[..|w|] == w;
    assert Words(w[|w|..]) == [];
  }

  // ---- Joining and splitting ----

  function Join(parts: seq<string>, separator: string): string
  {
    if parts == [] then "" else if |parts| == 1 then parts[0] else parts[0] + separator + Join(parts[1..], separator)
  }

  /** The words of several strings, one string after another. */
  function WordsOf(parts: seq<string>): seq<string>
  {
    if parts == [] then [] else Words(parts[0]) + WordsOf(parts[1..])
  }

  lemma {:induction false} WordsOfConcat(a: seq<string>, b: seq<string>)
    ensures WordsOf(a + b) == WordsOf(a) + WordsOf(b)
  {
    if a == [] {
      assert a + b == b;
    } else {
      assert (a + b)[1..] == a[1..] + b;
      WordsOfConcat(a[1..], b);
    }
  }

  lemma {:induction false} WordsOfWords(words: seq<string>)
    requires forall w :: w in words ==> IsWord(w)
    ensures WordsOf(words) == words
  {
    if words != [] {
      WordIsItsOnlyWord(words[0]);
      WordsOfWords(words[1..]);
    }
  }

  lemma {:induction false} WordsOfJoin(parts: seq<string>, c: char)
    requires IsWhitespace(c)
    ensures Words(Join(parts, [c])) == WordsOf(parts)
  {
    if |parts| == 1 {
      assert WordsOf(parts) == Words(parts[0]) + WordsOf(parts[1..]);
    } else if |parts| > 1 {
      WordsConcat(parts[0], c, Join(parts[1..], [c]));
      WordsOfJoin(parts[1..], c);
    }
  }

  function LineEnd(s: string): (k: nat)
    ensures k <= |s| && '\n' !in s[..k]
    ensures k < |s| ==> s[k] == '\n'
  {
    if s == "" || s[0] == '\n' then 0
    else
      assert s[..1 + LineEnd(s[1..])] == [s[0]] + s[1..][..LineEnd(s[1..])];
      1 + LineEnd(s[1..])
  }

  function StripCr(s: string): string
  {
    if s != "" && s[|s| - 1] == '\r' then s[..|s| - 1] else s
  }

  /** The lines, each without its "\n" or "\r\n"; no empty line after a final line break. */
  function Lines(s: string): seq<string>
    decreases |s|
  {
    if s == "" then []
    else
      var k := LineEnd(s);
      if k == |s| then [s] else [StripCr(s[..k])] + Lines(s[k + 1..])
  }

  lemma {:induction false} LineEndUnique(s: string, k: nat)
    requires k <= |s| && '\n' !in s[..k] && (k < |s| ==> s[k] == '\n')
    ensures LineEnd(s) == k
  {
    if k > 0 {
      assert s[0] == s[..k][0];
      assert s[..k][1..] == s[1..][..k - 1];
      LineEndUnique(s[1..], k - 1);
    }
  }

  /** What the lines of a text are: a break ends a line and takes a CR before it along; text after the
      last break is a line of its own. */
  lemma LinesMeaning(line: string, rest: string)
    requires '\n' !in line
    ensures Lines(line + "\r\n" + rest) == [line] + Lines(rest)
    ensures line == "" || line[|line| - 1] != '\r' ==> Lines(line + "\n" + rest) == [line] + Lines(rest)
    ensures Lines(line) == if line == "" then [] else [line]
  {
    var crlf, lf := line + "\r\n" + rest, line + "\n" + rest;
    assert crlf[..|line| + 1] == line + "\r" && crlf[|line| + 2..] == rest;
    LineEndUnique(crlf, |line| + 1);
    assert lf[..|line|] == line && lf[|line| + 1..] == rest;
    LineEndUnique(lf, |line|);
    assert line[..|line|] == line;
    LineEndUnique(line, |line|);
  }

  predicate IsLine(line: string)
  {
    '\n' !in line
  }

  lemma {:induction false} LinesAreLines(s: string)
    ensures forall i :: 0 <= i < |Lines(s)| ==> IsLine(Lines(s)[i])
    decreases |s|
  {
    if s != "" && LineEnd(s) < |s| {
      LinesAreLines(s[LineEnd(s) + 1..]);
    } else if s != "" {
      assert s[..|s|] == s;
    }
  }

  /** Lines put back together survive being split again. */
  predicate Resplittable(lines: seq<string>)
  {
    && (lines != [] ==> lines[|lines| - 1] != "")
    && forall i :: 0 <= i < |lines| - 1 ==> lines[i] == "" || lines[i][|lines[i]| - 1] != '\r'
  }

  lemma {:induction false} JoinedLines(lines: seq<string>)
    requires (forall i :: 0 <= i < |lines| ==> IsLine(lines[i])) && Resplittable(lines)
    ensures Lines(Join(lines, "\n")) == lines
  {
    hide Lines;
    if lines == [] {
      LinesMeaning("", "");
    } else if |lines| == 1 {
      LinesMeaning(lines[0], "");
    } else {
      var rest := lines[1..];
      assert forall i :: 0 <= i < |rest| ==> rest[i] == lines[i + 1];
      assert rest[|rest| - 1] == lines[|lines| - 1];
      JoinedLines(rest);
      LinesMeaning(lines[0], Join(rest, "\n"));
      assert Join(lines, "\n") == lines[0] + "\n" + Join(rest, "\n");
    }
  }

  lemma StripCrKeepsWords(s: string)
    ensures Words(StripCr(s)) == Words(s)
  {
    if s != "" && s[|s| - 1] == '\r' {
      assert s == s[..|s| - 1] + ['\r'] + "";
      WordsConcat(s[..|s| - 1], '\r', "");
    }
  }

  lemma {:induction false} LinesKeepWords(s: string)
    ensures WordsOf(Lines(s)) == Words(s)
    decreases |s|
  {
    if s != "" {
      var k := LineEnd(s);
      if k == |s| {
        assert Lines(s) == [s];
        assert WordsOf([s]) == Words(s) + WordsOf([]);
      } else {
        assert s == s[..k] + ['\n'] + s[k + 1..];
        WordsConcat(s[..k], '\n', s[k + 1..]);
        StripCrKeepsWords(s[..k]);
        LinesKeepWords(s[k + 1..]);
      }
    }
  }

  // ---- Measuring and shortening ----

  function EstimateTokens(content: string): nat
  {
    |Words(content)|
  }

  function TruncateForSummary(content: string, maxWords: nat): string
  {
    var words := Words(content);
    if |words| <= maxWords then Join(words, " ") else Join(words[..maxWords], " ") + " ..."
  }

  lemma WordsOfCut(words: seq<string>, cut: nat)
    requires cut <= |words| && cut > 0 && forall w :: w in words ==> IsWord(w)
    ensures Words(Join(words[..cut], " ") + " ...") == words[..cut] + ["..."]
  {
    var joined := Join(words[..cut], " ");
    assert joined + " ..." == joined + [' '] + "...";
    WordsConcat(joined, ' ', "...");
    WordIsItsOnlyWord("...");
    WordsOfJoin(words[..cut], ' ');
    WordsOfWords(words[..cut]);
  }

  /** The first words of the original, at most limit of them, and an ellipsis if that is not all. */
  ghost predicate KeepsFirstWords(shown: string, original: string, limit: nat)
  {
    var words := Words(original);
    if |words| <= limit then shown == Join(words, " ") && Words(shown) == words
    else shown == Join(words[..limit], " ") + " ..." && Words(shown) == words[..limit] + ["..."]
  }

  lemma FirstWordsKept(content: string, limit: nat)
    requires limit > 0
    ensures KeepsFirstWords(TruncateForSummary(content, limit), content, limit)
  {
    var words := Words(content);
    WordsAreWords(content);
    if |words| <= limit {
      WordsOfJoin(words, ' ');
      WordsOfWords(words);
    } else {
      WordsOfCut(words, limit);
    }
  }
}
