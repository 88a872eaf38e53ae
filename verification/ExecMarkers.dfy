/** How a shell session tells where a command's output ends: marker lines on standard output, and
    the pump that picks them out. */
module ExecMarkers {
  import opened Wrappers
  import opened Text
  import opened ShellOutput
  import Decimal

  const EXEC_START_MARKER := "__AJX_EXEC_START__"
  const EXEC_END_MARKER := "__AJX_EXEC_END__"

  datatype ExecEnd = ExecEnd(execId: string, exitCode: int, cwd: string)

  // ---- Reading an end marker ----

  function TrimEndChar(s: string, c: char): (t: string)
    ensures t <= s && (t == "" || t[|t| - 1] != c)
    ensures s == "" || s[|s| - 1] != c ==> t == s
  {
    if s != "" && s[|s| - 1] == c then TrimEndChar(s[..|s| - 1], c) else s
  }

  /** The text before the first occurrence of c and the text after it. */
  function SplitOnce(s: string, c: char): (r: Option<(string, string)>)
    ensures r.None? <==> c !in s
    ensures r.Some? ==> c !in r.value.0 && s == r.value.0 + [c] + r.value.1
  {
    if s == "" then None
    else if s[0] == c then Some(("", s[1..]))
    else
      match SplitOnce(s[1..], c)
      case None => None
      case Some((before, after)) =>
        assert s == [s[0]] + s[1..];
        Some(([s[0]] + before, after))
  }

  predicate IsI32(n: int)
  {
    -0x8000_0000 <= n <= 0x7FFF_FFFF
  }

  /** A sign is optional; there must be digits, and the value must fit. */
  function ParseI32(s: string): (r: Option<int>)
    ensures r.Some? ==> IsI32(r.value)
  {
    var negative := s != "" && s[0] == '-';
    var digits := if s != "" && (s[0] == '-' || s[0] == '+') then s[1..] else s;
    if digits == "" || !Decimal.AllDigits(digits) then None
    else
      var n: int := if negative then 0 - Decimal.Value(digits) else Decimal.Value(digits);
      if IsI32(n) then Some(n) else None
  }

  function PrintInt(n: int): string
  {
    if n < 0 then "-" + Decimal.Print(-n) else Decimal.Print(n)
  }

  /** Three fields between tabs; the last one may hold tabs itself. */
  function ParseFields(fields: string): Option<ExecEnd>
  {
    match SplitOnce(fields, '\t')
    case None => None
    case Some((execId, rest)) =>
      match SplitOnce(rest, '\t')
      case None => None
      case Some((code, cwd)) =>
        match ParseI32(code)
        case None => None
        case Some(exitCode) => Some(ExecEnd(execId, exitCode, cwd))
  }

  function ParseExecEndMarker(line: string): Option<ExecEnd>
  {
    var trimmed := TrimEndChar(TrimEndChar(line, '\n'), '\r');
    var prefix := EXEC_END_MARKER + "\t";
    if prefix <= trimmed then ParseFields(trimmed[|prefix|..]) else None
  }

  /** The line that the script prints when the command is done. */
  function EmitExecEnd(e: ExecEnd): string
  {
    EXEC_END_MARKER + "\t" + e.execId + "\t" + PrintInt(e.exitCode) + "\t" + e.cwd + "\n"
  }

  /** One line of a stream, line break included, and what follows it. */
  function ReadLine(stream: string): (string, string)
  {
    var k := LineEnd(stream);
    if k == |stream| then (stream, "") else (stream[..k + 1], stream[k + 1..])
  }

  lemma PrintedIntParses(n: int)
    requires IsI32(n)
    ensures ParseI32(PrintInt(n)) == Some(n)
    ensures '\t' !in PrintInt(n) && '\n' !in PrintInt(n)
  {
    hide Decimal.Print, Decimal.Value;
    var digits := Decimal.Print(if n < 0 then -n else n);
    Decimal.ValueOfPrint(if n < 0 then -n else n);
    assert Decimal.IsDigit(digits[0]);
    assert ("-" + digits)[1..] == digits;
    assert '\t' !in digits && '\n' !in digits by {
      assert forall i :: 0 <= i < |digits| ==> Decimal.IsDigit(digits[i]);
    }
  }

  /** How a 32-bit number may be written: an optional sign, leading zeros, and its digits. */
  ghost predicate Denotes(s: string, n: int)
  {
    exists sign: string, zeros: nat :: Written(s, n, sign, zeros)
  }

  ghost predicate Written(s: string, n: int, sign: string, zeros: nat)
  {
    && IsI32(n) && s == sign + (Decimal.Zeros(zeros) + Decimal.Print(if n < 0 then -n else n))
    && (n > 0 ==> sign == "" || sign == "+") && (n < 0 ==> sign == "-") && (n == 0 ==> sign in ["", "+", "-"])
  }

  lemma ParseI32ExactlyWhen(s: string, n: int)
    ensures ParseI32(s) == Some(n) <==> Denotes(s, n)
  {
    if ParseI32(s) == Some(n) {
      ParsedDenotes(s, n);
    }
    if Denotes(s, n) {
      hide Decimal.Print, Decimal.Value, Decimal.Zeros, ParseI32;
      var sign: string, zeros: nat :| Written(s, n, sign, zeros);
      WrittenParses(s, n, sign, zeros);
    }
  }

  lemma ParsedDenotes(s: string, n: int)
    requires ParseI32(s) == Some(n)
    ensures Denotes(s, n)
  {
    hide Decimal.Print, Decimal.Value, Decimal.Zeros;
    var signed := s != "" && (s[0] == '-' || s[0] == '+');
    var digits := if signed then s[1..] else s;
    var sign := if signed then [s[0]] else "";
    var zeros := Decimal.DigitsAreZerosAndPrint(digits);
    assert s == sign + digits;
    assert Written(s, n, sign, zeros);
  }

  lemma WrittenParses(s: string, n: int, sign: string, zeros: nat)
    requires Written(s, n, sign, zeros)
    ensures ParseI32(s) == Some(n)
  {
    hide Decimal.Print, Decimal.Value, Decimal.Zeros;
    var size: nat := if n < 0 then -n else n;
    var digits := Decimal.Zeros(zeros) + Decimal.Print(size);
    Decimal.ValueOfZerosAndPrint(zeros, size);
    SignAndDigits(s, sign, digits);
  }

  lemma SignAndDigits(s: string, sign: string, digits: string)
    requires s == sign + digits && digits != "" && Decimal.AllDigits(digits) && sign in ["", "+", "-"]
    ensures s != "" && (if sign == "" then s == digits && s[0] != '-' && s[0] != '+' else s[0] == sign[0] && s[1..] == digits)
  {
    assert Decimal.IsDigit(digits[0]);
  }

  lemma FirstOccurrenceUnique(s: string, c: char, i: nat, j: nat)
    requires i < |s| && s[i] == c && forall k :: 0 <= k < i ==> s[k] != c
    requires j < |s| && s[j] == c && forall k :: 0 <= k < j ==> s[k] != c
    ensures i == j
  {
  }

  lemma SplitOnceAt(before: string, c: char, after: string)
    requires c !in before
    ensures SplitOnce(before + [c] + after, c) == Some((before, after))
  {
    var s := before + [c] + after;
    assert s[|before|] == c;
    var r := SplitOnce(s, c).value;
    assert r.0 == s[..|r.0|] && r.1 == s[|r.0| + 1..];
    assert before == s[..|before|] && after == s[|before| + 1..];
    assert forall k :: 0 <= k < |before| ==> s[k] in before;
    assert forall k :: 0 <= k < |r.0| ==> s[k] == r.0[k] && r.0[k] in r.0;
    FirstOccurrenceUnique(s, c, |before|, |r.0|);
  }

  /** The fields of an end line up to the directory. */
  function Fields(execId: string, code: string): string
  {
    EXEC_END_MARKER + "\t" + (execId + "\t" + (code + "\t"))
  }

  lemma ParsedFields(fields: string) returns (code: string)
    requires ParseFields(fields).Some?
    ensures var e := ParseFields(fields).value;
      && '\t' !in e.execId && '\t' !in code && IsI32(e.exitCode) && Denotes(code, e.exitCode)
      && fields == e.execId + "\t" + (code + "\t") + e.cwd
  {
    hide ParseI32, Denotes;
    var (execId, rest) := SplitOnce(fields, '\t').value;
    var (c, cwd) := SplitOnce(rest, '\t').value;
    code := c;
    ParseI32ExactlyWhen(code, ParseFields(fields).value.exitCode);
    assert fields == execId + ['\t'] + (code + ['\t'] + cwd);
    assert fields == execId + "\t" + (code + "\t") + cwd;
  }

  /** Everything a parsed line consists of. */
  lemma ParsedParts(line: string) returns (code: string)
    requires ParseExecEndMarker(line).Some?
    ensures var e := ParseExecEndMarker(line).value;
      && '\t' !in e.execId && '\t' !in code && IsI32(e.exitCode) && Denotes(code, e.exitCode)
      && TrimEndChar(TrimEndChar(line, '\n'), '\r') == Fields(e.execId, code) + e.cwd
  {
    hide ParseFields, TrimEndChar, Denotes;
    var trimmed := TrimEndChar(TrimEndChar(line, '\n'), '\r');
    var prefix := EXEC_END_MARKER + "\t";
    var e := ParseExecEndMarker(line).value;
    code := ParsedFields(trimmed[|prefix|..]);
    assert trimmed == prefix + trimmed[|prefix|..];
    assert trimmed == Fields(e.execId, code) + e.cwd;
  }

  /** What a parsed line must have looked like. */
  lemma ParsedShape(line: string)
    requires ParseExecEndMarker(line).Some?
    ensures var e := ParseExecEndMarker(line).value;
      && '\t' !in e.execId && IsI32(e.exitCode)
      && (e.cwd == "" || e.cwd[|e.cwd| - 1] != '\r')
      && (forall c :: c in e.execId || c in e.cwd ==> c in TrimEndChar(line, '\n'))
  {
    hide ParseExecEndMarker, TrimEndChar;
    var code := ParsedParts(line);
    var e := ParseExecEndMarker(line).value;
    var trimmed := TrimEndChar(TrimEndChar(line, '\n'), '\r');
    assert e.cwd != "" ==> trimmed[|trimmed| - 1] == e.cwd[|e.cwd| - 1];
    forall c | c in e.execId || c in e.cwd ensures c in TrimEndChar(line, '\n') {
      FieldsHold(e.execId, code, e.cwd, c);
    }
  }

  lemma FieldsHold(execId: string, code: string, cwd: string, c: char)
    requires c in execId || c in cwd
    ensures c in Fields(execId, code) + cwd
  {
    assert Fields(execId, code) + cwd == EXEC_END_MARKER + "\t" + execId + ("\t" + code + "\t" + cwd);
  }

  /** The parser inverts the printed line, read off the stream it is part of, exactly when the id
      has no tab and no line break and the directory has no line break and no final CR. */
  lemma ParseInvertsEmitExactlyWhen(e: ExecEnd, more: string)
    requires IsI32(e.exitCode)
    ensures ParseExecEndMarker(ReadLine(EmitExecEnd(e) + more).0) == Some(e)
      <==> '\t' !in e.execId && '\n' !in e.execId && '\n' !in e.cwd && (e.cwd == "" || e.cwd[|e.cwd| - 1] != '\r')
  {
    hide ParseExecEndMarker, PrintInt;
    var stream := EmitExecEnd(e) + more;
    var line := ReadLine(stream).0;
    if ParseExecEndMarker(line) == Some(e) {
      ParsedShape(line);
      assert '\n' !in TrimEndChar(line, '\n') by { LineHasOneBreak(stream); }
    }
    if '\t' !in e.execId && '\n' !in e.execId && '\n' !in e.cwd && (e.cwd == "" || e.cwd[|e.cwd| - 1] != '\r') {
      EmittedLine(e, more);
      EmittedParses(e);
    }
  }

  lemma LineHasOneBreak(stream: string)
    ensures '\n' !in TrimEndChar(ReadLine(stream).0, '\n')
  {
    var k := LineEnd(stream);
    var line := ReadLine(stream).0;
    if k < |stream| {
      assert line == stream[..k] + ['\n'] && line[..|line| - 1] == stream[..k];
      assert TrimEndChar(line, '\n') == TrimEndChar(stream[..k], '\n');
    } else {
      assert stream[..k] == stream;
    }
  }

  lemma EmittedLine(e: ExecEnd, more: string)
    requires IsI32(e.exitCode) && '\n' !in e.execId && '\n' !in e.cwd
    ensures ReadLine(EmitExecEnd(e) + more) == (EmitExecEnd(e), more)
  {
    hide PrintInt;
    PrintedIntParses(e.exitCode);
    var emitted := EmitExecEnd(e);
    var stream := emitted + more;
    var k := |emitted| - 1;
    var body := EXEC_END_MARKER + "\t" + e.execId + "\t" + PrintInt(e.exitCode) + "\t" + e.cwd;
    MarkerHasNoBreak();
    assert stream[..k] == body;
    LineEndUnique(stream, k);
  }

  lemma MarkerHasNoBreak()
    ensures '\n' !in EXEC_END_MARKER && '\t' !in EXEC_END_MARKER && '\n' !in EXEC_START_MARKER
  {
  }

  lemma EmittedParses(e: ExecEnd)
    requires IsI32(e.exitCode) && '\t' !in e.execId && '\n' !in e.cwd && (e.cwd == "" || e.cwd[|e.cwd| - 1] != '\r')
    ensures ParseExecEndMarker(EmitExecEnd(e)) == Some(e)
  {
    hide PrintInt, ParseI32, SplitOnce, TrimEndChar;
    PrintedIntParses(e.exitCode);
    var line := EmitExecEnd(e);
    var prefix := EXEC_END_MARKER + "\t";
    var tail := PrintInt(e.exitCode) + ['\t'] + e.cwd;
    var body := prefix + (e.execId + ['\t'] + tail);
    assert line == body + "\n";
    assert body[|body| - 1] == if e.cwd == "" then '\t' else e.cwd[|e.cwd| - 1];
    TrimmedLine(line, body);
    assert body[|prefix|..] == e.execId + ['\t'] + tail;
    SplitOnceAt(e.execId, '\t', tail);
    SplitOnceAt(PrintInt(e.exitCode), '\t', e.cwd);
  }

  // ---- The pump ----

  datatype LineKind = StartLine | EndLine(end: ExecEnd) | OutputLine

  function Classify(line: string): LineKind
  {
    if EXEC_START_MARKER <= line then StartLine
    else
      match ParseExecEndMarker(line)
      case Some(e) => EndLine(e)
      case None => OutputLine
  }

  /** The lines of a stream, line breaks included. */
  function LinesIncl(stream: string): seq<string>
    decreases |stream|
  {
    if stream == "" then [] else [ReadLine(stream).0] + LinesIncl(ReadLine(stream).1)
  }

  function Output(lines: seq<string>): seq<string>
  {
    if lines == [] then [] else (if Classify(lines[0]).OutputLine? then [lines[0]] else []) + Output(lines[1..])
  }

  function Finished(lines: seq<string>): seq<ExecEnd>
  {
    if lines == [] then []
    else (match Classify(lines[0]) case EndLine(e) => [e] case _ => []) + Finished(lines[1..])
  }

  function Texts(chunks: seq<Chunk>): seq<string>
  {
    seq(|chunks|, i requires 0 <= i < |chunks| => chunks[i].text)
  }

  /** Reads standard output line by line: markers are taken out, everything else is kept. Reading
      ends with the stream, or with a failure that is noted in the output. */
  method PumpStdout(session: ShellSession, stdout: string, failure: Option<string>) returns (finished: seq<ExecEnd>)
    requires session.Valid()
    modifies session
    ensures session.Valid() && old(session.history) <= session.history
    ensures Texts(session.history[|old(session.history)|..]) == Output(LinesIncl(stdout)) + FailureLine(failure)
    ensures forall i :: |old(session.history)| <= i < |session.history| ==> session.history[i].stream == "stdout"
    ensures finished == Finished(LinesIncl(stdout))
  {
    hide Classify, ReadLine, Retained, Output, Finished, Texts, LinesIncl, Bytes, ByteLen, FailureText;
    finished := PumpLines(session, stdout);
    if failure.Some? {
      TextsAppend(old(session.history), session.history, Chunk(|session.history| + 1, "stdout", FailureText(failure.value)));
      session.AppendChunk("stdout", FailureText(failure.value));
    }
  }

  function FailureText(error: string): (text: string)
    ensures text != ""
  {
    "shell stream read failed: " + error + "\n"
  }

  function FailureLine(failure: Option<string>): seq<string>
  {
    match failure
    case Some(error) => [FailureText(error)]
    case None => []
  }

  method PumpLines(session: ShellSession, stdout: string) returns (finished: seq<ExecEnd>)
    requires session.Valid()
    modifies session
    ensures session.Valid() && old(session.history) <= session.history
    ensures Texts(session.history[|old(session.history)|..]) == Output(LinesIncl(stdout))
    ensures forall i :: |old(session.history)| <= i < |session.history| ==> session.history[i].stream == "stdout"
    ensures finished == Finished(LinesIncl(stdout))
  {
    hide Classify, ReadLine, Retained, Output, Finished, Texts, LinesIncl, Bytes, ByteLen, Concat;
    finished := [];
    EmptyStream();
    assert session.history[|session.history|..] == [];
    var rest := stdout;
    ghost var before := session.history;
    while rest != ""
      invariant session.Valid() && before <= session.history
      invariant forall i :: |before| <= i < |session.history| ==> session.history[i].stream == "stdout"
      invariant Texts(session.history[|before|..]) + Output(LinesIncl(rest)) == Output(LinesIncl(stdout))
      invariant finished + Finished(LinesIncl(rest)) == Finished(LinesIncl(stdout))
      decreases |rest|
    {
      var (line, next) := ReadLine(rest);
      ReadLineShrinks(rest);
      NextLine(rest);
      match Classify(line) {
        case StartLine =>
        case EndLine(e) => finished := finished + [e];
        case OutputLine =>
          TextsAppend(before, session.history, Chunk(|session.history| + 1, "stdout", line));
          session.AppendChunk("stdout", line);
      }
      rest := next;
    }
  }

  lemma EmptyStream()
    ensures LinesIncl("") == [] && Output([]) == [] && Finished([]) == [] && Texts([]) == []
  {
  }

  lemma NextLine(s: string)
    requires s != ""
    ensures var (line, rest) := ReadLine(s);
      && Output(LinesIncl(s)) == (if Classify(line).OutputLine? then [line] else []) + Output(LinesIncl(rest))
      && Finished(LinesIncl(s)) == (match Classify(line) case EndLine(e) => [e] case _ => []) + Finished(LinesIncl(rest))
  {
    hide Classify, ReadLine;
    ReadLineShrinks(s);
    assert LinesIncl(s)[1..] == LinesIncl(ReadLine(s).1);
  }

  lemma TextsAppend(before: seq<Chunk>, history: seq<Chunk>, c: Chunk)
    requires before <= history
    ensures Texts((history + [c])[|before|..]) == Texts(history[|before|..]) + [c.text]
  {
    assert (history + [c])[|before|..] == history[|before|..] + [c];
  }

  lemma ReadLineShrinks(s: string)
    requires s != ""
    ensures ReadLine(s).0 != "" && |ReadLine(s).1| < |s| && s == ReadLine(s).0 + ReadLine(s).1
  {
  }

  predicate EndsLine(s: string)
  {
    s == "" || s[|s| - 1] == '\n'
  }

  lemma ReadLineOfConcat(a: string, b: string)
    requires a != "" && EndsLine(a)
    ensures ReadLine(a + b) == (ReadLine(a).0, ReadLine(a).1 + b) && EndsLine(ReadLine(a).1)
    ensures |ReadLine(a).1| < |a|
  {
    var k := LineEnd(a);
    assert a[|a| - 1] in a && '\n' in a[..|a|] by {
      assert a[..|a|] == a;
    }
    assert k < |a|;
    var s := a + b;
    assert s[..k] == a[..k];
    LineEndUnique(s, k);
    assert s[..k + 1] == a[..k + 1] && s[k + 1..] == a[k + 1..] + b;
  }

  lemma {:induction false} LinesOfConcat(a: string, b: string)
    requires EndsLine(a)
    ensures LinesIncl(a + b) == LinesIncl(a) + LinesIncl(b)
    decreases |a|
  {
    hide ReadLine, EndsLine;
    if a == "" {
      assert a + b == b;
    } else {
      ReadLineOfConcat(a, b);
      LinesOfConcat(ReadLine(a).1, b);
    }
  }

  /** Where the part after the last line break starts. */
  function AfterLastBreak(s: string): (k: nat)
    ensures k <= |s| && (k > 0 ==> s[k - 1] == '\n')
    ensures forall i :: k <= i < |s| ==> s[i] != '\n'
  {
    if s == "" || s[|s| - 1] == '\n' then |s| else AfterLastBreak(s[..|s| - 1])
  }

  function Unfinished(s: string): string
  {
    s[AfterLastBreak(s)..]
  }

  function Whole(s: string): string
  {
    s[..AfterLastBreak(s)]
  }

  lemma WholeAndUnfinished(s: string)
    ensures s == Whole(s) + Unfinished(s) && EndsLine(Whole(s)) && '\n' !in Unfinished(s)
    ensures Unfinished(s) == "" <==> EndsLine(s)
    ensures EndsLine(s) ==> Whole(s) == s
  {
  }

  lemma {:induction false} FinishedConcat(a: seq<string>, b: seq<string>)
    ensures Finished(a + b) == Finished(a) + Finished(b)
  {
    hide Classify;
    if a == [] {
      assert a + b == b;
    } else {
      assert (a + b)[1..] == a[1..] + b;
      FinishedConcat(a[1..], b);
    }
  }

  lemma {:induction false} OutputConcat(a: seq<string>, b: seq<string>)
    ensures Output(a + b) == Output(a) + Output(b)
  {
    hide Classify;
    if a == [] {
      assert a + b == b;
    } else {
      assert (a + b)[1..] == a[1..] + b;
      OutputConcat(a[1..], b);
    }
  }

  /** No line of a command's own output starts like a marker. */
  predicate NoMarkerLines(output: string)
  {
    forall i :: 0 <= i < |LinesIncl(output)| ==>
      !(EXEC_START_MARKER <= LinesIncl(output)[i]) && !(EXEC_END_MARKER <= LinesIncl(output)[i])
  }

  lemma UnmarkedLineIsOutput(line: string)
    requires !(EXEC_START_MARKER <= line) && !(EXEC_END_MARKER <= line)
    ensures Classify(line) == OutputLine
  {
    ParsedStart(line);
  }

  /** A line parses only if it begins with the marker and a tab. */
  lemma ParsedStart(line: string)
    ensures ParseExecEndMarker(line).Some? ==>
      && EXEC_END_MARKER <= line && |line| > |EXEC_END_MARKER| && line[|EXEC_END_MARKER|] == '\t'
  {
    hide ParseFields;
    if ParseExecEndMarker(line).Some? {
      var trimmed := TrimEndChar(TrimEndChar(line, '\n'), '\r');
      var prefix := EXEC_END_MARKER + "\t";
      assert prefix <= line;
      assert line[|EXEC_END_MARKER|] == prefix[|EXEC_END_MARKER|];
      assert EXEC_END_MARKER == prefix[..|EXEC_END_MARKER|] == line[..|EXEC_END_MARKER|];
    }
  }

  lemma {:induction false} UnmarkedLinesAreOutput(lines: seq<string>)
    requires forall i :: 0 <= i < |lines| ==> !(EXEC_START_MARKER <= lines[i]) && !(EXEC_END_MARKER <= lines[i])
    ensures Output(lines) == lines && Finished(lines) == []
  {
    hide Classify;
    if lines != [] {
      UnmarkedLineIsOutput(lines[0]);
      UnmarkedLinesAreOutput(lines[1..]);
    }
  }

  /** Text glued in front of an end marker hides it from the parser, unless it is a marker itself. */
  lemma GluedMarkerIsHidden(o: string, tail: string)
    requires o != "" && !(EXEC_END_MARKER <= o)
    ensures ParseExecEndMarker(o + EXEC_END_MARKER + "\t" + tail).None?
  {
    var glued := o + EXEC_END_MARKER + "\t" + tail;
    var n := |EXEC_END_MARKER|;
    ParsedStart(glued);
    MarkerHasNoBreak();
    if |o| < n {
      assert glued[n] == EXEC_END_MARKER[n - |o|];
    } else {
      assert glued[..n] == o[..n];
    }
  }

  /** The standard output of one command run in a session. */
  function SessionStdout(execId: string, output: string, e: ExecEnd): string
  {
    EXEC_START_MARKER + execId + "\n" + output + EmitExecEnd(e)
  }

  predicate WellFormedEnd(e: ExecEnd)
  {
    && IsI32(e.exitCode) && '\t' !in e.execId && '\n' !in e.execId
    && '\n' !in e.cwd && (e.cwd == "" || e.cwd[|e.cwd| - 1] != '\r')
  }

  lemma OneLine(body: string)
    requires '\n' !in body
    ensures LinesIncl(body + "\n") == [body + "\n"]
  {
    var s := body + "\n";
    assert s[..|body|] == body;
    LineEndUnique(s, |body|);
    assert s[..|body| + 1] == s && s[|body| + 1..] == "";
    assert LinesIncl(s) == [ReadLine(s).0] + LinesIncl(ReadLine(s).1);
  }

  lemma EmittedIsOneLine(e: ExecEnd, before: string)
    requires WellFormedEnd(e) && '\n' !in before
    ensures LinesIncl(before + EmitExecEnd(e)) == [before + EmitExecEnd(e)]
  {
    hide PrintInt, LinesIncl;
    PrintedIntParses(e.exitCode);
    MarkerHasNoBreak();
    var body := EXEC_END_MARKER + "\t" + e.execId + "\t" + PrintInt(e.exitCode) + "\t" + e.cwd;
    assert EmitExecEnd(e) == body + "\n";
    assert '\n' !in before + body;
    OneLine(before + body);
    assert before + EmitExecEnd(e) == (before + body) + "\n";
  }

  lemma StartLineIsOneLine(execId: string)
    requires '\n' !in execId
    ensures LinesIncl(EXEC_START_MARKER + execId + "\n") == [EXEC_START_MARKER + execId + "\n"]
    ensures Classify(EXEC_START_MARKER + execId + "\n") == StartLine
  {
    MarkerHasNoBreak();
    OneLine(EXEC_START_MARKER + execId);
  }

  /** The lines of a run: the start line, the whole lines of the output, and then the end marker
      with whatever unfinished line it was printed onto. */
  lemma SessionLines(execId: string, output: string, e: ExecEnd)
    requires WellFormedEnd(e) && '\n' !in execId
    ensures var u := Unfinished(output);
      LinesIncl(SessionStdout(execId, output, e)) ==
        [EXEC_START_MARKER + execId + "\n"] + LinesIncl(Whole(output)) + [u + EmitExecEnd(e)]
  {
    hide LinesIncl, EmitExecEnd, Unfinished, Whole;
    WholeAndUnfinished(output);
    var u := Unfinished(output);
    var whole := Whole(output);
    var start := EXEC_START_MARKER + execId + "\n";
    StartLineIsOneLine(execId);
    EmittedIsOneLine(e, u);
    LinesOfConcat(whole, u + EmitExecEnd(e));
    LinesOfConcat(start, whole + (u + EmitExecEnd(e)));
    assert SessionStdout(execId, output, e) == start + (whole + (u + EmitExecEnd(e)));
  }

  lemma UnfinishedLineIsUnmarked(output: string)
    requires NoMarkerLines(output)
    ensures NoMarkerLines(Whole(output))
    ensures Unfinished(output) != "" ==> !(EXEC_END_MARKER <= Unfinished(output))
  {
    hide LinesIncl, Unfinished, Whole;
    var u := Unfinished(output);
    var whole := Whole(output);
    WholeAndUnfinished(output);
    LinesOfConcat(whole, u);
    assert forall i :: 0 <= i < |LinesIncl(whole)| ==> LinesIncl(whole)[i] == LinesIncl(output)[i];
    if u != "" {
      PartOfALine(u);
      assert LinesIncl(output)[|LinesIncl(whole)|] == u;
    }
  }

  lemma PartOfALine(u: string)
    requires u != "" && '\n' !in u
    ensures LinesIncl(u) == [u]
  {
    assert u[..|u|] == u;
    LineEndUnique(u, |u|);
    assert LinesIncl(u) == [ReadLine(u).0] + LinesIncl(ReadLine(u).1);
  }

  /** What is reported at the end of a run, whatever the command printed: the ends that whole lines
      of the output parse as, and then what the last line parses as. */
  lemma ReportedEnds(execId: string, output: string, e: ExecEnd)
    requires WellFormedEnd(e) && '\n' !in execId
    ensures var last := Unfinished(output) + EmitExecEnd(e);
      && Finished(LinesIncl(SessionStdout(execId, output, e))) == Finished(LinesIncl(Whole(output))) + Finished([last])
      && Output(LinesIncl(SessionStdout(execId, output, e))) == Output(LinesIncl(Whole(output))) + Output([last])
  {
    hide LinesIncl, EmitExecEnd, Unfinished, Whole, Classify, Finished, Output;
    var last := Unfinished(output) + EmitExecEnd(e);
    var whole := LinesIncl(Whole(output));
    var start := EXEC_START_MARKER + execId + "\n";
    SessionLines(execId, output, e);
    StartIsTakenOut(execId);
    FinishedConcat([start] + whole, [last]);
    FinishedConcat([start], whole);
    OutputConcat([start] + whole, [last]);
    OutputConcat([start], whole);
  }

  lemma StartIsTakenOut(execId: string)
    requires '\n' !in execId
    ensures Finished([EXEC_START_MARKER + execId + "\n"]) == [] && Output([EXEC_START_MARKER + execId + "\n"]) == []
  {
    StartLineIsOneLine(execId);
  }

  /** The last line is taken for the end of this command exactly when nothing unfinished precedes
      the marker on it. */
  lemma LastLineIsTheEndExactlyWhen(u: string, e: ExecEnd)
    requires WellFormedEnd(e) && '\n' !in u
    ensures Finished([u + EmitExecEnd(e)]) == [e] <==> u == ""
    ensures u == "" ==> Output([u + EmitExecEnd(e)]) == []
    ensures u != "" && !(EXEC_END_MARKER <= u) ==> Finished([u + EmitExecEnd(e)]) == []
  {
    hide ParseExecEndMarker, EmitExecEnd;
    var line := u + EmitExecEnd(e);
    if u == "" {
      assert line == EmitExecEnd(e);
      EmittedParses(e);
      EmittedStarts(e);
      MarkersDiffer(line);
    } else {
      FinishedMeansParsed(line);
      if ParseExecEndMarker(line) == Some(e) { GluedIsNotTheEnd(u, e); }
      if !(EXEC_END_MARKER <= u) { GluedEnd(u, e); }
    }
  }

  lemma FinishedMeansParsed(line: string)
    ensures forall e :: Finished([line]) == [e] ==> ParseExecEndMarker(line) == Some(e)
    ensures ParseExecEndMarker(line).None? ==> Finished([line]) == []
  {
    hide ParseExecEndMarker;
    assert [line][1..] == [];
    var reported := match Classify(line) case EndLine(e) => [e] case _ => [];
    assert Finished([line]) == reported;
    forall e | Finished([line]) == [e] ensures ParseExecEndMarker(line) == Some(e) {
      assert reported[0] == e;
    }
  }

  lemma EmittedStarts(e: ExecEnd)
    ensures EXEC_END_MARKER <= EmitExecEnd(e)
  {
  }

  lemma GluedEnd(u: string, e: ExecEnd)
    requires u != "" && !(EXEC_END_MARKER <= u)
    ensures ParseExecEndMarker(u + EmitExecEnd(e)).None?
  {
    hide ParseExecEndMarker, PrintInt;
    var tail := e.execId + "\t" + PrintInt(e.exitCode) + "\t" + e.cwd + "\n";
    GluedMarkerIsHidden(u, tail);
    assert u + EmitExecEnd(e) == u + EXEC_END_MARKER + "\t" + tail;
  }

  function Tabs(s: string): nat
  {
    if s == "" then 0 else (if s[0] == '\t' then 1 else 0) + Tabs(s[1..])
  }

  lemma {:induction false} TabsConcat(a: string, b: string)
    ensures Tabs(a + b) == Tabs(a) + Tabs(b)
  {
    if a == "" {
      assert a + b == b;
    } else {
      assert (a + b)[1..] == a[1..] + b;
      TabsConcat(a[1..], b);
    }
  }

  lemma {:induction false} NoTabs(s: string)
    ensures Tabs(s) == 0 <==> '\t' !in s
  {
    if s != "" { NoTabs(s[1..]); }
  }

  lemma FirstTab(before: string, after: string)
    requires '\t' !in before
    ensures var s := before + "\t" + after;
      |before| < |s| && s[|before|] == '\t' && forall k :: 0 <= k < |before| ==> s[k] != '\t'
  {
  }

  lemma ThreeTabs(a: string, b: string, c: string)
    requires '\t' !in a && '\t' !in b && '\t' !in c
    ensures Tabs(a + "\t" + (b + "\t" + (c + "\t"))) == 3
  {
    NoTabs(a);
    NoTabs(b);
    NoTabs(c);
    TabsConcat(c, "\t");
    TabsConcat(b + "\t", c + "\t");
    TabsConcat(b, "\t");
    TabsConcat(a + "\t", b + "\t" + (c + "\t"));
    TabsConcat(a, "\t");
  }

  lemma TrimmedLine(line: string, body: string)
    requires line == body + "\n" && body != "" && body[|body| - 1] != '\n' && body[|body| - 1] != '\r'
    ensures TrimEndChar(TrimEndChar(line, '\n'), '\r') == body
  {
    assert line[..|line| - 1] == body;
  }

  /** The same three tab-separated fields cannot be read with something in front of them. */
  lemma NothingInFront(u: string, id: string, code: string, printed: string)
    requires '\t' !in id && '\t' !in code && '\t' !in printed
    requires Fields(id, code) == u + Fields(id, printed)
    ensures u == ""
  {
    MarkerHasNoBreak();
    ThreeTabs(EXEC_END_MARKER, id, code);
    ThreeTabs(EXEC_END_MARKER, id, printed);
    var read := id + "\t" + (code + "\t");
    var emitted := id + "\t" + (printed + "\t");
    TabsConcat(u, EXEC_END_MARKER + "\t" + emitted);
    NoTabs(u);
    FirstTab(EXEC_END_MARKER, read);
    FirstTab(u + EXEC_END_MARKER, emitted);
    var line := Fields(id, code);
    assert line == (u + EXEC_END_MARKER) + "\t" + emitted;
    FirstOccurrenceUnique(line, '\t', |EXEC_END_MARKER|, |u + EXEC_END_MARKER|);
  }

  /** Text in front of a marker never lets the line pass for the end of the same command. */
  lemma GluedIsNotTheEnd(u: string, e: ExecEnd)
    requires WellFormedEnd(e) && ParseExecEndMarker(u + EmitExecEnd(e)) == Some(e)
    ensures u == ""
  {
    hide ParseExecEndMarker, PrintInt, TrimEndChar, EmitExecEnd, Fields;
    var printed := PrintInt(e.exitCode);
    var code := ParsedParts(u + EmitExecEnd(e));
    PrintedIntParses(e.exitCode);
    GluedBody(u, e);
    SameFront(Fields(e.execId, code), u + Fields(e.execId, printed), e.cwd);
    NothingInFront(u, e.execId, code, printed);
  }

  lemma GluedBody(u: string, e: ExecEnd)
    requires WellFormedEnd(e)
    ensures TrimEndChar(TrimEndChar(u + EmitExecEnd(e), '\n'), '\r') == u + Fields(e.execId, PrintInt(e.exitCode)) + e.cwd
  {
    hide PrintInt, TrimEndChar;
    var front := u + Fields(e.execId, PrintInt(e.exitCode));
    assert front[|front| - 1] == '\t';
    var body := front + e.cwd;
    assert body[|body| - 1] == if e.cwd == "" then '\t' else e.cwd[|e.cwd| - 1];
    assert u + EmitExecEnd(e) == body + "\n";
    TrimmedLine(u + EmitExecEnd(e), body);
  }

  lemma SameFront(left: string, right: string, tail: string)
    requires left + tail == right + tail
    ensures left == right
  {
    assert |left| == |right|;
    assert left == (left + tail)[..|left|] && right == (right + tail)[..|right|];
  }

  /** Exactly the end of the command, with its id, code and directory, is reported if the output is
      empty or ends with a line break and none of its lines parses as an end. Otherwise it is only if
      the command printed that very end itself and its unfinished last line hides the real one. */
  lemma EndNoticedExactlyWhen(execId: string, output: string, e: ExecEnd)
    requires WellFormedEnd(e) && '\n' !in execId
    ensures var ends := Finished(LinesIncl(SessionStdout(execId, output, e)));
      && (EndsLine(output) ==> (ends == [e] <==> Finished(LinesIncl(output)) == []))
      && (!EndsLine(output) ==>
           (ends == [e] <==> Finished(LinesIncl(Whole(output))) == [e] && Finished([Unfinished(output) + EmitExecEnd(e)]) == []))
  {
    hide LinesIncl, EmitExecEnd, Unfinished, Whole, Classify, Finished, EndsLine, SessionStdout;
    WholeAndUnfinished(output);
    ReportedEnds(execId, output, e);
    LastLineIsTheEndExactlyWhen(Unfinished(output), e);
    AtMostOneEnd(Unfinished(output) + EmitExecEnd(e));
  }

  lemma AtMostOneEnd(line: string)
    ensures |Finished([line])| <= 1
  {
  }

  /** A command whose output is an end line of its own making has that one reported first. */
  lemma ForgedEnd(execId: string, fake: ExecEnd, e: ExecEnd)
    requires WellFormedEnd(e) && WellFormedEnd(fake) && '\n' !in execId
    ensures EndsLine(EmitExecEnd(fake))
    ensures Finished(LinesIncl(SessionStdout(execId, EmitExecEnd(fake), e))) == [fake, e]
  {
    hide LinesIncl, Classify, Finished, SessionStdout, Whole, Unfinished, PrintInt;
    var output := EmitExecEnd(fake);
    WholeAndUnfinished(output);
    ReportedEnds(execId, output, e);
    LastLineIsTheEndExactlyWhen("", e);
    LastLineIsTheEndExactlyWhen("", fake);
    EmittedIsOneLine(fake, "");
    assert "" + EmitExecEnd(fake) == EmitExecEnd(fake) && "" + EmitExecEnd(e) == EmitExecEnd(e);
  }

  /** Ordinary output, of which no line starts like a marker: the end is noticed exactly when the
      output is empty or ends with a line break, and then the output is kept line by line. */
  lemma PlainOutputExactlyWhen(execId: string, output: string, e: ExecEnd)
    requires WellFormedEnd(e) && '\n' !in execId && NoMarkerLines(output)
    ensures Finished(LinesIncl(SessionStdout(execId, output, e))) == (if EndsLine(output) then [e] else [])
    ensures EndsLine(output) ==> Output(LinesIncl(SessionStdout(execId, output, e))) == LinesIncl(output)
  {
    hide LinesIncl, EmitExecEnd, Unfinished, Whole, Classify, NoMarkerLines, SessionStdout, EndsLine;
    WholeAndUnfinished(output);
    ReportedEnds(execId, output, e);
    UnfinishedLineIsUnmarked(output);
    UnmarkedOutput(Whole(output));
    LastLineIsTheEndExactlyWhen(Unfinished(output), e);
  }

  lemma UnmarkedOutput(output: string)
    requires NoMarkerLines(output)
    ensures Output(LinesIncl(output)) == LinesIncl(output) && Finished(LinesIncl(output)) == []
  {
    UnmarkedLinesAreOutput(LinesIncl(output));
  }

  lemma MarkersDiffer(line: string)
    requires EXEC_END_MARKER <= line
    ensures !(EXEC_START_MARKER <= line)
  {
    assert line[6] == EXEC_END_MARKER[6];
    assert EXEC_START_MARKER[11] != EXEC_END_MARKER[11];
    assert line[11] == EXEC_END_MARKER[11];
  }
}
