/** A text document addressed by 1-based line and column: the index of line starts, the mapping
    to byte offsets, and replacing a range. */
module TextDocument {
  import opened Wrappers
  import opened Text
  import opened Newlines

  datatype PositionError =
    | NotOneBased | LineOutOfRange | ColumnOutOfRange | StartAfterEnd

  datatype Range = Range(startLine: nat, startColumn: nat, endLine: nat, endColumn: nat)

  // ---- Bytes and characters ----

  predicate IsBoundary(s: string, offset: nat)
  {
    offset == 0 || (s != "" && offset >= Width(s[0]) && IsBoundary(s[1..], offset - Width(s[0])))
  }

  function CharIndex(s: string, offset: nat): (k: nat)
    requires IsBoundary(s, offset)
    ensures k <= |s|
  {
    if offset == 0 then 0 else 1 + CharIndex(s[1..], offset - Width(s[0]))
  }

  /** The slice between two byte offsets; anywhere but on a character boundary it would panic. */
  function SliceBytes(s: string, from: nat, to: nat): string
    requires IsBoundary(s, from) && IsBoundary(s, to) && CharIndex(s, from) <= CharIndex(s, to)
  {
    s[CharIndex(s, from)..CharIndex(s, to)]
  }

  function Offset(s: string, k: nat): nat
    requires k <= |s|
  {
    ByteLen(s[..k])
  }

  lemma {:induction false} OffsetIsBoundary(s: string, k: nat)
    requires k <= |s|
    ensures IsBoundary(s, Offset(s, k)) && CharIndex(s, Offset(s, k)) == k
  {
    if k > 0 {
      assert s[..k][1..] == s[1..][..k - 1];
      OffsetIsBoundary(s[1..], k - 1);
    }
  }

  lemma {:induction false} BoundariesInOrder(s: string, from: nat, to: nat)
    requires IsBoundary(s, from) && IsBoundary(s, to) && from <= to
    ensures CharIndex(s, from) <= CharIndex(s, to)
  {
    if from > 0 { BoundariesInOrder(s[1..], from - Width(s[0]), to - Width(s[0])); }
  }

  lemma OffsetMonotone(s: string, j: nat, k: nat)
    requires j <= k <= |s|
    ensures Offset(s, k) == Offset(s, j) + ByteLen(s[j..k])
    ensures j < k ==> Offset(s, j) < Offset(s, k)
  {
    assert s[..k] == s[..j] + s[j..k];
    ByteLenConcat(s[..j], s[j..k]);
    ByteLenAtLeast(s[j..k]);
  }

  // ---- The index of line starts ----

  /** The characters at which lines start, among the first k. */
  function LineStartChars(s: string, k: nat): seq<nat>
    requires k <= |s|
  {
    if k == 0 then [0] else LineStartChars(s, k - 1) + if s[k - 1] == '\n' then [k] else []
  }

  /** The same as byte offsets. */
  function LineStarts(s: string, k: nat): seq<nat>
    requires k <= |s|
  {
    if k == 0 then [0] else LineStarts(s, k - 1) + if s[k - 1] == '\n' then [Offset(s, k)] else []
  }

  datatype Document = Document(text: string, newline: NewlineStyle, lineStarts: seq<nat>) {
    ghost predicate Valid() {
      lineStarts == LineStarts(text, |text|)
    }

    function TotalLines(): nat {
      if |lineStarts| > 1 then |lineStarts| else 1
    }
  }

  method NewDocument(text: string, newline: NewlineStyle) returns (d: Document)
    ensures d == Document(text, newline, LineStarts(text, |text|))
  {
    var lineStarts := [0];
    var idx := 0;
    for k := 0 to |text|
      invariant idx == Offset(text, k) && lineStarts == LineStarts(text, k)
    {
      var ch := text[k];
      OffsetMonotone(text, k, k + 1);
      assert text[k..k + 1] == [ch] && ByteLen([ch]) == Width(ch) + ByteLen([]);
      if ch == '\n' {
        lineStarts := lineStarts + [idx + 1];
      }
      idx := idx + Width(ch);
    }
    d := Document(text, newline, lineStarts);
  }

  lemma {:induction false} LineStartsAreOffsets(s: string, k: nat)
    requires k <= |s|
    ensures |LineStarts(s, k)| == |LineStartChars(s, k)|
    ensures forall i :: 0 <= i < |LineStarts(s, k)| ==>
      LineStartChars(s, k)[i] <= k && LineStarts(s, k)[i] == Offset(s, LineStartChars(s, k)[i])
  {
    if k > 0 { LineStartsAreOffsets(s, k - 1); } else { assert s[..0] == ""; }
  }

  /** Line starts found later lie beyond what was read before. */
  lemma {:induction false} LineStartsGrow(s: string, j: nat, k: nat)
    requires j <= k <= |s|
    ensures LineStartChars(s, j) <= LineStartChars(s, k)
    ensures forall i :: |LineStartChars(s, j)| <= i < |LineStartChars(s, k)| ==> j < LineStartChars(s, k)[i]
    ensures forall i :: 0 <= i < |LineStartChars(s, k)| ==> LineStartChars(s, k)[i] <= k
    ensures forall i :: 0 < i < |LineStartChars(s, k)| ==>
      0 < LineStartChars(s, k)[i] && s[LineStartChars(s, k)[i] - 1] == '\n'
  {
    LineStartsFollowBreaks(s, k);
    if j < k {
      LineStartsGrow(s, j, k - 1);
    }
  }

  lemma {:induction false} LineStartsFollowBreaks(s: string, k: nat)
    requires k <= |s|
    ensures forall i :: 0 <= i < |LineStartChars(s, k)| ==> LineStartChars(s, k)[i] <= k
    ensures forall i :: 0 < i < |LineStartChars(s, k)| ==>
      0 < LineStartChars(s, k)[i] && s[LineStartChars(s, k)[i] - 1] == '\n'
  {
    if k > 0 { LineStartsFollowBreaks(s, k - 1); }
  }

  // ---- Positions ----

  /** The position just after the given text: what walking through it one character at a time
      arrives at. */
  function PositionAfter(s: string): (nat, nat)
  {
    if s == "" then (1, 1)
    else
      var (line, column) := PositionAfter(s[..|s| - 1]);
      if s[|s| - 1] == '\n' then (line + 1, 1) else (line, column + 1)
  }

  predicate Before(p: (nat, nat), q: (nat, nat))
  {
    p.0 < q.0 || (p.0 == q.0 && p.1 < q.1)
  }

  /** The walk agrees with the index of line starts. */
  lemma {:induction false} PositionInLine(s: string, k: nat)
    requires k <= |s|
    ensures var (line, column) := PositionAfter(s[..k]);
      var starts := LineStartChars(s, k);
      line == |starts| && line >= 1 && column >= 1 && starts[line - 1] + column - 1 == k
  {
    if k > 0 {
      assert s[..k][..k - 1] == s[..k - 1];
      PositionInLine(s, k - 1);
    }
  }

  lemma {:induction false} PositionsGrow(s: string, j: nat, k: nat)
    requires j < k <= |s|
    ensures Before(PositionAfter(s[..j]), PositionAfter(s[..k]))
  {
    assert s[..k][..k - 1] == s[..k - 1];
    if j < k - 1 { PositionsGrow(s, j, k - 1); }
  }

  // ---- From positions to offsets ----

  /** The character just past the content of a line. */
  function LineEndChar(s: string, line: nat): nat
    requires 1 <= line <= |LineStartChars(s, |s|)|
  {
    var starts := LineStartChars(s, |s|);
    if line == |starts| then |s|
    else LineStartsGrow(s, |s|, |s|); starts[line] - 1
  }

  lemma LineBounds(s: string, line: nat)
    requires 1 <= line <= |LineStartChars(s, |s|)|
    ensures var starts := LineStartChars(s, |s|);
      && |LineStarts(s, |s|)| == |starts|
      && starts[line - 1] <= LineEndChar(s, line) <= |s|
      && LineStarts(s, |s|)[line - 1] == Offset(s, starts[line - 1])
      && (line == |starts| ==> Offset(s, LineEndChar(s, line)) == ByteLen(s))
      && (line < |starts| ==> Offset(s, LineEndChar(s, line)) + 1 == LineStarts(s, |s|)[line])
  {
    hide LineStartChars, LineStarts;
    var starts := LineStartChars(s, |s|);
    LineStartsAreOffsets(s, |s|);
    LineStartsGrow(s, |s|, |s|);
    if line == |starts| {
      assert s[..|s|] == s;
    } else {
      var e := starts[line] - 1;
      LineStartsIncrease(s, |s|, line - 1, line);
      OffsetMonotone(s, e, e + 1);
      assert s[e..e + 1] == "\n" && ByteLen("\n") == 1 + ByteLen("");
    }
  }

  lemma {:induction false} LineStartsIncrease(s: string, k: nat, i: nat, j: nat)
    requires k <= |s| && i < j < |LineStartChars(s, k)|
    ensures LineStartChars(s, k)[i] < LineStartChars(s, k)[j]
  {
    LineStartsGrow(s, k - 1, k - 1);
    if j < |LineStartChars(s, k - 1)| { LineStartsIncrease(s, k - 1, i, j); }
  }

  function LineContent(d: Document, line: nat): Result<string, PositionError>
    requires d.Valid()
  {
    if line == 0 || line > d.TotalLines() then Err(LineOutOfRange)
    else
      LineStartsAreOffsets(d.text, |d.text|);
      LineStartsGrow(d.text, 0, |d.text|);
      LineBounds(d.text, line);
      OffsetIsBoundary(d.text, LineStartChars(d.text, |d.text|)[line - 1]);
      OffsetIsBoundary(d.text, LineEndChar(d.text, line));
      var start := d.lineStarts[line - 1];
      var end := if line == d.TotalLines() then ByteLen(d.text) else d.lineStarts[line] - 1;
      Ok(SliceBytes(d.text, start, end))
  }

  /** The text of a line, its line break left out. */
  function LineText(s: string, line: nat): string
    requires 1 <= line <= |LineStartChars(s, |s|)|
  {
    LineBounds(s, line);
    s[LineStartChars(s, |s|)[line - 1]..LineEndChar(s, line)]
  }

  lemma LineContentIsLineText(d: Document, line: nat)
    requires d.Valid()
    ensures d.TotalLines() == |LineStartChars(d.text, |d.text|)|
    ensures LineContent(d, line) ==
      if 1 <= line <= d.TotalLines() then Ok(LineText(d.text, line)) else Err(LineOutOfRange)
    ensures 1 <= line <= d.TotalLines() ==> '\n' !in LineText(d.text, line)
  {
    var s := d.text;
    LineStartsAreOffsets(s, |s|);
    LineStartsGrow(s, 0, |s|);
    if 1 <= line <= d.TotalLines() {
      LineBounds(s, line);
      OffsetIsBoundary(s, LineStartChars(s, |s|)[line - 1]);
      OffsetIsBoundary(s, LineEndChar(s, line));
      NoBreakInside(s, line);
    }
  }

  lemma NoBreakInside(s: string, line: nat)
    requires 1 <= line <= |LineStartChars(s, |s|)|
    ensures LineStartChars(s, |s|)[line - 1] <= LineEndChar(s, line) <= |s|
    ensures '\n' !in s[LineStartChars(s, |s|)[line - 1]..LineEndChar(s, line)]
  {
    LineBounds(s, line);
    var starts := LineStartChars(s, |s|);
    forall i | starts[line - 1] <= i < LineEndChar(s, line) ensures s[i] != '\n' {
      if s[i] == '\n' {
        // then i + 1 would be a line start strictly between two neighbours
        LineStartsGrow(s, i + 1, |s|);
        var upTo := LineStartChars(s, i + 1);
        var m := |upTo| - 1;
        assert starts[m] == upTo[m] == i + 1;
        if line < m { LineStartsIncrease(s, |s|, line, m); }
      }
    }
  }

  function OffsetForPosition(d: Document, line: nat, column: nat): Result<nat, PositionError>
    requires d.Valid()
  {
    if line == 0 || column == 0 then Err(NotOneBased)
    else if line > d.TotalLines() then Err(LineOutOfRange)
    else
      LineContentIsLineText(d, line);
      LineStartsAreOffsets(d.text, |d.text|);
      var start := d.lineStarts[line - 1];
      var content := LineContent(d, line).value;
      if column > |content| + 1 then Err(ColumnOutOfRange)
      else if column == |content| + 1 then Ok(start + ByteLen(content))
      else Ok(start + ByteLen(content[..column - 1]))
  }

  lemma SliceOfSlice(s: string, i: nat, j: nat, k: nat)
    requires i <= j <= k <= |s|
    ensures s[i..k][..j - i] == s[i..j]
  {
  }

  /** Every character boundary has a position, and that position resolves to it. */
  lemma PositionResolves(d: Document, k: nat)
    requires d.Valid() && k <= |d.text|
    ensures var (line, column) := PositionAfter(d.text[..k]);
      OffsetForPosition(d, line, column) == Ok(Offset(d.text, k))
  {
    hide PositionAfter, LineStartChars, LineStarts, LineContent, ByteLen;
    var s := d.text;
    var (line, column) := PositionAfter(s[..k]);
    var starts := LineStartChars(s, |s|);
    PositionInLine(s, k);
    LineStartsGrow(s, k, |s|);
    LineContentIsLineText(d, line);
    LineBounds(s, line);
    var start := starts[line - 1];
    assert start + column - 1 == k <= LineEndChar(s, line);
    OffsetMonotone(s, start, k);
    var e := LineEndChar(s, line);
    assert LineText(s, line) == s[start..e];
    SliceOfSlice(s, start, k, e);
    assert LineText(s, line)[..|LineText(s, line)|] == LineText(s, line);
  }

  /** Every position that resolves is the position of a character boundary, and resolves to it. */
  lemma ResolvedPosition(d: Document, line: nat, column: nat) returns (k: nat)
    requires d.Valid() && OffsetForPosition(d, line, column).Ok?
    ensures k <= |d.text| && PositionAfter(d.text[..k]) == (line, column)
    ensures OffsetForPosition(d, line, column) == Ok(Offset(d.text, k))
  {
    var s := d.text;
    var starts := LineStartChars(s, |s|);
    LineContentIsLineText(d, line);
    LineBounds(s, line);
    k := starts[line - 1] + column - 1;
    PositionInLine(s, k);
    LineStartsGrow(s, k, |s|);
    LineStartsGrow(s, k, k);
    PositionResolves(d, k);
  }

  /** A position resolves exactly when it is the position of a character boundary. */
  lemma ResolvesExactlyWhen(d: Document, line: nat, column: nat)
    requires d.Valid()
    ensures OffsetForPosition(d, line, column).Ok? <==>
      exists k :: 0 <= k <= |d.text| && PositionAfter(d.text[..k]) == (line, column)
  {
    hide PositionAfter, OffsetForPosition;
    if OffsetForPosition(d, line, column).Ok? {
      var k := ResolvedPosition(d, line, column);
    }
    if k :| 0 <= k <= |d.text| && PositionAfter(d.text[..k]) == (line, column) {
      PositionResolves(d, k);
    }
  }

  /** Which error a position that does not resolve is refused with. */
  lemma PositionErrors(d: Document, line: nat, column: nat)
    requires d.Valid()
    ensures var r := OffsetForPosition(d, line, column);
      var lines := PositionAfter(d.text).0;
      && (r == Err(NotOneBased) <==> line == 0 || column == 0)
      && (r == Err(LineOutOfRange) <==> line > lines && column > 0)
      && (r == Err(ColumnOutOfRange) <==>
           0 < line <= lines && column > 0 && forall k :: 0 <= k <= |d.text| ==> PositionAfter(d.text[..k]) != (line, column))
      && r != Err(StartAfterEnd)
  {
    ResolvesExactlyWhen(d, line, column);
    hide PositionAfter, LineContent, LineStartChars, LineStarts, ByteLen;
    PositionInLine(d.text, |d.text|);
    assert d.text[..|d.text|] == d.text;
    LineContentIsLineText(d, line);
  }

  /** Resolving positions preserves and reflects their order. */
  lemma ResolutionIsMonotone(d: Document, p: (nat, nat), q: (nat, nat))
    requires d.Valid() && OffsetForPosition(d, p.0, p.1).Ok? && OffsetForPosition(d, q.0, q.1).Ok?
    ensures Before(p, q) <==> OffsetForPosition(d, p.0, p.1).value < OffsetForPosition(d, q.0, q.1).value
    ensures p == q <==> OffsetForPosition(d, p.0, p.1).value == OffsetForPosition(d, q.0, q.1).value
  {
    hide PositionAfter, OffsetForPosition, Offset;
    var j := ResolvedPosition(d, p.0, p.1);
    var k := ResolvedPosition(d, q.0, q.1);
    if j < k {
      PositionsGrow(d.text, j, k);
      OffsetMonotone(d.text, j, k);
    } else if k < j {
      PositionsGrow(d.text, k, j);
      OffsetMonotone(d.text, k, j);
    }
  }

  // ---- Replacing a range ----

  function Segments(s: string): seq<string>
  {
    if s == "" then [""]
    else
      var rest := Segments(s[..|s| - 1]);
      if s[|s| - 1] == '\n' then rest + [""]
      else rest[..|rest| - 1] + [rest[|rest| - 1] + [s[|s| - 1]]]
  }

  function ComputeInsertedRange(startLine: nat, startColumn: nat, insertedLines: nat, newText: string): Range
    requires insertedLines >= 1
  {
    if newText == "" then Range(startLine, startColumn, startLine, startColumn)
    else
      var segments := Segments(newText);
      if insertedLines <= 1 then
        Range(startLine, startColumn, startLine, startColumn + |segments[0]|)
      else
        Range(startLine, startColumn, startLine + insertedLines - 1, |segments[|segments| - 1]| + 1)
  }

  function InsertedRange(startLine: nat, startColumn: nat, newText: string): Range
  {
    var inserted := Document(newText, Lf, LineStarts(newText, |newText|));
    ComputeInsertedRange(startLine, startColumn, inserted.TotalLines(), newText)
  }

  function ReplaceRange(d: Document, startLine: nat, startColumn: nat, endLine: nat, endColumn: nat, newText: string)
    : Result<(string, Range), PositionError>
    requires d.Valid()
  {
    var start := OffsetForPosition(d, startLine, startColumn);
    var end := OffsetForPosition(d, endLine, endColumn);
    if start.Err? then Err(start.error)
    else if end.Err? then Err(end.error)
    else if start.value > end.value then Err(StartAfterEnd)
    else
      ResolvedBoundaries(d, startLine, startColumn, endLine, endColumn);
      BoundariesInOrder(d.text, start.value, end.value);
      var updated := SliceBytes(d.text, 0, start.value) + newText
                     + SliceBytes(d.text, end.value, ByteLen(d.text));
      Ok((updated, InsertedRange(startLine, startColumn, newText)))
  }

  lemma ResolvedBoundaries(d: Document, startLine: nat, startColumn: nat, endLine: nat, endColumn: nat)
    requires d.Valid()
    requires OffsetForPosition(d, startLine, startColumn).Ok? && OffsetForPosition(d, endLine, endColumn).Ok?
    ensures var start := OffsetForPosition(d, startLine, startColumn).value;
      var end := OffsetForPosition(d, endLine, endColumn).value;
      && IsBoundary(d.text, 0) && IsBoundary(d.text, start) && IsBoundary(d.text, end)
      && IsBoundary(d.text, ByteLen(d.text)) && CharIndex(d.text, ByteLen(d.text)) == |d.text|
      && CharIndex(d.text, 0) == 0
      && PositionAfter(d.text[..CharIndex(d.text, start)]) == (startLine, startColumn)
      && PositionAfter(d.text[..CharIndex(d.text, end)]) == (endLine, endColumn)
  {
    hide PositionAfter, OffsetForPosition;
    var a := ResolvedPosition(d, startLine, startColumn);
    var b := ResolvedPosition(d, endLine, endColumn);
    OffsetIsBoundary(d.text, a);
    OffsetIsBoundary(d.text, b);
    OffsetIsBoundary(d.text, |d.text|);
    assert d.text[..|d.text|] == d.text;
  }

  /** The text between the two ends of a range. */
  function TextInRange(d: Document, r: Range): string
    requires d.Valid() && ReplaceRange(d, r.startLine, r.startColumn, r.endLine, r.endColumn, "").Ok?
  {
    ResolvedBoundaries(d, r.startLine, r.startColumn, r.endLine, r.endColumn);
    BoundariesInOrder(d.text, OffsetForPosition(d, r.startLine, r.startColumn).value,
                      OffsetForPosition(d, r.endLine, r.endColumn).value);
    SliceBytes(d.text, OffsetForPosition(d, r.startLine, r.startColumn).value,
               OffsetForPosition(d, r.endLine, r.endColumn).value)
  }

  lemma TextDoesNotDecide(d: Document, r: Range, newText: string, other: string)
    requires d.Valid()
    ensures ReplaceRange(d, r.startLine, r.startColumn, r.endLine, r.endColumn, newText).Ok?
      <==> ReplaceRange(d, r.startLine, r.startColumn, r.endLine, r.endColumn, other).Ok?
  {
    hide OffsetForPosition, InsertedRange;
  }

  /** What an edit does, in characters: it succeeds exactly for two resolvable positions in order,
      and then only the text between them is exchanged. */
  lemma ReplacedText(d: Document, startLine: nat, startColumn: nat, endLine: nat, endColumn: nat, newText: string)
    returns (a: nat, b: nat)
    requires d.Valid()
    ensures ReplaceRange(d, startLine, startColumn, endLine, endColumn, newText).Ok? <==>
      && OffsetForPosition(d, startLine, startColumn).Ok? && OffsetForPosition(d, endLine, endColumn).Ok?
      && !Before((endLine, endColumn), (startLine, startColumn))
    ensures ReplaceRange(d, startLine, startColumn, endLine, endColumn, newText).Ok? ==>
      && a <= b <= |d.text|
      && PositionAfter(d.text[..a]) == (startLine, startColumn)
      && PositionAfter(d.text[..b]) == (endLine, endColumn)
      && ReplaceRange(d, startLine, startColumn, endLine, endColumn, newText).value.0
           == d.text[..a] + newText + d.text[b..]
      && ReplaceRange(d, startLine, startColumn, endLine, endColumn, newText).value.1
           == InsertedRange(startLine, startColumn, newText)
      && TextInRange(d, Range(startLine, startColumn, endLine, endColumn)) == d.text[a..b]
  {
    hide PositionAfter, OffsetForPosition, IsBoundary, CharIndex, InsertedRange;
    a, b := 0, 0;
    if OffsetForPosition(d, startLine, startColumn).Ok? && OffsetForPosition(d, endLine, endColumn).Ok? {
      ResolutionIsMonotone(d, (endLine, endColumn), (startLine, startColumn));
      a := ResolvedPosition(d, startLine, startColumn);
      b := ResolvedPosition(d, endLine, endColumn);
      OffsetIsBoundary(d.text, a);
      OffsetIsBoundary(d.text, b);
      ResolvedBoundaries(d, startLine, startColumn, endLine, endColumn);
      if b < a { OffsetMonotone(d.text, b, a); }
    }
  }

  /** Which error an edit is refused with: that of its start, else that of its end, else that the two
      are in the wrong order. */
  lemma ReplaceErrors(d: Document, r: Range, newText: string)
    requires d.Valid()
    ensures var start := OffsetForPosition(d, r.startLine, r.startColumn);
      var end := OffsetForPosition(d, r.endLine, r.endColumn);
      var replaced := ReplaceRange(d, r.startLine, r.startColumn, r.endLine, r.endColumn, newText);
      && (start.Err? ==> replaced == Err(start.error))
      && (start.Ok? && end.Err? ==> replaced == Err(end.error))
      && (start.Ok? && end.Ok? ==>
           (replaced == Err(StartAfterEnd) <==> Before((r.endLine, r.endColumn), (r.startLine, r.startColumn)))
           && (replaced.Err? ==> replaced.error == StartAfterEnd))
  {
    hide OffsetForPosition, InsertedRange;
    if OffsetForPosition(d, r.startLine, r.startColumn).Ok? && OffsetForPosition(d, r.endLine, r.endColumn).Ok? {
      ResolutionIsMonotone(d, (r.endLine, r.endColumn), (r.startLine, r.startColumn));
    }
  }

  // ---- The reported range ----

  /** Where appending t to a text that ends at (line, column) arrives. */
  lemma {:induction false} PositionAfterConcat(s: string, t: string)
    ensures var (line, column) := PositionAfter(s);
      var segments := Segments(t);
      PositionAfter(s + t) ==
        if |segments| == 1 then (line, column + |segments[0]|)
        else (line + |segments| - 1, |segments[|segments| - 1]| + 1)
  {
    if t == "" {
      assert s + t == s;
    } else {
      assert (s + t)[..|s + t| - 1] == s + t[..|t| - 1];
      PositionAfterConcat(s, t[..|t| - 1]);
    }
  }

  lemma SegmentsStep(t: string, c: char)
    ensures var before, after := Segments(t), Segments(t + [c]);
      |before| >= 1 && after ==
        if c == '\n' then before + [""] else before[..|before| - 1] + [before[|before| - 1] + [c]]
  {
    assert (t + [c])[..|t|] == t;
  }

  lemma LineStartsStep(s: string, k: nat)
    requires 0 < k <= |s|
    ensures |LineStarts(s, k)| == |LineStarts(s, k - 1)| + if s[k - 1] == '\n' then 1 else 0
  {
    hide Offset;
  }

  lemma {:induction false} SegmentsCountLines(s: string, k: nat)
    requires k <= |s|
    ensures |Segments(s[..k])| == |LineStarts(s, k)| >= 1
    ensures |Segments(s[..k])| == 1 ==> Segments(s[..k])[0] == s[..k]
  {
    if k == 0 {
      assert s[..0] == "";
    } else {
      hide Segments, LineStarts;
      SegmentsCountLines(s, k - 1);
      assert s[..k] == s[..k - 1] + [s[k - 1]];
      SegmentsStep(s[..k - 1], s[k - 1]);
      LineStartsStep(s, k);
    }
  }

  /** The reported range starts where the edit started and ends where the inserted text ends. */
  lemma InsertedRangeIsExact(pre: string, newText: string)
    ensures var (line, column) := PositionAfter(pre);
      var (endLine, endColumn) := PositionAfter(pre + newText);
      InsertedRange(line, column, newText) == Range(line, column, endLine, endColumn)
  {
    PositionAfterConcat(pre, newText);
    SegmentsCountLines(newText, |newText|);
    assert newText[..|newText|] == newText;
  }

  /** After an edit, both ends of the reported range resolve in the re-indexed text, and what lies
      between them is the inserted text. */
  lemma NewRangeDelimitsInsertion(d: Document, r: Range, newText: string) returns (a: nat, b: nat)
    requires d.Valid() && ReplaceRange(d, r.startLine, r.startColumn, r.endLine, r.endColumn, newText).Ok?
    ensures var (updated, range) := ReplaceRange(d, r.startLine, r.startColumn, r.endLine, r.endColumn, newText).value;
      var d' := Document(updated, d.newline, LineStarts(updated, |updated|));
      && a <= b <= |d.text|
      && PositionAfter(d.text[..a]) == (r.startLine, r.startColumn)
      && PositionAfter(d.text[..b]) == (r.endLine, r.endColumn)
      && updated == d.text[..a] + newText + d.text[b..]
      && OffsetForPosition(d', range.startLine, range.startColumn) == Ok(ByteLen(d.text[..a]))
      && OffsetForPosition(d', range.endLine, range.endColumn) == Ok(ByteLen(d.text[..a] + newText))
      && (range.startLine, range.startColumn) == PositionAfter(updated[..a])
      && (range.endLine, range.endColumn) == PositionAfter(updated[..a + |newText|])
      && TextInRange(d, r) == d.text[a..b]
  {
    hide PositionAfter, OffsetForPosition, InsertedRange, LineStarts, ByteLen;
    a, b := ReplacedText(d, r.startLine, r.startColumn, r.endLine, r.endColumn, newText);
    var pre := d.text[..a];
    var updated := pre + newText + d.text[b..];
    var d' := Document(updated, d.newline, LineStarts(updated, |updated|));
    InsertedRangeIsExact(pre, newText);
    assert updated[..a] == pre;
    assert updated[..a + |newText|] == pre + newText;
    PositionResolves(d', a);
    PositionResolves(d', a + |newText|);
  }

  /** Undo: the reported range holds exactly the inserted text, and replacing it by the removed
      text gives back the original text and reports the original range. */
  lemma EditUndo(d: Document, r: Range, newText: string)
    requires d.Valid() && ReplaceRange(d, r.startLine, r.startColumn, r.endLine, r.endColumn, newText).Ok?
    ensures var (updated, range) := ReplaceRange(d, r.startLine, r.startColumn, r.endLine, r.endColumn, newText).value;
      var d' := Document(updated, d.newline, LineStarts(updated, |updated|));
      && ReplaceRange(d', range.startLine, range.startColumn, range.endLine, range.endColumn, TextInRange(d, r))
           == Ok((d.text, r))
      && TextInRange(d', range) == newText
  {
    hide PositionAfter, OffsetForPosition, InsertedRange, LineStarts, ByteLen, ReplaceRange, TextInRange;
    var a, b := NewRangeDelimitsInsertion(d, r, newText);
    TextDoesNotDecide(d, r, newText, "");
    var removed := TextInRange(d, r);
    var (updated, range) := ReplaceRange(d, r.startLine, r.startColumn, r.endLine, r.endColumn, newText).value;
    var d' := Document(updated, d.newline, LineStarts(updated, |updated|));
    if newText != "" {
      PositionsGrow(updated, a, a + |newText|);
    }
    var a', b' := ReplacedText(d', range.startLine, range.startColumn, range.endLine, range.endColumn, removed);
    PositionsDistinct(updated, a, a');
    PositionsDistinct(updated, a + |newText|, b');
    assert d.text[..a] + removed == d.text[..b];
    assert updated[..a] == d.text[..a] && updated[a + |newText|..] == d.text[b..];
    assert d.text == d.text[..b] + d.text[b..];
    InsertedRangeIsExact(d.text[..a], removed);
  }

  lemma PositionsDistinct(s: string, j: nat, k: nat)
    requires j <= |s| && k <= |s| && PositionAfter(s[..j]) == PositionAfter(s[..k])
    ensures j == k
  {
    if j < k { PositionsGrow(s, j, k); } else if k < j { PositionsGrow(s, k, j); }
  }

  // ---- Editing a file ----

  method EditFile(content: string, r: Range, newText: string) returns (edited: Result<(string, Range), PositionError>)
    ensures edited == EditedFile(content, r, newText)
  {
    var style := DetectNewlineStyle(content);
    var normalized := NormalizeNewlines(content);
    var document := NewDocument(normalized, style);
    var inserted := NormalizeNewlines(newText);
    var replaced := ReplaceRange(document, r.startLine, r.startColumn, r.endLine, r.endColumn, inserted);
    if replaced.Err? {
      return Err(replaced.error);
    }
    var (updated, newRange) := replaced.value;
    edited := Ok((Encode(style, updated), newRange));
  }

  function Loaded(content: string): Document
  {
    Document(Normalized(content), Detected(content), LineStarts(Normalized(content), |Normalized(content)|))
  }

  function EditedFile(content: string, r: Range, newText: string): Result<(string, Range), PositionError>
  {
    var replaced := ReplaceRange(Loaded(content), r.startLine, r.startColumn, r.endLine, r.endColumn, Normalized(newText));
    if replaced.Err? then Err(replaced.error)
    else Ok((Encode(Detected(content), replaced.value.0), replaced.value.1))
  }

  /** The text that an edit takes out, in normalised form. */
  function RemovedText(content: string, r: Range, newText: string): string
    requires EditedFile(content, r, newText).Ok?
  {
    TextDoesNotDecide(Loaded(content), r, Normalized(newText), "");
    TextInRange(Loaded(content), r)
  }

  /** Editing any file that can be edited at the range: whatever lies before and after the range is
      written back as it was if and only if, in a CR LF file, neither part has a break of another
      kind, and in any other file neither part has a CR. */
  lemma EditKeepsTheRestExactlyWhen(content: string, r: Range, newText: string)
    returns (before: string, removed: string, after: string)
    requires EditedFile(content, r, newText).Ok?
    ensures content == before + removed + after
    ensures PositionAfter(Normalized(before)) == (r.startLine, r.startColumn)
    ensures PositionAfter(Normalized(before + removed)) == (r.endLine, r.endColumn)
    ensures Normalized(removed) == RemovedText(content, r, newText)
    ensures Normalized(content) == Normalized(before) + Normalized(removed) + Normalized(after)
    ensures EditedFile(content, r, newText).value.1 == EndsAt(r, Normalized(before) + Normalized(newText))
    ensures var style := Detected(content);
      EditedFile(content, r, newText).value.0 ==
        Encode(style, Normalized(before)) + Encode(style, Normalized(newText)) + Encode(style, Normalized(after))
    ensures EditedFile(content, r, newText).value.0 == before + Encode(Detected(content), Normalized(newText)) + after
      <==> Restorable(Detected(content), before) && Restorable(Detected(content), after)
  {
    hide PositionAfter, ReplaceRange, TextInRange, LineStarts, Normalized, Encode, Restorable, RawIndex;
    var d := Loaded(content);
    var a, b := ReplacedText(d, r.startLine, r.startColumn, r.endLine, r.endColumn, Normalized(newText));
    var x, y := RawIndex(content, a), RawIndex(content, b);
    RawIndexCuts(content, a);
    RawIndexCuts(content, b);
    NormalizedBetween(content, a, b);
    before, removed, after := content[..x], content[x..y], content[y..];
    assert content[..y] == before + removed;
    var insertion := Encode(d.newline, Normalized(newText));
    EncodeConcat(d.newline, d.text[..a] + Normalized(newText), d.text[b..]);
    EncodeConcat(d.newline, d.text[..a], Normalized(newText));
    KeptExactlyWhen(d.newline, before, insertion, after);
    InsertedRangeIsExact(d.text[..a], Normalized(newText));
  }

  /** From the start of the range to where a text ends. */
  function EndsAt(r: Range, text: string): Range
  {
    Range(r.startLine, r.startColumn, PositionAfter(text).0, PositionAfter(text).1)
  }

  /** An edit of a file is refused exactly when, and with the error with which, the edit of its
      normalised text is. */
  lemma EditErrors(content: string, r: Range, newText: string)
    ensures var replaced := ReplaceRange(Loaded(content), r.startLine, r.startColumn, r.endLine, r.endColumn, "");
      && (EditedFile(content, r, newText).Err? <==> replaced.Err?)
      && (replaced.Err? ==> EditedFile(content, r, newText) == Err(replaced.error))
  {
    hide Normalized, OffsetForPosition, InsertedRange, LineStarts;
    TextDoesNotDecide(Loaded(content), r, Normalized(newText), "");
    ReplaceErrors(Loaded(content), r, Normalized(newText));
    ReplaceErrors(Loaded(content), r, "");
  }

  /** Editing a file that neither mixes styles nor holds a lone CR leaves everything outside the
      edited range as it was, and writes the new text in the file's own style. */
  lemma EditKeepsTheRest(content: string, r: Range, newText: string) returns (before: string, removed: string, after: string)
    requires Detected(content) != Mixed && NoLoneCr(content)
    requires EditedFile(content, r, newText).Ok?
    ensures content == before + removed + after
    ensures EditedFile(content, r, newText).value.0 == before + Encode(Detected(content), Normalized(newText)) + after
    ensures removed == Encode(Detected(content), RemovedText(content, r, newText))
    ensures PositionAfter(Normalized(before)) == (r.startLine, r.startColumn)
  {
    hide EditedFile, PositionAfter, Normalized, Encode, RemovedText, Restorable, Detected;
    before, removed, after := EditKeepsTheRestExactlyWhen(content, r, newText);
    RestoredExactlyWhen(content);
    RestorableExactlyWhen(Detected(content), content);
    PartsAreRestorable(Detected(content), before, removed, after);
    RestorableExactlyWhen(Detected(content), removed);
  }
}
