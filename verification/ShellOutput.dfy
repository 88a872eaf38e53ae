/** The output buffer of a shell session: bounded in bytes, numbered, and read in pieces. */
module ShellOutput {
  import opened Wrappers
  import opened Text

  const SESSION_BUFFER_LIMIT: nat := 128_000

  datatype Chunk = Chunk(seqNo: nat, stream: string, text: string)

  function Bytes(chunks: seq<Chunk>): nat
  {
    if chunks == [] then 0 else ByteLen(chunks[0].text) + Bytes(chunks[1..])
  }

  function Concat(chunks: seq<Chunk>): string
  {
    if chunks == [] then "" else chunks[0].text + Concat(chunks[1..])
  }

  lemma {:induction false} ConcatAppend(chunks: seq<Chunk>, c: Chunk)
    ensures Concat(chunks + [c]) == Concat(chunks) + c.text
    ensures Bytes(chunks + [c]) == Bytes(chunks) + ByteLen(c.text)
  {
    if chunks == [] {
      assert chunks + [c] == [c];
      assert Concat([c]) == c.text + Concat([]);
    } else {
      assert (chunks + [c])[1..] == chunks[1..] + [c];
      ConcatAppend(chunks[1..], c);
    }
  }

  lemma {:induction false} ConcatSplit(chunks: seq<Chunk>, k: nat)
    requires k <= |chunks|
    ensures Concat(chunks) == Concat(chunks[..k]) + Concat(chunks[k..])
  {
    if k > 0 {
      ConcatSplit(chunks[1..], k - 1);
      assert chunks[..k][1..] == chunks[1..][..k - 1] && chunks[1..][k - 1..] == chunks[k..];
    } else {
      assert chunks[0..] == chunks && chunks[..0] == [];
    }
  }

  lemma {:induction false} BytesOfConcat(chunks: seq<Chunk>)
    ensures ByteLen(Concat(chunks)) == Bytes(chunks)
  {
    if chunks != [] {
      ByteLenConcat(chunks[0].text, Concat(chunks[1..]));
      BytesOfConcat(chunks[1..]);
    }
  }

  function SaturatingSub(a: nat, b: nat): nat
  {
    if a >= b then a - b else 0
  }

  // ---- What is retained ----

  /** Drops chunks from the front until the rest fits. */
  function Retained(history: seq<Chunk>): seq<Chunk>
  {
    if Bytes(history) <= SESSION_BUFFER_LIMIT then history else Retained(history[1..])
  }

  /** The retained chunks are the longest suffix of the history that fits. */
  lemma {:induction false} RetainedIsLongestSuffix(history: seq<Chunk>) returns (start: nat)
    ensures start <= |history| && Retained(history) == history[start..]
    ensures Bytes(Retained(history)) <= SESSION_BUFFER_LIMIT
    ensures forall k :: 0 <= k < start ==> Bytes(history[k..]) > SESSION_BUFFER_LIMIT
  {
    start := 0;
    if Bytes(history) > SESSION_BUFFER_LIMIT {
      start := RetainedIsLongestSuffix(history[1..]);
      forall k | 0 < k < start + 1 ensures Bytes(history[k..]) > SESSION_BUFFER_LIMIT {
        assert history[1..][k - 1..] == history[k..];
      }
      assert history[1..][start..] == history[start + 1..];
      assert history[0..] == history;
      start := start + 1;
    }
  }

  /** Forgetting what did not fit before an append makes no difference after it. */
  lemma {:induction false} RetainedAppend(history: seq<Chunk>, c: Chunk)
    ensures Retained(Retained(history) + [c]) == Retained(history + [c])
  {
    if Bytes(history) > SESSION_BUFFER_LIMIT {
      RetainedAppend(history[1..], c);
      ConcatAppend(history, c);
      assert (history + [c])[1..] == history[1..] + [c];
    }
  }

  // ---- Reading ----

  function After(chunks: seq<Chunk>, sinceSeq: nat): seq<Chunk>
  {
    if chunks == [] then []
    else (if chunks[0].seqNo > sinceSeq then [chunks[0]] else []) + After(chunks[1..], sinceSeq)
  }

  method ClipTextBytes(text: string, maxBytes: nat) returns (clipped: string, truncated: bool)
    ensures clipped <= text && ByteLen(clipped) <= maxBytes
    ensures truncated <==> ByteLen(text) > maxBytes
    ensures !truncated <==> clipped == text
    ensures truncated ==> |clipped| < |text| && ByteLen(clipped) + Width(text[|clipped|]) > maxBytes
  {
    if ByteLen(text) <= maxBytes {
      return text, false;
    }
    var used, k := 0, 0;
    clipped, truncated := "", true;
    assert text[..|text|] == text;
    while k < |text|
      invariant k <= |text| && clipped == text[..k] && used == ByteLen(text[..k]) <= maxBytes
    {
      ByteLenConcat(text[..k], [text[k]]);
      assert ByteLen([text[k]]) == Width(text[k]) + ByteLen("");
      assert text[..k + 1] == text[..k] + [text[k]];
      var width := Width(text[k]);
      if used + width > maxBytes {
        break;
      }
      used := used + width;
      clipped := clipped + [text[k]];
      k := k + 1;
    }
  }

  /** What a read hands out: the chunks in order, whole but for the last, which may be cut short. */
  ghost predicate IsPrefixRead(emitted: seq<Chunk>, available: seq<Chunk>)
  {
    && |emitted| <= |available|
    && (forall i :: 0 <= i < |emitted| - 1 ==> emitted[i] == available[i])
    && (emitted != [] ==>
          var last := |emitted| - 1;
          && emitted[last].seqNo == available[last].seqNo && emitted[last].stream == available[last].stream
          && emitted[last].text <= available[last].text)
  }

  lemma {:induction false} PrefixReadConcat(emitted: seq<Chunk>, available: seq<Chunk>)
    requires IsPrefixRead(emitted, available) && forall c :: c in available ==> c.text != ""
    ensures Concat(emitted) <= Concat(available)
    ensures Concat(emitted) == Concat(available) <==> emitted == available
  {
    if emitted == [] {
      assert available != [] ==> available[0] in available;
    } else if |emitted| == 1 {
      var rest := available[1..];
      assert Concat(emitted) == emitted[0].text + Concat([]) == emitted[0].text;
      assert Concat(available) == available[0].text + Concat(rest);
      if rest != [] {
        assert available[1] in available && Concat(rest) == available[1].text + Concat(rest[1..]);
        assert |Concat(emitted)| < |Concat(available)|;
      } else {
        assert Concat(available) == available[0].text;
        assert available == [available[0]] && emitted == [emitted[0]];
        assert emitted[0].text == available[0].text ==> emitted[0] == available[0];
      }
    } else {
      PrefixReadConcat(emitted[1..], available[1..]);
    }
  }

  /** The reply is cut short only where the next character would be too much. */
  ghost predicate NextDoesNotFit(emitted: string, available: string, maxBytes: nat)
  {
    emitted <= available && |emitted| < |available| && ByteLen(emitted) + Width(available[|emitted|]) > maxBytes
  }

  /** Hands out the available chunks until the limit is reached, cutting the last one if need be. */
  method ReadPieces(available: seq<Chunk>, maxBytes: nat) returns (emitted: seq<Chunk>, truncated: bool)
    requires forall c :: c in available ==> c.text != ""
    ensures IsPrefixRead(emitted, available)
    ensures Concat(emitted) <= Concat(available) && ByteLen(Concat(emitted)) <= maxBytes
    ensures truncated <==> ByteLen(Concat(available)) > maxBytes
    ensures truncated <==> Concat(emitted) != Concat(available)
    ensures truncated ==> NextDoesNotFit(Concat(emitted), Concat(available), maxBytes)
    ensures truncated ==> maxBytes - ByteLen(Concat(emitted)) <= 3
  {
    hide Concat, Bytes, ByteLen, Width, NextDoesNotFit;
    emitted, truncated := [], false;
    var used, k := 0, 0;
    NoBytes();
    while k < |available|
      invariant k <= |available| && emitted == available[..k] && !truncated
      invariant used == Bytes(emitted) <= maxBytes
    {
      if used >= maxBytes {
        truncated := true;
        FullReply(available, k, maxBytes);
        break;
      }
      var remaining := maxBytes - used;
      var text, chunkTruncated := ClipTextBytes(available[k].text, remaining);
      var piece := Chunk(available[k].seqNo, available[k].stream, text);
      ConcatAppend(emitted, piece);
      used := used + ByteLen(text);
      emitted := emitted + [piece];
      if chunkTruncated {
        truncated := true;
        ClippedReply(available, k, text, maxBytes);
        break;
      }
      assert piece == available[k];
      k := k + 1;
    }
    assert !truncated ==> emitted == available;
    PrefixReadConcat(emitted, available);
    BytesOfConcat(emitted);
    if truncated {
      NotFittingIsTooLong(Concat(emitted), Concat(available), maxBytes);
    }
  }

  /** Whole chunks use up the limit, and there is more. */
  lemma FullReply(available: seq<Chunk>, k: nat, maxBytes: nat)
    requires k < |available| && available[k].text != "" && Bytes(available[..k]) == maxBytes
    ensures NextDoesNotFit(Concat(available[..k]), Concat(available), maxBytes)
  {
    hide Concat, ByteLen;
    ConcatSplit(available, k);
    ConcatHead(available[k..]);
    BytesOfConcat(available[..k]);
  }

  /** The next chunk had to be clipped. */
  lemma ClippedReply(available: seq<Chunk>, k: nat, text: string, maxBytes: nat)
    requires k < |available| && text <= available[k].text && |text| < |available[k].text|
    requires Bytes(available[..k]) <= maxBytes && ByteLen(text) + Width(available[k].text[|text|]) > maxBytes - Bytes(available[..k])
    ensures NextDoesNotFit(Concat(available[..k] + [Chunk(available[k].seqNo, available[k].stream, text)]), Concat(available), maxBytes)
  {
    hide Concat, ByteLen, Width;
    var piece := Chunk(available[k].seqNo, available[k].stream, text);
    ConcatSplit(available, k);
    ConcatHead(available[k..]);
    ConcatAppend(available[..k], piece);
    BytesOfConcat(available[..k]);
    ByteLenConcat(Concat(available[..k]), text);
    var whole, emitted := Concat(available), Concat(available[..k]) + text;
    assert whole[..|emitted|] == emitted && whole[|emitted|] == available[k].text[|text|];
  }

  lemma ConcatHead(chunks: seq<Chunk>)
    requires chunks != []
    ensures Concat(chunks) == chunks[0].text + Concat(chunks[1..])
  {
  }

  lemma NotFittingIsTooLong(emitted: string, available: string, maxBytes: nat)
    requires NextDoesNotFit(emitted, available, maxBytes)
    ensures ByteLen(available) > maxBytes && emitted != available
    ensures ByteLen(emitted) <= maxBytes ==> maxBytes - ByteLen(emitted) <= 3
  {
    var c := available[|emitted|];
    assert available == emitted + [c] + available[|emitted| + 1..];
    ByteLenConcat(emitted + [c], available[|emitted| + 1..]);
    ByteLenConcat(emitted, [c]);
    assert ByteLen([c]) == Width(c) + ByteLen("");
  }

  lemma NoBytes()
    ensures Bytes([]) == 0
  {
  }

  class ShellSession {
    var nextSeq: nat
    var chunks: seq<Chunk>
    var chunkBytes: nat
    /** Everything ever appended. */
    ghost var history: seq<Chunk>

    ghost predicate Valid()
      reads this
    {
      && chunks == Retained(history)
      && chunkBytes == Bytes(chunks)
      && nextSeq == |history| + 1
      && forall i :: 0 <= i < |history| ==> history[i].seqNo == i + 1 && history[i].text != ""
    }

    constructor ()
      ensures Valid() && history == []
    {
      nextSeq, chunks, chunkBytes, history := 1, [], 0, [];
    }

    method AppendChunk(stream: string, text: string)
      requires Valid()
      modifies this
      ensures Valid()
      ensures history == if text == "" then old(history) else old(history) + [Chunk(|old(history)| + 1, stream, text)]
    {
      if text == "" {
        return;
      }
      var chunk := Chunk(nextSeq, stream, text);
      ConcatAppend(chunks, chunk);
      RetainedAppend(history, chunk);
      history := history + [chunk];
      nextSeq := nextSeq + 1;
      chunkBytes := chunkBytes + ByteLen(text);
      chunks := chunks + [chunk];
      while chunkBytes > SESSION_BUFFER_LIMIT
        invariant chunkBytes == Bytes(chunks) && Retained(chunks) == Retained(history)
        invariant nextSeq == old(nextSeq) + 1 && history == old(history) + [chunk]
        decreases |chunks|
      {
        if chunks == [] {
          break;
        }
        var removed := chunks[0];
        chunks := chunks[1..];
        chunkBytes := SaturatingSub(chunkBytes, ByteLen(removed.text));
      }
    }

    /** Chunks are retained with consecutive numbers ending just below nextSeq. */
    lemma Numbering()
      requires Valid()
      ensures forall i :: 0 <= i < |chunks| ==> chunks[i].seqNo == nextSeq - |chunks| + i && chunks[i].text != ""
      ensures |chunks| < nextSeq
    {
      var start := RetainedIsLongestSuffix(history);
      assert forall i :: 0 <= i < |chunks| ==> chunks[i] == history[start + i];
    }

    /** Reads what came after sinceSeq, at most maxBytes of it. */
    method Read(sinceSeq: nat, maxBytes: nat) returns (seqNo: nat, emitted: seq<Chunk>, truncated: bool)
      requires Valid()
      ensures seqNo == nextSeq - 1
      ensures IsPrefixRead(emitted, After(chunks, sinceSeq))
      ensures Concat(emitted) <= Concat(After(chunks, sinceSeq)) && ByteLen(Concat(emitted)) <= maxBytes
      ensures truncated <==> ByteLen(Concat(After(chunks, sinceSeq))) > maxBytes
      ensures truncated ==> NextDoesNotFit(Concat(emitted), Concat(After(chunks, sinceSeq)), maxBytes)
      ensures truncated <==> Concat(emitted) != Concat(After(chunks, sinceSeq))
      ensures truncated ==> maxBytes - ByteLen(Concat(emitted)) <= 3
    {
      Numbering();
      AfterSelects(chunks, sinceSeq);
      emitted, truncated := ReadPieces(After(chunks, sinceSeq), maxBytes);
      seqNo := nextSeq - 1;
    }
  }

  lemma {:induction false} AfterSelects(chunks: seq<Chunk>, sinceSeq: nat)
    ensures forall c :: c in After(chunks, sinceSeq) <==> c in chunks && c.seqNo > sinceSeq
    ensures (forall c :: c in chunks ==> c.seqNo <= sinceSeq) ==> After(chunks, sinceSeq) == []
  {
    if chunks != [] {
      AfterSelects(chunks[1..], sinceSeq);
      assert chunks == [chunks[0]] + chunks[1..];
    }
  }

  /** The number a reply carries is the newest there is, even if the reply was cut short: polling on
      from it returns nothing that was there before. */
  lemma PollingFromTheReply(session: ShellSession)
    requires session.Valid()
    ensures After(session.chunks, session.nextSeq - 1) == []
  {
    session.Numbering();
    AfterSelects(session.chunks, session.nextSeq - 1);
    assert forall c :: c in session.chunks ==> c.seqNo <= session.nextSeq - 1;
  }

  // ---- A client that polls on from the number in each reply ----

  ghost predicate Numbered(history: seq<Chunk>)
  {
    forall i :: 0 <= i < |history| ==> history[i].seqNo == i + 1 && history[i].text != ""
  }

  datatype Poller = Poller(history: seq<Chunk>, cursor: nat, seen: string)

  datatype Step = Appended(stream: string, text: string) | Polled(emitted: seq<Chunk>)

  /** A poll is answered by a prefix of what is available, as Read does. */
  ghost predicate Enabled(st: Poller, step: Step)
  {
    match step
    case Appended(_, text) => text != ""
    case Polled(emitted) => IsPrefixRead(emitted, After(Retained(st.history), st.cursor))
  }

  function Next(st: Poller, step: Step): Poller
  {
    match step
    case Appended(stream, text) => st.(history := st.history + [Chunk(|st.history| + 1, stream, text)])
    case Polled(emitted) => st.(cursor := |st.history|, seen := st.seen + Concat(emitted))
  }

  /** A poll loses output when its reply is cut short, or when the oldest unread chunk has been
      dropped from the buffer. */
  ghost predicate Lossless(st: Poller, step: Step)
  {
    match step
    case Appended(_, _) => true
    case Polled(emitted) =>
      && Concat(emitted) == Concat(After(Retained(st.history), st.cursor))
      && |st.history| - |Retained(st.history)| <= st.cursor
  }

  ghost predicate IsRun(states: seq<Poller>, steps: seq<Step>)
  {
    && |states| == |steps| + 1 && states[0] == Poller([], 0, "")
    && forall i :: 0 <= i < |steps| ==> Enabled(states[i], steps[i]) && states[i + 1] == Next(states[i], steps[i])
  }

  /** What has been seen is at most what was there to see, and as long only if it is the same. */
  ghost predicate Tracks(st: Poller)
  {
    && Numbered(st.history) && st.cursor <= |st.history|
    && |st.seen| <= |Concat(st.history[..st.cursor])|
  }

  ghost predicate SawAll(st: Poller)
    requires st.cursor <= |st.history|
  {
    st.seen == Concat(st.history[..st.cursor])
  }

  lemma {:induction false} NothingMeansNoChunks(chunks: seq<Chunk>)
    requires forall c :: c in chunks ==> c.text != ""
    ensures Concat(chunks) == "" <==> chunks == []
  {
    if chunks != [] { assert chunks[0] in chunks; }
  }

  lemma {:induction false} AfterIsSuffix(history: seq<Chunk>, start: nat, cursor: nat)
    requires Numbered(history) && start <= |history|
    ensures var from := if cursor < start then start else if cursor < |history| then cursor else |history|;
      After(history[start..], cursor) == history[from..]
    decreases |history| - start
  {
    hide After;
    if start < |history| {
      AfterIsSuffix(history, start + 1, cursor);
      assert history[start..] == [history[start]] + history[start + 1..];
      AfterStep(history[start], history[start + 1..], cursor);
    } else {
      assert history[start..] == [];
      AfterNothing(cursor);
    }
  }

  lemma AfterStep(c: Chunk, rest: seq<Chunk>, cursor: nat)
    ensures After([c] + rest, cursor) == (if c.seqNo > cursor then [c] else []) + After(rest, cursor)
  {
    assert ([c] + rest)[1..] == rest;
  }

  lemma AfterNothing(cursor: nat)
    ensures After([], cursor) == []
  {
  }

  /** What a poll can reach: the unread history without what has been dropped. */
  lemma Available(st: Poller) returns (from: nat)
    requires Tracks(st)
    ensures st.cursor <= from <= |st.history| && After(Retained(st.history), st.cursor) == st.history[from..]
    ensures from == st.cursor <==> |st.history| - |Retained(st.history)| <= st.cursor
  {
    hide Retained, Concat;
    var start := RetainedIsLongestSuffix(st.history);
    AfterIsSuffix(st.history, start, st.cursor);
    from := if st.cursor < start then start else st.cursor;
  }

  /** History falls into what was read, what was dropped unread, and what a poll can reach. */
  lemma HistoryParts(st: Poller) returns (missed: string)
    requires Tracks(st)
    ensures var available := After(Retained(st.history), st.cursor);
      && Concat(st.history) == Concat(st.history[..st.cursor]) + (missed + Concat(available))
      && (missed == "" <==> |st.history| - |Retained(st.history)| <= st.cursor)
      && (forall c :: c in available ==> c.text != "")
  {
    hide Retained, Concat, After;
    var from := Available(st);
    var unread := st.history[st.cursor..];
    forall c | c in st.history ensures c.text != "" {
      var i :| 0 <= i < |st.history| && st.history[i] == c;
    }
    ConcatSplit(st.history, st.cursor);
    ConcatSplit(unread, from - st.cursor);
    assert unread[from - st.cursor..] == st.history[from..];
    NothingMeansNoChunks(unread[..from - st.cursor]);
    missed := Concat(unread[..from - st.cursor]);
  }

  lemma PollTracks(st: Poller, emitted: seq<Chunk>)
    requires Tracks(st) && Enabled(st, Polled(emitted))
    ensures |st.seen| + |Concat(emitted)| <= |Concat(st.history)|
    ensures st.seen + Concat(emitted) == Concat(st.history) <==> SawAll(st) && Lossless(st, Polled(emitted))
  {
    hide Retained, Concat, After, Numbered, IsPrefixRead;
    var available := After(Retained(st.history), st.cursor);
    var missed := HistoryParts(st);
    PrefixReadConcat(emitted, available);
    SameWhenAsLong(st.seen, Concat(emitted), Concat(st.history[..st.cursor]), missed, Concat(available));
  }

  lemma SameWhenAsLong(seen: string, emitted: string, read: string, missed: string, available: string)
    requires |seen| <= |read| && emitted <= available
    ensures seen + emitted == read + (missed + available) <==> seen == read && missed == "" && emitted == available
  {
    if seen + emitted == read + (missed + available) {
      assert |seen| == |read| && |missed| == 0;
      assert seen == (seen + emitted)[..|seen|] && read == (read + (missed + available))[..|read|];
    }
  }

  /** Over any run of output and polls, the client has seen everything up to its cursor, in order
      and without gaps, exactly when none of its polls was lossy. A loss is never made good. */
  lemma {:induction false} SeesEverythingExactlyWhen(states: seq<Poller>, steps: seq<Step>)
    requires IsRun(states, steps)
    ensures Tracks(states[|steps|])
    ensures SawAll(states[|steps|]) <==> forall i :: 0 <= i < |steps| ==> Lossless(states[i], steps[i])
    decreases |steps|
  {
    hide Concat, Retained, After, IsPrefixRead;
    if steps == [] {
      NothingMeansNoChunks([]);
    } else {
      var n := |steps| - 1;
      SeesEverythingExactlyWhen(states[..n + 1], steps[..n]);
      var st, next := states[n], states[n + 1];
      match steps[n]
      case Appended(_, _) =>
        assert next.history[..st.cursor] == st.history[..st.cursor];
      case Polled(emitted) =>
        PollTracks(st, emitted);
        assert next.history[..next.cursor] == st.history;
    }
  }
}
