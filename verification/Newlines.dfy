/** Line-break styles: what a file uses, how its text is normalised for editing, and how it is
    written back. */
module Newlines {
  import opened Text

  datatype NewlineStyle = Lf | Crlf | Mixed

  /** Every CR becomes a line break, together with a LF that follows it. */
  function Normalized(s: string): string
    decreases |s|
  {
    if s == "" then ""
    else if s[0] == '\r' then "\n" + Normalized(if |s| > 1 && s[1] == '\n' then s[2..] else s[1..])
    else [s[0]] + Normalized(s[1..])
  }

  /** How many characters the first normalised one stands for. */
  function Lead(s: string): (n: nat)
    requires s != ""
    ensures 1 <= n <= 2 && n <= |s|
  {
    if s[0] == '\r' && |s| > 1 && s[1] == '\n' then 2 else 1
  }

  lemma NormalizedStep(s: string)
    requires s != ""
    ensures Normalized(s) == [if s[0] == '\r' then '\n' else s[0]] + Normalized(s[Lead(s)..])
  {
  }

  lemma NormalizedOfNothing(s: string)
    ensures Normalized(s) == "" <==> s == ""
  {
  }

  method NormalizeNewlines(text: string) returns (normalized: string)
    ensures normalized == Normalized(text)
  {
    normalized := "";
    var i := 0;
    while i < |text|
      invariant i <= |text| && normalized + Normalized(text[i..]) == Normalized(text)
    {
      hide Normalized;
      var ch := text[i];
      ghost var done, rest := normalized, text[i..];
      NormalizedStep(rest);
      i := i + 1;
      if ch == '\r' {
        if i < |text| && text[i] == '\n' {
          i := i + 1;
        }
        normalized := normalized + ['\n'];
      } else {
        normalized := normalized + [ch];
      }
      OneMoreChar(done, normalized[|done|], text, i, rest);
    }
  }

  lemma OneMoreChar(done: string, c: char, text: string, i: nat, rest: string)
    requires rest != "" && i <= |text| && i >= Lead(rest) && rest == text[i - Lead(rest)..]
    requires Normalized(rest) == [c] + Normalized(rest[Lead(rest)..])
    ensures done + [c] + Normalized(text[i..]) == done + Normalized(rest)
  {
    hide Normalized, Lead;
    assert text[i..] == rest[Lead(rest)..];
  }

  function ToCrlf(s: string): string
  {
    if s == "" then "" else (if s[0] == '\n' then "\r\n" else [s[0]]) + ToCrlf(s[1..])
  }

  function Encode(style: NewlineStyle, s: string): string
  {
    if style == Crlf then ToCrlf(s) else s
  }

  // ---- Detection, which runs on bytes ----

  function Utf8Char(c: char): (bytes: seq<int>)
    ensures |bytes| == Width(c)
    ensures if c < '\U{0080}' then bytes == [c as int] else forall i :: 0 <= i < |bytes| ==> 0x80 <= bytes[i] < 0x100
  {
    var n := c as int;
    if n < 0x80 then [n]
    else if n < 0x800 then [0xC0 + n / 0x40, 0x80 + n % 0x40]
    else if n < 0x10000 then [0xE0 + n / 0x1000, 0x80 + n / 0x40 % 0x40, 0x80 + n % 0x40]
    else [0xF0 + n / 0x40000, 0x80 + n / 0x1000 % 0x40, 0x80 + n / 0x40 % 0x40, 0x80 + n % 0x40]
  }

  function Utf8(s: string): seq<int>
  {
    if s == "" then [] else Utf8Char(s[0]) + Utf8(s[1..])
  }

  /** Whether a scan meets a LF of its own, and whether it meets CR LF. */
  function Scan(units: seq<int>): (bool, bool)
    decreases |units|
  {
    if units == [] then (false, false)
    else if units[0] == 13 && |units| > 1 && units[1] == 10 then (Scan(units[2..]).0, true)
    else if units[0] == 10 then (true, Scan(units[1..]).1)
    else Scan(units[1..])
  }

  function StyleOf(saw: (bool, bool)): NewlineStyle
  {
    if saw.0 && saw.1 then Mixed else if saw.1 then Crlf else Lf
  }

  function CodePoints(s: string): seq<int>
  {
    seq(|s|, i requires 0 <= i < |s| => s[i] as int)
  }

  function Detected(s: string): NewlineStyle
  {
    StyleOf(Scan(CodePoints(s)))
  }

  lemma {:induction false} ScanSkips(high: seq<int>, rest: seq<int>)
    requires forall i :: 0 <= i < |high| ==> high[i] >= 0x80
    ensures Scan(high + rest) == Scan(rest)
  {
    if high == [] {
      assert high + rest == rest;
    } else {
      assert (high + rest)[1..] == high[1..] + rest;
      ScanSkips(high[1..], rest);
    }
  }

  /** Looking at bytes is as good as looking at characters: no byte of a longer character is CR
      or LF. */
  lemma {:induction false} ScanOfBytes(s: string)
    ensures Scan(Utf8(s)) == Scan(CodePoints(s))
    ensures s != "" ==> Utf8(s) != [] && (Utf8(s)[0] == 10 <==> s[0] == '\n')
    decreases |s|
  {
    if s != "" {
      var c := s[0];
      assert CodePoints(s)[1..] == CodePoints(s[1..]);
      ScanOfBytes(s[1..]);
      if c < '\U{0080}' {
        assert Utf8(s)[1..] == Utf8(s[1..]);
        if c == '\r' && |s| > 1 && s[1] == '\n' {
          ScanOfBytes(s[2..]);
          assert Utf8(s[1..])[1..] == Utf8(s[2..]);
          assert Utf8(s)[2..] == Utf8(s[2..]);
          assert CodePoints(s)[2..] == CodePoints(s[2..]);
        }
      } else {
        ScanSkips(Utf8Char(c), Utf8(s[1..]));
      }
    }
  }

  method DetectNewlineStyle(text: string) returns (style: NewlineStyle)
    ensures style == Detected(text)
  {
    var bytes := Utf8(text);
    var sawLf, sawCrlf, idx := false, false, 0;
    while idx < |bytes|
      invariant idx <= |bytes|
      invariant sawLf || Scan(bytes[idx..]).0 == Scan(bytes).0
      invariant sawLf ==> Scan(bytes).0
      invariant sawCrlf || Scan(bytes[idx..]).1 == Scan(bytes).1
      invariant sawCrlf ==> Scan(bytes).1
      invariant Scan(bytes[idx..]).0 ==> Scan(bytes).0
      invariant Scan(bytes[idx..]).1 ==> Scan(bytes).1
    {
      ghost var rest := bytes[idx..];
      if bytes[idx] == 13 && idx + 1 < |bytes| && bytes[idx + 1] == 10 {
        sawCrlf, idx := true, idx + 2;
        assert bytes[idx..] == rest[2..];
      } else if bytes[idx] == 10 {
        sawLf, idx := true, idx + 1;
        assert bytes[idx..] == rest[1..];
      } else {
        idx := idx + 1;
        assert bytes[idx..] == rest[1..];
      }
    }
    ScanOfBytes(text);
    style := if sawLf && sawCrlf then Mixed else if sawCrlf then Crlf else Lf;
  }

  // ---- Round trips ----

  lemma {:induction false} NormalizedHasNoCr(s: string)
    ensures '\r' !in Normalized(s)
    decreases |s|
  {
    if s != "" {
      NormalizedHasNoCr(s[1..]);
      if |s| > 1 { NormalizedHasNoCr(s[2..]); }
    }
  }

  lemma {:induction false} NormalizedOfNormal(s: string)
    requires '\r' !in s
    ensures Normalized(s) == s
  {
    if s != "" {
      NormalizedOfNormal(s[1..]);
    }
  }

  lemma NormalizedIdempotent(s: string)
    ensures Normalized(Normalized(s)) == Normalized(s)
  {
    NormalizedHasNoCr(s);
    NormalizedOfNormal(Normalized(s));
  }

  /** Writing CR LF and normalising is the identity on text without CR. */
  lemma {:induction false} NormalizedOfCrlf(s: string)
    requires '\r' !in s
    ensures Normalized(ToCrlf(s)) == s
  {
    if s != "" {
      NormalizedOfCrlf(s[1..]);
      var t := ToCrlf(s);
      if s[0] == '\n' {
        assert t[2..] == ToCrlf(s[1..]);
      } else {
        assert t[1..] == ToCrlf(s[1..]);
      }
    }
  }

  lemma {:induction false} EncodeConcat(style: NewlineStyle, a: string, b: string)
    ensures Encode(style, a + b) == Encode(style, a) + Encode(style, b)
  {
    if a == "" {
      assert a + b == b;
    } else if style == Crlf {
      assert (a + b)[1..] == a[1..] + b;
      EncodeConcat(style, a[1..], b);
    }
  }

  /** Every CR is followed by a LF. */
  predicate NoLoneCr(s: string)
  {
    forall i :: 0 <= i < |s| && s[i] == '\r' ==> i + 1 < |s| && s[i + 1] == '\n'
  }

  /** Every LF is preceded by a CR. */
  predicate NoLoneLf(s: string)
  {
    forall i :: 0 <= i < |s| && s[i] == '\n' ==> i > 0 && s[i - 1] == '\r'
  }

  lemma {:induction false} ScanMeaning(s: string)
    ensures Scan(CodePoints(s)).1 <==> exists i :: 0 <= i < |s| - 1 && s[i] == '\r' && s[i + 1] == '\n'
    ensures !Scan(CodePoints(s)).0 <==> NoLoneLf(s)
    decreases |s|
  {
    if s != "" {
      var units := CodePoints(s);
      if |s| > 1 && s[0] == '\r' && s[1] == '\n' {
        var t := s[2..];
        assert units[2..] == CodePoints(t);
        ScanMeaning(t);
        assert forall i :: 0 <= i < |t| ==> t[i] == s[i + 2];
        assert forall i :: 2 <= i < |s| ==> s[i] == t[i - 2];
      } else {
        var t := s[1..];
        assert units[1..] == CodePoints(t);
        ScanMeaning(t);
        assert forall i :: 0 <= i < |t| ==> t[i] == s[i + 1];
        assert forall i :: 1 <= i < |s| ==> s[i] == t[i - 1];
      }
    }
  }

  lemma {:induction false} CrlfRestored(t: string)
    requires NoLoneCr(t) && NoLoneLf(t)
    ensures ToCrlf(Normalized(t)) == t
    decreases |t|
  {
    if t != "" {
      hide Normalized;
      var rest := t[Lead(t)..];
      NoLoneRest(t);
      CrlfRestored(rest);
      NormalizedStep(t);
      assert Normalized(t)[1..] == Normalized(rest);
      assert t == t[..Lead(t)] + rest;
      assert t[0] == '\r' ==> t[..2] == "\r\n";
    }
  }

  lemma NoLoneRest(t: string)
    requires t != "" && NoLoneCr(t) && NoLoneLf(t)
    ensures NoLoneCr(t[Lead(t)..]) && NoLoneLf(t[Lead(t)..])
    ensures t[0] == '\r' ==> Lead(t) == 2
    ensures t[0] != '\n'
  {
    var k, rest := Lead(t), t[Lead(t)..];
    assert forall i :: 0 <= i < |rest| ==> rest[i] == t[i + k];
    forall i | 0 <= i < |rest| && rest[i] == '\n' ensures i > 0 && rest[i - 1] == '\r' {
      assert t[i + k] == '\n' && t[i + k - 1] == '\r' && t[k - 1] != '\r';
    }
  }

  lemma {:induction false} CrlfHasNoLoneCr(u: string)
    requires '\r' !in u
    ensures NoLoneCr(ToCrlf(u))
  {
    if u != "" {
      CrlfHasNoLoneCr(u[1..]);
      var rest := ToCrlf(u[1..]);
      var head := if u[0] == '\n' then "\r\n" else [u[0]];
      forall i | 0 <= i < |ToCrlf(u)| && ToCrlf(u)[i] == '\r' ensures i + 1 < |ToCrlf(u)| && ToCrlf(u)[i + 1] == '\n' {
        if i >= |head| { assert rest[i - |head|] == '\r'; }
      }
    }
  }

  /** Normalising for editing and encoding back in the detected style restores a file exactly when
      it does not mix styles and has no CR on its own. */
  lemma RestoredExactlyWhen(t: string)
    ensures Encode(Detected(t), Normalized(t)) == t <==> Detected(t) != Mixed && NoLoneCr(t)
  {
    ScanMeaning(t);
    NormalizedHasNoCr(t);
    match Detected(t)
    case Lf =>
      if '\r' in t {
        var i :| 0 <= i < |t| && t[i] == '\r';
        assert i + 1 < |t| ==> t[i + 1] != '\n';
      } else {
        NormalizedOfNormal(t);
      }
    case Crlf =>
      if NoLoneCr(t) { CrlfRestored(t); }
      CrlfHasNoLoneCr(Normalized(t));
    case Mixed =>
  }

  // ---- Parts of a file ----

  /** What normalising and encoding in the given style brings back. */
  predicate Restorable(style: NewlineStyle, part: string)
  {
    if style == Crlf then NoLoneCr(part) && NoLoneLf(part) else '\r' !in part
  }

  lemma RestorableExactlyWhen(style: NewlineStyle, part: string)
    ensures Encode(style, Normalized(part)) == part <==> Restorable(style, part)
  {
    hide Normalized, ToCrlf;
    NormalizedHasNoCr(part);
    if style == Crlf {
      if Restorable(style, part) { CrlfRestored(part); }
      CrlfHasNoLoneCr(Normalized(part));
      CrlfHasNoLoneLf(Normalized(part));
    } else if '\r' !in part {
      NormalizedOfNormal(part);
    }
  }

  lemma {:induction false} CrlfHasNoLoneLf(u: string)
    requires '\r' !in u
    ensures NoLoneLf(ToCrlf(u))
  {
    if u != "" {
      CrlfHasNoLoneLf(u[1..]);
      var rest := ToCrlf(u[1..]);
      var head := if u[0] == '\n' then "\r\n" else [u[0]];
      assert ToCrlf(u) == head + rest;
      forall i | 0 <= i < |ToCrlf(u)| && ToCrlf(u)[i] == '\n' ensures i > 0 && ToCrlf(u)[i - 1] == '\r' {
        if i >= |head| { assert rest[i - |head|] == '\n'; }
      }
    }
  }

  /** How a style changes a part's length: CR LF only ever lengthens it, the others only shorten it. */
  lemma {:induction false} EncodedLength(style: NewlineStyle, part: string)
    ensures style == Crlf ==> |Encode(style, Normalized(part))| >= |part|
    ensures style != Crlf ==> |Encode(style, Normalized(part))| <= |part|
    decreases |part|
  {
    if part != "" {
      EncodedLength(style, if part[0] == '\r' && |part| > 1 && part[1] == '\n' then part[2..] else part[1..]);
    }
  }

  /** Both parts around something fixed come back if and only if the whole does: no gain in one can
      make up for a loss in the other. */
  lemma KeptExactlyWhen(style: NewlineStyle, before: string, middle: string, after: string)
    ensures Encode(style, Normalized(before)) + middle + Encode(style, Normalized(after)) == before + middle + after
      <==> Restorable(style, before) && Restorable(style, after)
  {
    hide Normalized, Encode, Restorable;
    RestorableExactlyWhen(style, before);
    RestorableExactlyWhen(style, after);
    EncodedLength(style, before);
    EncodedLength(style, after);
    SameParts(Encode(style, Normalized(before)), Encode(style, Normalized(after)), middle, before, after);
  }

  /** If the whole comes back, so does every part that is normalised on its own. */
  lemma PartsAreRestorable(style: NewlineStyle, before: string, middle: string, after: string)
    requires Restorable(style, before + middle + after)
    requires Normalized(before + middle + after) == Normalized(before) + Normalized(middle) + Normalized(after)
    ensures Restorable(style, before) && Restorable(style, middle) && Restorable(style, after)
  {
    hide Normalized, Encode, Restorable;
    RestorableExactlyWhen(style, before + middle + after);
    EncodeConcat(style, Normalized(before) + Normalized(middle), Normalized(after));
    EncodeConcat(style, Normalized(before), Normalized(middle));
    EncodedLength(style, before);
    EncodedLength(style, middle);
    EncodedLength(style, after);
    var before', middle', after' := Encode(style, Normalized(before)), Encode(style, Normalized(middle)), Encode(style, Normalized(after));
    assert |before'| == |before| && |middle'| == |middle| && |after'| == |after|;
    assert middle' == middle by {
      assert middle' == (before' + middle' + after')[|before|..|before| + |middle|];
      assert middle == (before + middle + after)[|before|..|before| + |middle|];
    }
    SameParts(before', after', middle, before, after);
    RestorableExactlyWhen(style, before);
    RestorableExactlyWhen(style, middle);
    RestorableExactlyWhen(style, after);
  }

  lemma SameParts(before': string, after': string, middle: string, before: string, after: string)
    requires (|before'| >= |before| && |after'| >= |after|) || (|before'| <= |before| && |after'| <= |after|)
    ensures before' + middle + after' == before + middle + after <==> before' == before && after' == after
  {
    if before' + middle + after' == before + middle + after {
      assert |before'| == |before| && |after'| == |after|;
      var whole := before + middle + after;
      assert before' == whole[..|before|] && before == whole[..|before|];
      assert after' == whole[|whole| - |after|..] && after == whole[|whole| - |after|..];
    }
  }

  /** Where in a text its first n normalised characters end. */
  function RawIndex(s: string, n: nat): (x: nat)
    requires n <= |Normalized(s)|
    ensures x <= |s|
    decreases |s|
  {
    if n == 0 then 0
    else
      NormalizedOfNothing(s);
      NormalizedStep(s);
      Lead(s) + RawIndex(s[Lead(s)..], n - 1)
  }

  lemma {:induction false} RawIndexCuts(s: string, n: nat)
    requires n <= |Normalized(s)|
    ensures Normalized(s[..RawIndex(s, n)]) == Normalized(s)[..n]
    ensures Normalized(s[RawIndex(s, n)..]) == Normalized(s)[n..]
    decreases |s|
  {
    hide Normalized, Lead;
    if n == 0 {
      NormalizedOfNothing("");
      assert s[..0] == "" && s[0..] == s;
    } else {
      NormalizedOfNothing(s);
      NormalizedStep(s);
      var k, rest := Lead(s), s[Lead(s)..];
      RawIndexCuts(rest, n - 1);
      var x := RawIndex(rest, n - 1);
      assert s[k + x..] == rest[x..];
      assert s[..k + x][k..] == rest[..x];
      LeadOfPrefix(s, k + x);
      NormalizedStep(s[..k + x]);
    }
  }

  lemma LeadOfPrefix(s: string, n: nat)
    requires s != "" && Lead(s) <= n <= |s|
    ensures Lead(s[..n]) == Lead(s)
  {
  }

  /** What normalising makes of the text between two such places. */
  lemma {:induction false} NormalizedBetween(s: string, m: nat, n: nat)
    requires m <= n <= |Normalized(s)|
    ensures RawIndex(s, m) <= RawIndex(s, n)
    ensures Normalized(s[RawIndex(s, m)..RawIndex(s, n)]) == Normalized(s)[m..n]
    decreases |s|
  {
    hide Normalized, Lead;
    if m == 0 {
      RawIndexCuts(s, n);
      assert s[0..RawIndex(s, n)] == s[..RawIndex(s, n)] && Normalized(s)[0..n] == Normalized(s)[..n];
    } else {
      NormalizedOfNothing(s);
      NormalizedStep(s);
      var k, rest := Lead(s), s[Lead(s)..];
      NormalizedBetween(rest, m - 1, n - 1);
      var x, y := RawIndex(rest, m - 1), RawIndex(rest, n - 1);
      assert s[k + x..k + y] == rest[x..y];
    }
  }
}
