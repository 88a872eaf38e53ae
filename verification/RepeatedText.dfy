/** Collapsing text that a provider sent several times over: the shortest unit whose repetition is
    the trimmed text. */
module RepeatedText {
  import opened Arithmetic
  import opened Text

  function Repeat(u: string, k: nat): string
  {
    if k == 0 then "" else u + Repeat(u, k - 1)
  }

  /** Not a repetition of anything shorter. */
  ghost predicate Primitive(u: string)
  {
    forall v: string, k: nat :: u == Repeat(v, k) ==> k == 1 || u == ""
  }

  /** n characters, repeated, give the text. */
  predicate IsUnit(s: string, n: nat)
  {
    0 < n <= |s| && |s| % n == 0 && Repeat(s[..n], |s| / n) == s
  }

  /** The repetition unit of least length among those of at least n characters. */
  function ShortestUnit(s: string, n: nat): (m: nat)
    requires 0 < n <= |s|
    ensures n <= m <= |s| && IsUnit(s, m)
    ensures forall k :: n <= k < m ==> !IsUnit(s, k)
    decreases |s| - n
  {
    if IsUnit(s, n) then n
    else if n == |s| then WholeIsUnit(s); n
    else ShortestUnit(s, n + 1)
  }

  lemma WholeIsUnit(s: string)
    requires s != ""
    ensures IsUnit(s, |s|)
  {
    assert s[..|s|] == s && Repeat(s, 1) == s + Repeat(s, 0);
  }

  function Root(s: string): string
  {
    if s == "" then "" else s[..ShortestUnit(s, 1)]
  }

  method CollapseRepeatedText(text: string) returns (r: string)
    ensures r == Root(Trim(text))
  {
    hide Trim, IsUnit, Root;
    var trimmed := Trim(text);
    var len := |trimmed|;
    RootIsTrivial(trimmed);
    if len < 2 {
      return trimmed;
    }
    for unitLen := 1 to len / 2 + 1
      invariant forall k :: 1 <= k < unitLen ==> !IsUnit(trimmed, k)
    {
      if len % unitLen != 0 {
        NotAUnit(trimmed, unitLen);
        continue;
      }
      var repeats := len / unitLen;
      if repeats < 2 {
        continue;
      }
      var unit := trimmed[..unitLen];
      UnitTest(trimmed, unitLen);
      if Repeat(unit, repeats) == trimmed {
        RootIs(trimmed, unitLen);
        return unit;
      }
    }
    NoUnitBeyondHalf(trimmed);
    r := trimmed;
  }

  lemma NotAUnit(s: string, n: nat)
    requires n > 0 && |s| % n != 0
    ensures !IsUnit(s, n)
  {
  }

  lemma UnitTest(s: string, n: nat)
    requires 0 < n <= |s| && |s| % n == 0
    ensures IsUnit(s, n) <==> Repeat(s[..n], |s| / n) == s
  {
  }

  lemma RootIs(s: string, n: nat)
    requires IsUnit(s, n) && forall k :: 1 <= k < n ==> !IsUnit(s, k)
    ensures Root(s) == s[..n]
  {
  }

  lemma RootIsTrivial(s: string)
    ensures |s| < 2 ==> Root(s) == s
    ensures s != "" && (forall k :: 1 <= k < |s| ==> !IsUnit(s, k)) ==> Root(s) == s
  {
    assert s[..|s|] == s;
  }

  lemma NoUnitBeyondHalf(s: string)
    ensures forall k :: |s| / 2 < k < |s| ==> !IsUnit(s, k)
  {
    hide Repeat;
    forall k | |s| / 2 < k < |s| ensures !IsUnit(s, k) {
      NotDivisible(|s|, k);
    }
  }

  // ---- Repetition ----

  lemma {:induction false} RepeatLength(u: string, k: nat)
    ensures |Repeat(u, k)| == k * |u|
  {
    if k > 0 {
      RepeatLength(u, k - 1);
      assert k * |u| == (k - 1) * |u| + |u|;
    }
  }

  lemma {:induction false} RepeatAdd(u: string, j: nat, k: nat)
    ensures Repeat(u, j + k) == Repeat(u, j) + Repeat(u, k)
  {
    if j > 0 {
      RepeatAdd(u, j - 1, k);
    }
  }

  lemma {:induction false} RepeatTimes(u: string, j: nat, k: nat)
    ensures Repeat(Repeat(u, j), k) == Repeat(u, j * k)
  {
    if k > 0 {
      RepeatTimes(u, j, k - 1);
      RepeatAdd(u, j, j * (k - 1));
      assert j + j * (k - 1) == j * k;
    } else {
      assert j * k == 0;
    }
  }

  /** A non-empty text that is a repetition is one with a unit of that length. */
  lemma RepetitionHasUnit(v: string, k: nat)
    requires v != "" && k > 0
    ensures IsUnit(Repeat(v, k), |v|) && Repeat(v, k)[..|v|] == v
  {
    RepeatLength(v, k);
    var s := Repeat(v, k);
    assert s[..|v|] == v;
    assert |s| / |v| == k && |s| % |v| == 0 by { QuotientOf(k, |v|); }
    assert k * |v| >= |v| by { assert k * |v| == (k - 1) * |v| + |v|; }
  }

  /** The result repeats to the trimmed text, and is no repetition itself. */
  lemma RootRepeats(s: string)
    requires s != ""
    ensures Root(s) != "" && exists k: nat :: k > 0 && Repeat(Root(s), k) == s
    ensures Primitive(Root(s))
  {
    var n := ShortestUnit(s, 1);
    var k := |s| / n;
    assert Repeat(Root(s), k) == s;
    forall v: string, j: nat | Root(s) == Repeat(v, j) ensures j == 1 {
      RepeatNothing(j);
      NoFinerUnit(s, v, j, k);
    }
  }

  lemma NoFinerUnit(s: string, v: string, j: nat, k: nat)
    requires s != "" && v != "" && j > 0 && k > 0
    requires Root(s) == Repeat(v, j) && Repeat(Root(s), k) == s
    ensures j == 1
  {
    hide Repeat;
    RepeatTimes(v, j, k);
    RepeatLength(v, j);
    Positive(j, k);
    RepetitionHasUnit(v, j * k);
    OnlyOnce(j, |v|);
  }

  lemma {:induction false} RepeatNothing(k: nat)
    ensures Repeat("", k) == ""
  {
    if k > 0 { RepeatNothing(k - 1); }
  }

  // ---- The result is the only primitive text that repeats to the input ----

  /** Two words that commute are powers of a common word. */
  lemma {:induction false} CommutingWords(u: string, v: string) returns (w: string, a: nat, b: nat)
    requires u != "" && v != "" && u + v == v + u
    ensures u == Repeat(w, a) && v == Repeat(w, b)
    decreases |u| + |v|
  {
    if |u| == |v| {
      assert u == (u + v)[..|u|] == (v + u)[..|u|] == v;
      w, a, b := u, 1, 1;
      assert Repeat(w, 1) == w + Repeat(w, 0);
    } else if |u| > |v| {
      var rest := u[|v|..];
      CommonPrefix(u, v);
      w, a, b := CommutingWords(rest, v);
      RepeatAdd(w, b, a);
      a := b + a;
    } else {
      var rest := v[|u|..];
      CommonPrefix(v, u);
      w, a, b := CommutingWords(u, rest);
      RepeatAdd(w, a, b);
      b := a + b;
    }
  }

  lemma CommonPrefix(u: string, v: string)
    requires |u| >= |v| && u + v == v + u
    ensures u == v + u[|v|..] && u[|v|..] + v == v + u[|v|..]
  {
    var rest := u[|v|..];
    assert v == (v + u)[..|v|] == (u + v)[..|v|] == u[..|v|];
    assert u == v + rest;
    assert u + v == v + (rest + v) && v + u == v + (v + rest);
    assert rest + v == (u + v)[|v|..] && v + rest == (v + u)[|v|..];
  }

  lemma RepeatCommutes(u: string, k: nat)
    requires k > 0
    ensures u + Repeat(u, k) == Repeat(u, k) + u && u <= Repeat(u, k)
  {
    RepeatAdd(u, k, 1);
    assert Repeat(u, 1) == u + Repeat(u, 0) == u;
    assert Repeat(u, k + 1) == u + Repeat(u, k);
  }

  /** Words with a common power commute. */
  lemma CommonPowerCommutes(u: string, k: nat, v: string, j: nat)
    requires k > 0 && j > 0 && Repeat(u, k) == Repeat(v, j)
    ensures u + v == v + u
  {
    var x := Repeat(u, k);
    RepeatCommutes(u, k);
    RepeatCommutes(v, j);
    BothPrefixes(u, v, x);
    BothPrefixes(v, u, x);
  }

  lemma BothPrefixes(u: string, v: string, x: string)
    requires u <= x && v <= x && u + x == x + u
    ensures u + v <= x + x
  {
    assert u + v <= u + x;
    assert x + u <= x + x;
  }

  /** Whatever primitive text is sent however often, collapsing gives it back. */
  lemma RootOfRepetition(u: string, k: nat)
    requires u != "" && Primitive(u) && k > 0
    ensures Root(Repeat(u, k)) == u
  {
    hide Root, Repeat;
    var s := Repeat(u, k);
    RepeatCommutes(u, k);
    RootRepeats(s);
    var v := Root(s);
    var j: nat :| j > 0 && Repeat(v, j) == s;
    CommonPowerCommutes(u, k, v, j);
    var w, a, b := CommutingWords(u, v);
    assert a == 1 && b == 1;
  }

  /** The result has no outer white space, and collapsing again changes nothing. */
  lemma CollapseIdempotent(text: string)
    ensures Trimmed(Root(Trim(text)))
    ensures Root(Trim(Root(Trim(text)))) == Root(Trim(text))
  {
    hide Root, Repeat;
    var s := Trim(text);
    if s == "" {
      RootIsTrivial(s);
    } else {
      RootRepeats(s);
      var u := Root(s);
      var k: nat :| k > 0 && Repeat(u, k) == s;
      RepeatEnds(u, k);
      RootOfRepetition(u, 1);
      RepeatOnce(u);
    }
  }

  lemma RepeatOnce(u: string)
    ensures Repeat(u, 1) == u
  {
    assert Repeat(u, 1) == u + Repeat(u, 0);
  }

  lemma RepeatEnds(u: string, k: nat)
    requires u != "" && k > 0
    ensures Repeat(u, k) != "" && Repeat(u, k)[0] == u[0] && Repeat(u, k)[|Repeat(u, k)| - 1] == u[|u| - 1]
  {
    RepeatAdd(u, k - 1, 1);
    RepeatOnce(u);
  }
}
