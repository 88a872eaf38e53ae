/** Fitting the blocks of an assembled context into a token budget: three stages of compaction,
    then cutting and dropping until the total fits. */
module ContextBudget {
  import opened Wrappers
  import opened Text

  const SUMMARY_AGGRESSIVE_WORDS: nat := 18
  const SUMMARY_FALLBACK_WORDS: nat := 10
  const FRESH_TAIL_AGGRESSIVE_LINES: nat := 6
  const FRESH_TAIL_FALLBACK_LINES: nat := 3

  datatype Kind =
    | StableIdentity | Mission | Rule | UserProfile | Memory | RetrievedKnowledge | RecentEvent
    | ToolTrace | TaskPlan | Summary | SkillInstruction | Checkpoint | RuntimeDirective

  datatype Source =
    | WorkspaceFile(path: string)
    | EventLog(eventId: string)
    | SummaryNode(summaryNodeId: string)
    | MemoryRef(memoryRef: string)
    | Knowledge(knowledgeRef: string)
    | ToolCall(toolCallId: string)
    | Artifact(artifactId: string)
    | Runtime

  datatype Block = Block(
    id: string,
    kind: Kind,
    source: Source,
    priority: nat,
    tokenEstimate: Option<nat>,
    content: string)
  {
    function Estimate(): nat { tokenEstimate.GetOr(0) }

    /** The estimate is the number of words of the content. */
    predicate WellFormed() { tokenEstimate == Some(EstimateTokens(content)) }

    predicate IsRetrieval() { kind == Memory || kind == RetrievedKnowledge }

    /** Kinds that no line of the token breakdown adds up. */
    predicate Uncounted() { kind == ToolTrace || kind == SkillInstruction }
  }

  datatype TokenBreakdown = TokenBreakdown(
    total: nat, stableDocs: nat, runtime: nat, summaries: nat, freshTail: nat, retrieval: nat)

  datatype Level = Unchanged | RetrievalTrimmed | Aggressive | Fallback | HardEnforced

  datatype BudgetedBlocks = BudgetedBlocks(blocks: seq<Block>, omittedRefs: seq<string>, level: Level)

  function TokenSum(blocks: seq<Block>, p: Block -> bool): nat
  {
    if blocks == [] then 0 else (if p(blocks[0]) then blocks[0].Estimate() else 0) + TokenSum(blocks[1..], p)
  }

  function Breakdown(blocks: seq<Block>): TokenBreakdown
  {
    var stableDocs := TokenSum(blocks, (b: Block) =>
      b.kind.StableIdentity? || b.kind.Mission? || b.kind.Rule? || b.kind.UserProfile? || b.kind.RuntimeDirective?);
    var runtime := TokenSum(blocks, (b: Block) => b.kind.TaskPlan?);
    var summaries := TokenSum(blocks, (b: Block) => b.kind.Summary? || b.kind.Checkpoint?);
    var freshTail := TokenSum(blocks, (b: Block) => b.kind.RecentEvent?);
    var retrieval := TokenSum(blocks, (b: Block) => b.kind.Memory? || b.kind.RetrievedKnowledge?);
    TokenBreakdown(stableDocs + runtime + summaries + freshTail + retrieval,
                   stableDocs, runtime, summaries, freshTail, retrieval)
  }

  // ---- The stages ----

  function LastLines(content: string, limit: nat): string
  {
    var lines := Lines(content);
    Join(if |lines| <= limit then lines else lines[|lines| - limit..], "\n")
  }

  function WithContent(block: Block, content: string): Block
  {
    block.(content := content, tokenEstimate := Some(EstimateTokens(content)))
  }

  function CompactTo(block: Block, summaryWords: nat, tailLines: nat): Block
  {
    match block.kind
    case Summary => WithContent(block, TruncateForSummary(block.content, summaryWords))
    case RecentEvent => WithContent(block, LastLines(block.content, tailLines))
    case _ => block
  }

  function AggressiveCompact(block: Block): Block
  {
    CompactTo(block, SUMMARY_AGGRESSIVE_WORDS, FRESH_TAIL_AGGRESSIVE_LINES)
  }

  function DeterministicFallback(block: Block): Block
  {
    CompactTo(block, SUMMARY_FALLBACK_WORDS, FRESH_TAIL_FALLBACK_LINES)
  }

  function CutOnce(block: Block): Block
  {
    var words := Words(block.content);
    if |words| <= 6 then block
    else
      var cut := if |words| / 2 > 6 then |words| / 2 else 6;
      WithContent(block, Join(words[..cut], " ") + " ...")
  }

  function Map(blocks: seq<Block>, f: Block -> Block): (r: seq<Block>)
    ensures |r| == |blocks| && forall i :: 0 <= i < |r| ==> r[i] == f(blocks[i])
  {
    if blocks == [] then [] else [f(blocks[0])] + Map(blocks[1..], f)
  }

  function OmissionRefs(block: Block): seq<string>
  {
    [block.id] + match block.source
                 case WorkspaceFile(path) => [path]
                 case EventLog(eventId) => [eventId]
                 case SummaryNode(id) => [id]
                 case MemoryRef(r) => [r]
                 case Knowledge(r) => [r]
                 case ToolCall(id) => [id]
                 case Artifact(id) => [id]
                 case Runtime => []
  }

  /** The index of the largest estimate, the last one among equals. */
  function LastMaxEstimate(blocks: seq<Block>): (m: nat)
    requires blocks != []
    ensures m < |blocks|
    ensures forall i :: 0 <= i < |blocks| ==> blocks[i].Estimate() <= blocks[m].Estimate()
    ensures forall i :: m < i < |blocks| ==> blocks[i].Estimate() < blocks[m].Estimate()
  {
    var n := |blocks| - 1;
    if n == 0 then 0
    else
      var m := LastMaxEstimate(blocks[..n]);
      assert forall i :: 0 <= i < n ==> blocks[..n][i] == blocks[i];
      if blocks[n].Estimate() >= blocks[m].Estimate() then n else m
  }

  /** The index of the lowest priority, the first one among equals. */
  function FirstMinPriority(blocks: seq<Block>): (m: nat)
    requires blocks != []
    ensures m < |blocks|
    ensures forall i :: 0 <= i < |blocks| ==> blocks[m].priority <= blocks[i].priority
    ensures forall i :: 0 <= i < m ==> blocks[m].priority < blocks[i].priority
  {
    var n := |blocks| - 1;
    if n == 0 then 0
    else
      var m := FirstMinPriority(blocks[..n]);
      assert forall i :: 0 <= i < n ==> blocks[..n][i] == blocks[i];
      if blocks[n].priority < blocks[m].priority then n else m
  }

  function Without<T>(s: seq<T>, i: nat): seq<T>
    requires i < |s|
  {
    s[..i] + s[i + 1..]
  }

  // ---- Cutting ----

  /** One cut: nothing up to six words; exactly seven words stay seven; anything longer shrinks. */
  lemma CutOnceEstimate(block: Block)
    ensures var n := EstimateTokens(block.content);
      var c := CutOnce(block);
      && (n <= 6 ==> c == block)
      && (n > 6 ==> c.WellFormed() && 7 <= c.Estimate() <= n && (c.Estimate() == n <==> n == 7))
  {
    var words := Words(block.content);
    if |words| > 6 {
      WordsAreWords(block.content);
      WordsOfCut(words, if |words| / 2 > 6 then |words| / 2 else 6);
    }
  }

  lemma TruncateNeverGrows(content: string, maxWords: nat)
    requires maxWords > 0
    ensures EstimateTokens(TruncateForSummary(content, maxWords)) <= EstimateTokens(content)
    ensures EstimateTokens(TruncateForSummary(content, maxWords)) <= maxWords + 1
  {
    var words := Words(content);
    WordsAreWords(content);
    if |words| <= maxWords {
      WordsOfJoin(words, ' ');
      WordsOfWords(words);
    } else {
      WordsOfCut(words, maxWords);
    }
  }

  lemma LastLinesNeverGrow(content: string, limit: nat)
    ensures EstimateTokens(LastLines(content, limit)) <= EstimateTokens(content)
  {
    var lines := Lines(content);
    LinesKeepWords(content);
    var k := if |lines| <= limit then 0 else |lines| - limit;
    assert lines == lines[..k] + lines[k..];
    WordsOfConcat(lines[..k], lines[k..]);
    WordsOfJoin(lines[k..], '\n');
    assert LastLines(content, limit) == Join(lines[k..], "\n");
  }

  // ---- Which content survives ----

  /** The last lines of the original, at most limit of them, put together again. */
  ghost predicate KeepsLastLines(shown: string, original: string, limit: nat)
  {
    var lines, words := Lines(original), Words(original);
    var kept := if |lines| <= limit then lines else lines[|lines| - limit..];
    && shown == Join(kept, "\n") && Words(shown) == WordsOf(kept)
    && |Words(shown)| <= |words| && Words(shown) == words[|words| - |Words(shown)|..]
  }

  /** What a compaction stage leaves of a block. */
  ghost predicate CompactedFrom(b: Block, a: Block, summaryWords: nat, tailLines: nat)
  {
    && SameIdentity(b, a)
    && (a.kind == Summary ==> KeepsFirstWords(b.content, a.content, summaryWords) && b.WellFormed())
    && (a.kind == RecentEvent ==> KeepsLastLines(b.content, a.content, tailLines) && b.WellFormed())
    && (a.kind != Summary && a.kind != RecentEvent ==> b == a)
  }

  /** What repeated cutting leaves of a block: all of it, or some first words and an ellipsis. */
  ghost predicate CutFrom(b: Block, a: Block)
  {
    && SameIdentity(b, a)
    && (b == a || exists p: nat :: ShowsFirst(b, a, p))
  }

  ghost predicate ShowsFirst(b: Block, a: Block, p: nat)
  {
    var words := Words(a.content);
    6 <= p < |words| && b.content == Join(words[..p], " ") + " ..." && Words(b.content) == words[..p] + ["..."] && b.WellFormed()
  }

  lemma LastLinesKept(content: string, limit: nat)
    ensures KeepsLastLines(LastLines(content, limit), content, limit)
  {
    var lines := Lines(content);
    LinesKeepWords(content);
    var k := if |lines| <= limit then 0 else |lines| - limit;
    assert lines == lines[..k] + lines[k..];
    WordsOfConcat(lines[..k], lines[k..]);
    WordsOfJoin(lines[k..], '\n');
    assert k == 0 ==> lines[k..] == lines;
    assert Words(content) == WordsOf(lines[..k]) + WordsOf(lines[k..]);
  }

  lemma CompactionKeeps(block: Block, summaryWords: nat, tailLines: nat)
    requires summaryWords > 0
    ensures CompactedFrom(CompactTo(block, summaryWords, tailLines), block, summaryWords, tailLines)
  {
    hide KeepsLastLines, KeepsFirstWords, LastLines, TruncateForSummary;
    LastLinesKept(block.content, tailLines);
    FirstWordsKept(block.content, summaryWords);
  }

  /** One cut keeps the first half of the words it finds, and at least six. */
  lemma CutKeepsHalf(block: Block)
    ensures var n := |Words(block.content)|;
      && (n <= 6 ==> CutOnce(block) == block)
      && (n > 6 ==> SameIdentity(CutOnce(block), block) && ShowsFirst(CutOnce(block), block, if n / 2 > 6 then n / 2 else 6))
  {
    var words := Words(block.content);
    if |words| > 6 {
      WordsAreWords(block.content);
      WordsOfCut(words, if |words| / 2 > 6 then |words| / 2 else 6);
    }
  }

  /** Cutting what was cut before is cutting the original shorter. */
  lemma CutAgain(b: Block, a: Block)
    requires CutFrom(b, a)
    ensures CutFrom(CutOnce(b), a)
  {
    hide CutOnce, Words, Join;
    CutKeepsHalf(b);
    var n := |Words(b.content)|;
    if n > 6 && b != a {
      var p: nat :| ShowsFirst(b, a, p);
      var q := if n / 2 > 6 then n / 2 else 6;
      assert Words(b.content)[..q] == Words(a.content)[..q];
      assert ShowsFirst(CutOnce(b), a, q);
    } else if n > 6 {
      assert ShowsFirst(CutOnce(b), a, if n / 2 > 6 then n / 2 else 6);
    }
  }

  /** The summary that enters the last stage holds the first ten words of the original one. */
  lemma SummaryThroughBothStages(c: string, b: string, a: string)
    requires KeepsFirstWords(b, a, SUMMARY_AGGRESSIVE_WORDS) && KeepsFirstWords(c, b, SUMMARY_FALLBACK_WORDS)
    ensures KeepsFirstWords(c, a, SUMMARY_FALLBACK_WORDS)
  {
    hide Words, Join;
    var words := Words(a);
    if |words| > SUMMARY_AGGRESSIVE_WORDS {
      assert Words(b)[..SUMMARY_FALLBACK_WORDS] == words[..SUMMARY_FALLBACK_WORDS];
    }
  }

  /** The fresh tail that enters the last stage holds a suffix of the original words, and the last
      three lines themselves provided the last six survive being split again. */
  lemma TailThroughBothStages(c: string, b: string, a: string)
    requires KeepsLastLines(b, a, FRESH_TAIL_AGGRESSIVE_LINES) && KeepsLastLines(c, b, FRESH_TAIL_FALLBACK_LINES)
    ensures |Words(c)| <= |Words(a)| && Words(c) == Words(a)[|Words(a)| - |Words(c)|..]
    ensures var lines := Lines(a);
      var lastSix := if |lines| <= FRESH_TAIL_AGGRESSIVE_LINES then lines else lines[|lines| - FRESH_TAIL_AGGRESSIVE_LINES..];
      Resplittable(lastSix) ==> KeepsLastLines(c, a, FRESH_TAIL_FALLBACK_LINES)
  {
    hide KeepsLastLines, Resplittable, Words, Lines;
    SuffixOfSuffix(c, b, a);
    var lines := Lines(a);
    var lastSix := if |lines| <= FRESH_TAIL_AGGRESSIVE_LINES then lines else lines[|lines| - FRESH_TAIL_AGGRESSIVE_LINES..];
    if Resplittable(lastSix) {
      LastLinesOfLast(c, b, a);
    }
  }

  lemma SuffixOfSuffix(c: string, b: string, a: string)
    requires KeepsLastLines(b, a, FRESH_TAIL_AGGRESSIVE_LINES) && KeepsLastLines(c, b, FRESH_TAIL_FALLBACK_LINES)
    ensures |Words(c)| <= |Words(a)| && Words(c) == Words(a)[|Words(a)| - |Words(c)|..]
  {
    hide Words, Lines, Join, WordsOf;
    var whole, part, last := Words(a), Words(b), Words(c);
    assert part[|part| - |last|..] == whole[|whole| - |last|..];
  }

  lemma LastLinesOfLast(c: string, b: string, a: string)
    requires KeepsLastLines(b, a, FRESH_TAIL_AGGRESSIVE_LINES) && KeepsLastLines(c, b, FRESH_TAIL_FALLBACK_LINES)
    requires var lines := Lines(a);
      Resplittable(if |lines| <= FRESH_TAIL_AGGRESSIVE_LINES then lines else lines[|lines| - FRESH_TAIL_AGGRESSIVE_LINES..])
    ensures KeepsLastLines(c, a, FRESH_TAIL_FALLBACK_LINES)
  {
    hide Words, Lines, Join, WordsOf, Resplittable;
    SuffixOfSuffix(c, b, a);
    var lines := Lines(a);
    var lastSix := if |lines| <= FRESH_TAIL_AGGRESSIVE_LINES then lines else lines[|lines| - FRESH_TAIL_AGGRESSIVE_LINES..];
    LinesAreLines(a);
    JoinedLines(lastSix);
    assert Lines(b) == lastSix;
    var shown := if |lines| <= FRESH_TAIL_FALLBACK_LINES then lines else lines[|lines| - FRESH_TAIL_FALLBACK_LINES..];
    assert |lastSix| <= FRESH_TAIL_FALLBACK_LINES ==> lastSix == shown;
    assert |lastSix| > FRESH_TAIL_FALLBACK_LINES ==> lastSix[|lastSix| - FRESH_TAIL_FALLBACK_LINES..] == shown;
  }

  /** A tail of up to six lines that ends with an empty one loses it on the way to the last stage,
      which then shows the three lines before it. */
  lemma EmptyLastLineIsLost(lines: seq<string>)
    requires 3 <= |lines| <= 5
    requires forall i :: 0 <= i < |lines| ==> IsLine(lines[i]) && (lines[i] == "" || lines[i][|lines[i]| - 1] != '\r')
    ensures var original := Broken(lines + [""]);
      && Lines(original) == lines + [""]
      && LastLines(LastLines(original, 6), 3) == Join(lines[|lines| - 3..], "\n")
  {
    hide Lines, Join, Broken;
    var more := lines + [""];
    assert IsLine("");
    BrokenLines(more);
    BrokenLines(lines);
    JoinedBroken(lines);
  }

  /** Lines, each with its break. */
  function Broken(lines: seq<string>): string
  {
    if lines == [] then "" else lines[0] + "\n" + Broken(lines[1..])
  }

  lemma {:induction false} BrokenLines(lines: seq<string>)
    requires forall i :: 0 <= i < |lines| ==> IsLine(lines[i]) && (lines[i] == "" || lines[i][|lines[i]| - 1] != '\r')
    ensures Lines(Broken(lines)) == lines
  {
    hide Lines;
    if lines == [] {
      LinesMeaning("", "");
    } else {
      BrokenLines(lines[1..]);
      LinesMeaning(lines[0], Broken(lines[1..]));
    }
  }

  lemma {:induction false} JoinedBroken(lines: seq<string>)
    requires lines != []
    ensures Join(lines + [""], "\n") == Broken(lines)
  {
    var more := lines + [""];
    if |lines| == 1 {
      assert more[1..] == [""] && Broken(lines[1..]) == "";
    } else {
      assert more[1..] == lines[1..] + [""];
      JoinedBroken(lines[1..]);
    }
  }

  // ---- Totals ----

  /** What the token breakdown adds up: every block but those of the two uncounted kinds. */
  function Total(blocks: seq<Block>): nat
  {
    if blocks == [] then 0
    else (if blocks[0].Uncounted() then 0 else blocks[0].Estimate()) + Total(blocks[1..])
  }

  function SumOfEstimates(blocks: seq<Block>): nat
  {
    if blocks == [] then 0 else blocks[0].Estimate() + SumOfEstimates(blocks[1..])
  }

  function IllFormed(blocks: seq<Block>): nat
  {
    if blocks == [] then 0 else (if blocks[0].WellFormed() then 0 else 1) + IllFormed(blocks[1..])
  }

  lemma {:induction false} BreakdownTotal(blocks: seq<Block>)
    ensures Breakdown(blocks).total == Total(blocks)
  {
    if blocks != [] {
      BreakdownTotal(blocks[1..]);
    }
  }

  /** Every block is counted under one heading, or under none if its kind is one of the two. */
  lemma BreakdownStep(block: Block, rest: seq<Block>)
    ensures var (b, r, n) := (Breakdown([block] + rest), Breakdown(rest), block.Estimate());
      match block.kind
      case TaskPlan => b == r.(total := r.total + n, runtime := r.runtime + n)
      case RecentEvent => b == r.(total := r.total + n, freshTail := r.freshTail + n)
      case Summary => b == r.(total := r.total + n, summaries := r.summaries + n)
      case Checkpoint => b == r.(total := r.total + n, summaries := r.summaries + n)
      case Memory => b == r.(total := r.total + n, retrieval := r.retrieval + n)
      case RetrievedKnowledge => b == r.(total := r.total + n, retrieval := r.retrieval + n)
      case ToolTrace => b == r
      case SkillInstruction => b == r
      case _ => b == r.(total := r.total + n, stableDocs := r.stableDocs + n)
    ensures Breakdown([]) == TokenBreakdown(0, 0, 0, 0, 0, 0)
  {
    assert ([block] + rest)[1..] == rest;
  }

  lemma {:induction false} MeasuresOfUpdate(blocks: seq<Block>, i: nat, b: Block)
    requires i < |blocks|
    ensures SumOfEstimates(blocks[i := b]) == SumOfEstimates(blocks) - blocks[i].Estimate() + b.Estimate()
    ensures IllFormed(blocks[i := b]) ==
      IllFormed(blocks) - (if blocks[i].WellFormed() then 0 else 1) + (if b.WellFormed() then 0 else 1)
    ensures b.kind == blocks[i].kind ==>
      Total(blocks[i := b]) + (if b.Uncounted() then 0 else blocks[i].Estimate())
      == Total(blocks) + (if b.Uncounted() then 0 else b.Estimate())
  {
    if i == 0 {
      assert blocks[i := b][1..] == blocks[1..];
    } else {
      assert blocks[i := b][1..] == blocks[1..][i - 1 := b];
      MeasuresOfUpdate(blocks[1..], i - 1, b);
    }
  }

  lemma {:induction false} MeasuresOfWithout(blocks: seq<Block>, i: nat)
    requires i < |blocks|
    ensures SumOfEstimates(Without(blocks, i)) == SumOfEstimates(blocks) - blocks[i].Estimate()
    ensures IllFormed(Without(blocks, i)) <= IllFormed(blocks)
    ensures Total(Without(blocks, i)) <= Total(blocks)
  {
    if i == 0 {
      assert Without(blocks, i) == blocks[1..];
    } else {
      assert Without(blocks, i)[1..] == Without(blocks[1..], i - 1);
      MeasuresOfWithout(blocks[1..], i - 1);
    }
  }

  // ---- The last stage ----

  /** A cut that changes the estimate makes progress: it either repairs a block whose estimate was
      wrong, or shortens a block. */
  lemma CutProgress(blocks: seq<Block>, t: nat)
    requires t < |blocks| && CutOnce(blocks[t]).tokenEstimate != blocks[t].tokenEstimate
    ensures var after := blocks[t := CutOnce(blocks[t])];
      || IllFormed(after) < IllFormed(blocks)
      || (IllFormed(after) == IllFormed(blocks) && SumOfEstimates(after) < SumOfEstimates(blocks))
  {
    CutOnceEstimate(blocks[t]);
    MeasuresOfUpdate(blocks, t, CutOnce(blocks[t]));
  }

  /** One round: cut the largest block or, where cutting would not change its estimate, drop the
      block of lowest priority. The second component lists what was dropped. */
  function TrimStep(blocks: seq<Block>): (seq<Block>, seq<Block>)
    requires blocks != []
  {
    var t := LastMaxEstimate(blocks);
    var cut := CutOnce(blocks[t]);
    if cut.tokenEstimate == blocks[t].tokenEstimate then
      var d := FirstMinPriority(blocks);
      (Without(blocks, d), [blocks[d]])
    else
      (blocks[t := cut], [])
  }

  /** What one round does: if halving the largest block, the last one among equals, changes its
      estimate, it is halved; otherwise the block of lowest priority, the first one among equals, goes. */
  ghost predicate IsRound(blocks: seq<Block>, next: seq<Block>, gone: seq<Block>)
  {
    exists t: nat, d: nat :: IsLargest(blocks, t) && IsLowest(blocks, d) && RoundAt(blocks, next, gone, t, d)
  }

  ghost predicate IsLargest(blocks: seq<Block>, t: nat)
  {
    && t < |blocks|
    && forall i :: 0 <= i < |blocks| ==>
         blocks[i].Estimate() < blocks[t].Estimate() || (blocks[i].Estimate() == blocks[t].Estimate() && i <= t)
  }

  ghost predicate IsLowest(blocks: seq<Block>, d: nat)
  {
    d < |blocks| && forall i: nat :: i < |blocks| && i != d ==> GoesBefore(blocks, d, i)
  }

  ghost predicate RoundAt(blocks: seq<Block>, next: seq<Block>, gone: seq<Block>, t: nat, d: nat)
    requires t < |blocks| && d < |blocks|
  {
    var n := |Words(blocks[t].content)|;
    var half := if n / 2 > 6 then n / 2 else 6;
    if n > 6 && blocks[t].tokenEstimate != Some(half + 1) then
      && gone == [] && |next| == |blocks| && (forall i :: 0 <= i < |blocks| && i != t ==> next[i] == blocks[i])
      && SameIdentity(next[t], blocks[t]) && ShowsFirst(next[t], blocks[t], half)
    else
      gone == [blocks[d]] && next == blocks[..d] + blocks[d + 1..]
  }

  lemma TrimStepIsRound(blocks: seq<Block>)
    requires blocks != []
    ensures IsRound(blocks, TrimStep(blocks).0, TrimStep(blocks).1)
  {
    hide CutOnce, Words, LastMaxEstimate, FirstMinPriority;
    var t, d := LastMaxEstimate(blocks), FirstMinPriority(blocks);
    CutKeepsHalf(blocks[t]);
    assert IsLargest(blocks, t) && IsLowest(blocks, d);
    assert RoundAt(blocks, TrimStep(blocks).0, TrimStep(blocks).1, t, d);
  }

  /** Every round makes progress, lexicographically. */
  lemma TrimStepProgress(blocks: seq<Block>)
    requires blocks != []
    ensures var next := TrimStep(blocks).0;
      || |next| < |blocks|
      || (|next| == |blocks| &&
           (|| IllFormed(next) < IllFormed(blocks)
            || (IllFormed(next) == IllFormed(blocks) && SumOfEstimates(next) < SumOfEstimates(blocks))))
  {
    var t := LastMaxEstimate(blocks);
    if CutOnce(blocks[t]).tokenEstimate != blocks[t].tokenEstimate {
      CutProgress(blocks, t);
    }
  }

  /** On well-formed blocks a single number suffices: the estimates and the block count together
      fall every round, the total never rises, and the blocks stay well-formed. */
  lemma TrimStepShrinks(blocks: seq<Block>)
    requires blocks != [] && forall b :: b in blocks ==> b.WellFormed()
    ensures var next := TrimStep(blocks).0;
      && SumOfEstimates(next) + |next| < SumOfEstimates(blocks) + |blocks|
      && Total(next) <= Total(blocks)
      && forall b :: b in next ==> b.WellFormed()
  {
    var t := LastMaxEstimate(blocks);
    CutOnceEstimate(blocks[t]);
    MeasuresOfUpdate(blocks, t, CutOnce(blocks[t]));
    MeasuresOfWithout(blocks, FirstMinPriority(blocks));
  }

  /** Rounds until the total fits: what is kept, and what was dropped in dropping order. */
  function HardTrim(blocks: seq<Block>, budget: nat): (seq<Block>, seq<Block>)
    decreases |blocks|, IllFormed(blocks), SumOfEstimates(blocks)
  {
    if Total(blocks) <= budget then (blocks, [])
    else
      TrimStepProgress(blocks);
      var (next, gone) := TrimStep(blocks);
      var (kept, dropped) := HardTrim(next, budget);
      (kept, gone + dropped)
  }

  lemma HardTrimRound(blocks: seq<Block>, budget: nat)
    ensures Total(blocks) <= budget ==> HardTrim(blocks, budget) == (blocks, [])
    ensures Total(blocks) > budget ==>
      && blocks != []
      && HardTrim(blocks, budget).0 == HardTrim(TrimStep(blocks).0, budget).0
      && HardTrim(blocks, budget).1 == TrimStep(blocks).1 + HardTrim(TrimStep(blocks).0, budget).1
  {
    hide TrimStep;
    if Total(blocks) > budget {
      TrimStepProgress(blocks);
    }
  }

  /** Trimming ends within the budget, whatever the blocks and their estimates. */
  lemma {:induction false} HardTrimFits(blocks: seq<Block>, budget: nat)
    ensures Total(HardTrim(blocks, budget).0) <= budget
    decreases |blocks|, IllFormed(blocks), SumOfEstimates(blocks)
  {
    if Total(blocks) > budget {
      TrimStepProgress(blocks);
      HardTrimFits(TrimStep(blocks).0, budget);
    }
  }

  // ---- The whole of it ----

  function NonRetrieval(blocks: seq<Block>): seq<Block>
  {
    if blocks == [] then []
    else (if blocks[0].IsRetrieval() then [] else [blocks[0]]) + NonRetrieval(blocks[1..])
  }

  function RetrievalIds(blocks: seq<Block>): seq<string>
  {
    if blocks == [] then []
    else (if blocks[0].IsRetrieval() then [blocks[0].id] else []) + RetrievalIds(blocks[1..])
  }

  function RefsOf(blocks: seq<Block>): seq<string>
  {
    if blocks == [] then [] else OmissionRefs(blocks[0]) + RefsOf(blocks[1..])
  }

  /** The blocks that enter the last stage. */
  function FullyCompacted(blocks: seq<Block>): seq<Block>
  {
    Map(Map(NonRetrieval(blocks), AggressiveCompact), DeterministicFallback)
  }

  function Enforced(blocks: seq<Block>, budget: nat): BudgetedBlocks
  {
    var others := NonRetrieval(blocks);
    var aggressive := Map(others, AggressiveCompact);
    var compacted := FullyCompacted(blocks);
    if Total(blocks) <= budget then BudgetedBlocks(blocks, [], Unchanged)
    else if Total(others) <= budget then BudgetedBlocks(others, RetrievalIds(blocks), RetrievalTrimmed)
    else if Total(aggressive) <= budget then BudgetedBlocks(aggressive, RetrievalIds(blocks), Aggressive)
    else
      var (kept, dropped) := HardTrim(compacted, budget);
      BudgetedBlocks(kept, RetrievalIds(blocks) + RefsOf(dropped),
                     if Total(compacted) <= budget then Fallback else HardEnforced)
  }

  predicate IsRetrieved(block: Block)
  {
    block.kind == Memory || block.kind == RetrievedKnowledge
  }

  /** Where, in increasing order, the blocks stand that are retrieval results, or those that are not. */
  function Positions(blocks: seq<Block>, retrieved: bool): seq<nat>
  {
    if blocks == [] then []
    else
      var n := |blocks| - 1;
      Positions(blocks[..n], retrieved) + if IsRetrieved(blocks[n]) == retrieved then [n] else []
  }

  lemma {:induction false} PositionsMeaning(blocks: seq<Block>, retrieved: bool)
    ensures Increasing(Positions(blocks, retrieved), |blocks|)
    ensures forall k: nat :: k in Positions(blocks, retrieved) <==> k < |blocks| && IsRetrieved(blocks[k]) == retrieved
  {
    if blocks != [] {
      var n := |blocks| - 1;
      PositionsMeaning(blocks[..n], retrieved);
      assert forall k: nat :: k < n ==> blocks[..n][k] == blocks[k];
    }
  }

  ghost predicate Increasing(positions: seq<nat>, bound: nat)
  {
    && (forall i :: 0 <= i < |positions| ==> positions[i] < bound)
    && forall i, j :: 0 <= i < j < |positions| ==> positions[i] < positions[j]
  }

  ghost predicate PicksOut(blocks: seq<Block>, positions: seq<nat>, picked: seq<Block>)
  {
    && |picked| == |positions|
    && forall i :: 0 <= i < |picked| ==> positions[i] < |blocks| && picked[i] == blocks[positions[i]]
  }

  ghost predicate PicksIds(blocks: seq<Block>, positions: seq<nat>, picked: seq<string>)
  {
    && |picked| == |positions|
    && forall i :: 0 <= i < |picked| ==> positions[i] < |blocks| && picked[i] == blocks[positions[i]].id
  }

  /** Dropping retrieval results keeps the other blocks in order, and lists the ids of those dropped. */
  lemma {:induction false} RetrievalSplit(blocks: seq<Block>)
    ensures PicksOut(blocks, Positions(blocks, false), NonRetrieval(blocks))
    ensures PicksIds(blocks, Positions(blocks, true), RetrievalIds(blocks))
  {
    if blocks != [] {
      hide NonRetrieval, RetrievalIds, PicksOut, PicksIds;
      var n := |blocks| - 1;
      RetrievalSplit(blocks[..n]);
      assert blocks == blocks[..n] + [blocks[n]];
      RetrievalSplitStep(blocks[..n], blocks[n]);
      PicksFromMore(blocks, Positions(blocks[..n], false), NonRetrieval(blocks[..n]));
      PicksIdsFromMore(blocks, Positions(blocks[..n], true), RetrievalIds(blocks[..n]));
    } else {
      NothingPicked();
    }
  }

  lemma NothingPicked()
    ensures PicksOut([], [], []) && PicksIds([], [], [])
  {
  }

  lemma PicksFromMore(blocks: seq<Block>, positions: seq<nat>, picked: seq<Block>)
    requires blocks != [] && PicksOut(blocks[..|blocks| - 1], positions, picked)
    ensures PicksOut(blocks, positions, picked)
    ensures PicksOut(blocks, positions + [|blocks| - 1], picked + [blocks[|blocks| - 1]])
  {
  }

  lemma PicksIdsFromMore(blocks: seq<Block>, positions: seq<nat>, picked: seq<string>)
    requires blocks != [] && PicksIds(blocks[..|blocks| - 1], positions, picked)
    ensures PicksIds(blocks, positions, picked)
    ensures PicksIds(blocks, positions + [|blocks| - 1], picked + [blocks[|blocks| - 1].id])
  {
  }

  lemma {:induction false} RetrievalSplitStep(blocks: seq<Block>, last: Block)
    ensures NonRetrieval(blocks + [last]) == NonRetrieval(blocks) + if IsRetrieved(last) then [] else [last]
    ensures RetrievalIds(blocks + [last]) == RetrievalIds(blocks) + if IsRetrieved(last) then [last.id] else []
  {
    if blocks == [] {
      assert [] + [last] == [last] && [last][1..] == [];
    } else {
      assert (blocks + [last])[1..] == blocks[1..] + [last];
      RetrievalSplitStep(blocks[1..], last);
    }
  }

  /** What a block came from, as far as it has a name. */
  predicate NamesSource(ref: string, source: Source)
  {
    || source == WorkspaceFile(ref) || source == EventLog(ref) || source == SummaryNode(ref) || source == MemoryRef(ref)
    || source == Knowledge(ref) || source == ToolCall(ref) || source == Artifact(ref)
  }

  /** The references to dropped blocks are their ids and what they came from, nothing else. */
  lemma {:induction false} RefsExactlyWhen(blocks: seq<Block>, ref: string)
    ensures ref in RefsOf(blocks) <==>
      exists i :: 0 <= i < |blocks| && (ref == blocks[i].id || NamesSource(ref, blocks[i].source))
  {
    if blocks != [] {
      RefsExactlyWhen(blocks[1..], ref);
      assert ref in OmissionRefs(blocks[0]) <==> ref == blocks[0].id || NamesSource(ref, blocks[0].source);
      assert blocks == [blocks[0]] + blocks[1..];
      if i :| 0 <= i < |blocks| && (ref == blocks[i].id || NamesSource(ref, blocks[i].source)) {
        if i > 0 { assert blocks[1..][i - 1] == blocks[i]; }
      }
      if i :| 0 <= i < |blocks[1..]| && (ref == blocks[1..][i].id || NamesSource(ref, blocks[1..][i].source)) {
        assert blocks[i + 1] == blocks[1..][i];
      }
    }
  }

  /** What the engine promises: the total stays within the budget. No assumption on
      the blocks: wrong estimates, empty contents and retrieval results are all covered. */
  lemma BudgetRespected(blocks: seq<Block>, budget: nat)
    ensures Breakdown(Enforced(blocks, budget).blocks).total <= budget
  {
    BreakdownTotal(Enforced(blocks, budget).blocks);
    HardTrimFits(FullyCompacted(blocks), budget);
  }

  lemma {:induction false} RefsOfConcat(a: seq<Block>, b: seq<Block>)
    ensures RefsOf(a + b) == RefsOf(a) + RefsOf(b)
  {
    if a == [] {
      assert a + b == b;
    } else {
      assert (a + b)[1..] == a[1..] + b;
      RefsOfConcat(a[1..], b);
    }
  }

  lemma RefsOfNothing(refs: seq<string>)
    ensures refs + RefsOf([]) == refs
  {
  }

  function TotalTokens(blocks: seq<Block>): (t: nat)
    ensures t == Total(blocks)
  {
    BreakdownTotal(blocks);
    Breakdown(blocks).total
  }

  method EnforceBudget(input: seq<Block>, budget: nat) returns (r: BudgetedBlocks)
    ensures r == Enforced(input, budget)
  {
    if TotalTokens(input) <= budget {
      return BudgetedBlocks(input, [], Unchanged);
    }
    var blocks, omittedRefs := DropRetrieval(input);
    if TotalTokens(blocks) <= budget {
      return BudgetedBlocks(blocks, omittedRefs, RetrievalTrimmed);
    }
    blocks := Map(blocks, AggressiveCompact);
    if TotalTokens(blocks) <= budget {
      return BudgetedBlocks(blocks, omittedRefs, Aggressive);
    }
    blocks := Map(blocks, DeterministicFallback);
    var hardTrimmed: bool;
    blocks, omittedRefs, hardTrimmed := TrimHard(blocks, omittedRefs, budget);
    r := BudgetedBlocks(blocks, omittedRefs, if hardTrimmed then HardEnforced else Fallback);
  }

  method DropRetrieval(blocks: seq<Block>) returns (retained: seq<Block>, omittedRefs: seq<string>)
    ensures retained == NonRetrieval(blocks) && omittedRefs == RetrievalIds(blocks)
    ensures PicksOut(blocks, Positions(blocks, false), retained) && PicksIds(blocks, Positions(blocks, true), omittedRefs)
  {
    hide NonRetrieval, RetrievalIds, PicksOut, PicksIds, Positions;
    retained, omittedRefs := [], [];
    assert blocks[0..] == blocks;
    for i := 0 to |blocks|
      invariant retained + NonRetrieval(blocks[i..]) == NonRetrieval(blocks)
      invariant omittedRefs + RetrievalIds(blocks[i..]) == RetrievalIds(blocks)
    {
      NextBlock(blocks, i);
      if blocks[i].kind == Memory || blocks[i].kind == RetrievedKnowledge {
        omittedRefs := omittedRefs + [blocks[i].id];
      } else {
        retained := retained + [blocks[i]];
      }
    }
    assert blocks[|blocks|..] == [];
    NoBlocks();
    RetrievalSplit(blocks);
  }

  lemma NextBlock(blocks: seq<Block>, i: nat)
    requires i < |blocks|
    ensures NonRetrieval(blocks[i..]) == (if IsRetrieved(blocks[i]) then [] else [blocks[i]]) + NonRetrieval(blocks[i + 1..])
    ensures RetrievalIds(blocks[i..]) == (if IsRetrieved(blocks[i]) then [blocks[i].id] else []) + RetrievalIds(blocks[i + 1..])
  {
    assert blocks[i..][1..] == blocks[i + 1..];
  }

  lemma NoBlocks()
    ensures NonRetrieval([]) == [] && RetrievalIds([]) == []
  {
  }

  method TrimOnce(blocks: seq<Block>) returns (next: seq<Block>, omittedRefs: seq<string>)
    requires blocks != []
    ensures next == TrimStep(blocks).0 && omittedRefs == RefsOf(TrimStep(blocks).1)
    ensures IsRound(blocks, TrimStep(blocks).0, TrimStep(blocks).1)
  {
    TrimStepIsRound(blocks);
    var target := LastMaxEstimate(blocks);
    var compacted := CutOnce(blocks[target]);
    if compacted.tokenEstimate == blocks[target].tokenEstimate {
      var d := FirstMinPriority(blocks);
      assert RefsOf([blocks[d]]) == OmissionRefs(blocks[d]) + RefsOf([]);
      return Without(blocks, d), OmissionRefs(blocks[d]);
    }
    return blocks[target := compacted], [];
  }

  method TrimHard(input: seq<Block>, refs: seq<string>, budget: nat)
    returns (blocks: seq<Block>, omittedRefs: seq<string>, hardTrimmed: bool)
    ensures blocks == HardTrim(input, budget).0 && omittedRefs == refs + RefsOf(HardTrim(input, budget).1)
    ensures hardTrimmed <==> Total(input) > budget
  {
    hide *;
    blocks, omittedRefs, hardTrimmed := input, refs, false;
    ghost var dropped: seq<Block> := [];
    RefsOfNothing(refs);
    while TotalTokens(blocks) > budget
      invariant HardTrim(blocks, budget).0 == HardTrim(input, budget).0
      invariant dropped + HardTrim(blocks, budget).1 == HardTrim(input, budget).1
      invariant omittedRefs == refs + RefsOf(dropped)
      invariant if hardTrimmed then Total(input) > budget else blocks == input
      decreases |blocks|, IllFormed(blocks), SumOfEstimates(blocks)
    {
      HardTrimRound(blocks, budget);
      TrimStepProgress(blocks);
      RefsOfConcat(dropped, TrimStep(blocks).1);
      dropped := dropped + TrimStep(blocks).1;
      var next, more := TrimOnce(blocks);
      blocks, omittedRefs, hardTrimmed := next, omittedRefs + more, true;
    }
    // The total fits here, so the clean-up that would drop further blocks has nothing to do.
    HardTrimRound(blocks, budget);
    assert dropped + [] == dropped;
  }

  // ---- Who stays and who goes ----

  /** Compaction rewrites contents and estimates; this is what it never touches. */
  predicate SameIdentity(a: Block, b: Block)
  {
    a.id == b.id && a.kind == b.kind && a.source == b.source && a.priority == b.priority
  }

  /** The stable order by priority: i goes before j. */
  predicate GoesBefore(blocks: seq<Block>, i: nat, j: nat)
    requires i < |blocks| && j < |blocks|
  {
    blocks[i].priority < blocks[j].priority || (blocks[i].priority == blocks[j].priority && i < j)
  }

  /** positions lists, in increasing order, where the given blocks stood in the original. */
  ghost predicate StandAt(blocks: seq<Block>, positions: seq<nat>, original: seq<Block>)
  {
    && |positions| == |blocks|
    && (forall i :: 0 <= i < |positions| ==> positions[i] < |original| && SameIdentity(blocks[i], original[positions[i]]))
    && forall i, j :: 0 <= i < j < |positions| ==> positions[i] < positions[j]
  }

  /** dropped is the beginning of the stable sort by priority of kept and dropped together. */
  ghost predicate LowestFirst(original: seq<Block>, kept: seq<nat>, dropped: seq<nat>)
  {
    && (forall i :: 0 <= i < |kept| ==> kept[i] < |original|)
    && (forall i :: 0 <= i < |dropped| ==> dropped[i] < |original|)
    && (forall i, j :: 0 <= i < j < |dropped| ==> GoesBefore(original, dropped[i], dropped[j]))
    && forall i, j :: 0 <= i < |dropped| && 0 <= j < |kept| ==> GoesBefore(original, dropped[i], kept[j])
  }

  ghost predicate CameFrom(blocks: seq<Block>, positions: seq<nat>, original: seq<Block>)
  {
    && |positions| == |blocks|
    && forall i :: 0 <= i < |positions| ==> positions[i] < |original| && SameIdentity(blocks[i], original[positions[i]])
  }

  /** The blocks that trimming keeps are an order-preserving selection, what it drops are the
      lowest priorities in stable order, and nothing is lost or invented. */
  lemma {:induction false} HardTrimTracks(blocks: seq<Block>, positions: seq<nat>, original: seq<Block>, budget: nat,
                                          entered: seq<Block>)
    returns (kept: seq<nat>, dropped: seq<nat>)
    requires StandAt(blocks, positions, original) && AllCutFrom(blocks, positions, entered)
    ensures StandAt(HardTrim(blocks, budget).0, kept, original)
    ensures AllCutFrom(HardTrim(blocks, budget).0, kept, entered)
    ensures CameFrom(HardTrim(blocks, budget).1, dropped, original)
    ensures LowestFirst(original, kept, dropped)
    ensures forall p :: p in positions <==> p in kept || p in dropped
    decreases |blocks|, IllFormed(blocks), SumOfEstimates(blocks)
  {
    hide TrimStep, CutFrom, StandAt, AllCutFrom, CameFrom, LowestFirst, HardTrim, Total;
    kept, dropped := positions, [];
    HardTrimRound(blocks, budget);
    SameLength(blocks, positions, original);
    NothingDropped(original, positions);
    if Total(blocks) > budget {
      TrimStepProgress(blocks);
      var next, gone := TrimStepTracks(blocks, positions, original, entered);
      kept, dropped := HardTrimTracks(TrimStep(blocks).0, next, original, budget, entered);
      CameFromConcat(TrimStep(blocks).1, HardTrim(TrimStep(blocks).0, budget).1, gone, dropped, original);
      if |gone| == 1 {
        PositionsKnown(TrimStep(blocks).1, gone, original);
        LowestFirstCons(original, kept, gone, dropped);
      } else {
        assert gone + dropped == dropped;
      }
      dropped := gone + dropped;
    }
  }

  lemma CameFromConcat(a: seq<Block>, b: seq<Block>, p: seq<nat>, q: seq<nat>, original: seq<Block>)
    requires CameFrom(a, p, original) && CameFrom(b, q, original)
    ensures CameFrom(a + b, p + q, original)
  {
  }

  lemma PositionsKnown(blocks: seq<Block>, positions: seq<nat>, original: seq<Block>)
    requires CameFrom(blocks, positions, original)
    ensures forall i :: 0 <= i < |positions| ==> positions[i] < |original|
  {
  }

  /** The blocks are what cutting has left of those at their positions. */
  ghost predicate AllCutFrom(blocks: seq<Block>, positions: seq<nat>, entered: seq<Block>)
  {
    && |positions| == |blocks|
    && forall i :: 0 <= i < |blocks| ==> positions[i] < |entered| && CutFrom(blocks[i], entered[positions[i]])
  }

  lemma CutsWithout(blocks: seq<Block>, positions: seq<nat>, entered: seq<Block>, d: nat)
    requires AllCutFrom(blocks, positions, entered) && d < |blocks|
    ensures AllCutFrom(Without(blocks, d), Without(positions, d), entered)
  {
    hide CutFrom;
  }

  lemma CutsUpdated(blocks: seq<Block>, positions: seq<nat>, entered: seq<Block>, t: nat)
    requires AllCutFrom(blocks, positions, entered) && t < |blocks|
    ensures AllCutFrom(blocks[t := CutOnce(blocks[t])], positions, entered)
  {
    CutAgain(blocks[t], entered[positions[t]]);
    hide CutFrom, CutOnce;
  }

  lemma TrimStepTracks(blocks: seq<Block>, positions: seq<nat>, original: seq<Block>, entered: seq<Block>)
    returns (next: seq<nat>, gone: seq<nat>)
    requires blocks != [] && StandAt(blocks, positions, original) && AllCutFrom(blocks, positions, entered)
    ensures StandAt(TrimStep(blocks).0, next, original) && AllCutFrom(TrimStep(blocks).0, next, entered)
    ensures CameFrom(TrimStep(blocks).1, gone, original) && |gone| <= 1
    ensures forall p :: p in positions <==> p in next || p in gone
    ensures |gone| == 1 ==> forall p :: p in next ==> p < |original| && GoesBefore(original, gone[0], p)
  {
    var t := LastMaxEstimate(blocks);
    var cut := CutOnce(blocks[t]);
    if cut.tokenEstimate == blocks[t].tokenEstimate {
      var d := FirstMinPriority(blocks);
      next, gone := Without(positions, d), [positions[d]];
      MinGoesFirst(blocks, positions, original, d);
      StandAtWithout(blocks, positions, original, d);
      CutsWithout(blocks, positions, entered, d);
    } else {
      next, gone := positions, [];
      StandAtUpdate(blocks, positions, original, t, cut);
      CutsUpdated(blocks, positions, entered, t);
    }
  }

  lemma StandAtWithout(blocks: seq<Block>, positions: seq<nat>, original: seq<Block>, d: nat)
    requires StandAt(blocks, positions, original) && d < |blocks|
    ensures StandAt(Without(blocks, d), Without(positions, d), original)
  {
  }

  lemma StandAtUpdate(blocks: seq<Block>, positions: seq<nat>, original: seq<Block>, t: nat, b: Block)
    requires StandAt(blocks, positions, original) && t < |blocks| && SameIdentity(b, blocks[t])
    ensures StandAt(blocks[t := b], positions, original)
  {
  }

  lemma LowestFirstCons(original: seq<Block>, kept: seq<nat>, gone: seq<nat>, dropped: seq<nat>)
    requires LowestFirst(original, kept, dropped)
    requires |gone| == 1 && gone[0] < |original|
    requires forall p :: p in kept || p in dropped ==> p < |original| && GoesBefore(original, gone[0], p)
    ensures LowestFirst(original, kept, gone + dropped)
  {
  }

  lemma MinGoesFirst(blocks: seq<Block>, positions: seq<nat>, original: seq<Block>, d: nat)
    requires StandAt(blocks, positions, original) && blocks != [] && d == FirstMinPriority(blocks)
    ensures positions[d] < |original|
    ensures forall p :: p in Without(positions, d) ==> p < |original| && GoesBefore(original, positions[d], p)
    ensures forall p :: p in positions <==> p == positions[d] || p in Without(positions, d)
  {
    hide FirstMinPriority;
    var rest := Without(positions, d);
    forall p | p in rest ensures p in positions && p < |original| && GoesBefore(original, positions[d], p) {
      var i :| 0 <= i < |rest| && rest[i] == p;
      assert p == positions[if i < d then i else i + 1];
    }
    forall p | p in positions ensures p == positions[d] || p in rest {
      var i :| 0 <= i < |positions| && positions[i] == p;
      if i < d { assert rest[i] == p; } else if i > d { assert rest[i - 1] == p; }
    }
  }

  function DroppedBlocks(blocks: seq<Block>, budget: nat): seq<Block>
  {
    if Enforced(blocks, budget).level.HardEnforced? then HardTrim(FullyCompacted(blocks), budget).1 else []
  }

  function UpTo(n: nat): (r: seq<nat>)
    ensures |r| == n && forall i :: 0 <= i < n ==> r[i] == i
    ensures forall i: nat :: i in r <==> i < n
  {
    if n == 0 then [] else UpTo(n - 1) + [n - 1]
  }

  /** What both compaction stages together leave of a block. */
  ghost predicate FallbackFrom(b: Block, a: Block)
  {
    && SameIdentity(b, a)
    && (a.kind == Summary ==> KeepsFirstWords(b.content, a.content, SUMMARY_FALLBACK_WORDS) && b.WellFormed())
    && (a.kind == RecentEvent ==> TailFrom(b.content, a.content) && b.WellFormed())
    && (a.kind != Summary && a.kind != RecentEvent ==> b == a)
  }

  /** The last three lines of the last six; the last three of all if those survive being split again. */
  ghost predicate TailFrom(shown: string, original: string)
  {
    var lines, words := Lines(original), Words(original);
    var lastSix := if |lines| <= 6 then lines else lines[|lines| - 6..];
    && KeepsLastLines(shown, Join(lastSix, "\n"), 3)
    && |Words(shown)| <= |words| && Words(shown) == words[|words| - |Words(shown)|..]
    && (Resplittable(lastSix) ==> KeepsLastLines(shown, original, 3))
  }

  /** What the result shows of a block that was kept, by the level that was reached. */
  ghost predicate ShownAt(level: Level, b: Block, a: Block)
  {
    match level
    case Unchanged => b == a
    case RetrievalTrimmed => b == a
    case Aggressive => CompactedFrom(b, a, 18, 6)
    case Fallback => FallbackFrom(b, a)
    case HardEnforced => exists entered :: FallbackFrom(entered, a) && CutFrom(b, entered)
  }

  ghost predicate AllCompactedFrom(bs: seq<Block>, blocks: seq<Block>, summaryWords: nat, tailLines: nat)
  {
    |bs| == |blocks| && forall i :: 0 <= i < |bs| ==> CompactedFrom(bs[i], blocks[i], summaryWords, tailLines)
  }

  lemma StagesKeep(blocks: seq<Block>)
    ensures var others := NonRetrieval(blocks);
      && AllCompactedFrom(Map(others, AggressiveCompact), others, 18, 6)
      && AllCompactedFrom(FullyCompacted(blocks), Map(others, AggressiveCompact), 10, 3)
      && |FullyCompacted(blocks)| == |others|
      && forall i :: 0 <= i < |others| ==> FallbackFrom(FullyCompacted(blocks)[i], others[i])
  {
    hide CompactTo, NonRetrieval, Map, CompactedFrom, FallbackFrom;
    var others := NonRetrieval(blocks);
    var aggressive := Map(others, AggressiveCompact);
    var compacted := Map(aggressive, DeterministicFallback);
    forall i | 0 <= i < |others|
      ensures CompactedFrom(aggressive[i], others[i], 18, 6) && CompactedFrom(compacted[i], aggressive[i], 10, 3)
      ensures FallbackFrom(compacted[i], others[i])
    {
      CompactionKeeps(others[i], SUMMARY_AGGRESSIVE_WORDS, FRESH_TAIL_AGGRESSIVE_LINES);
      CompactionKeeps(aggressive[i], SUMMARY_FALLBACK_WORDS, FRESH_TAIL_FALLBACK_LINES);
      BothStagesKeep(compacted[i], aggressive[i], others[i]);
    }
  }

  lemma BothStagesKeep(c: Block, b: Block, a: Block)
    requires CompactedFrom(b, a, 18, 6) && CompactedFrom(c, b, 10, 3)
    ensures FallbackFrom(c, a)
  {
    hide KeepsFirstWords, KeepsLastLines, TailFrom, EstimateTokens;
    if a.kind == Summary {
      SummaryThroughBothStages(c.content, b.content, a.content);
    } else if a.kind == RecentEvent {
      TailIsFrom(c.content, b.content, a.content);
    }
  }

  lemma TailIsFrom(c: string, b: string, a: string)
    requires KeepsLastLines(b, a, 6) && KeepsLastLines(c, b, 3)
    ensures TailFrom(c, a)
  {
    hide Words, Lines, Join, WordsOf, Resplittable;
    TailThroughBothStages(c, b, a);
  }

  /** Compaction leaves no choice. */
  lemma CompactedFromIsUnique(b: Block, b': Block, a: Block, summaryWords: nat, tailLines: nat)
    requires CompactedFrom(b, a, summaryWords, tailLines) && CompactedFrom(b', a, summaryWords, tailLines)
    ensures b == b'
  {
    hide Words, Join, Lines;
  }

  lemma AllCompactedFromIsUnique(bs: seq<Block>, bs': seq<Block>, blocks: seq<Block>, summaryWords: nat, tailLines: nat)
    requires AllCompactedFrom(bs, blocks, summaryWords, tailLines) && AllCompactedFrom(bs', blocks, summaryWords, tailLines)
    ensures bs == bs'
  {
    hide CompactedFrom;
    forall i | 0 <= i < |bs| ensures bs[i] == bs'[i] {
      CompactedFromIsUnique(bs[i], bs'[i], blocks[i], summaryWords, tailLines);
    }
  }

  /** Each level is reached exactly when nothing less is enough. */
  lemma LevelReachedExactlyWhen(blocks: seq<Block>, budget: nat, aggressive: seq<Block>, compacted: seq<Block>)
    requires AllCompactedFrom(aggressive, NonRetrieval(blocks), 18, 6) && AllCompactedFrom(compacted, aggressive, 10, 3)
    ensures var (all, others) := (Total(blocks), Total(NonRetrieval(blocks)));
      var level := Enforced(blocks, budget).level;
      && (level == Unchanged <==> all <= budget)
      && (level == RetrievalTrimmed <==> all > budget >= others)
      && (level == Aggressive <==> all > budget && others > budget >= Total(aggressive))
      && (level == Fallback <==> all > budget && others > budget && Total(aggressive) > budget >= Total(compacted))
      && (level == HardEnforced <==>
           all > budget && others > budget && Total(aggressive) > budget && Total(compacted) > budget)
    ensures Total(blocks) <= budget ==> Enforced(blocks, budget).blocks == blocks && Enforced(blocks, budget).omittedRefs == []
  {
    hide Total, NonRetrieval, Map, AllCompactedFrom, HardTrim;
    StagesKeep(blocks);
    AllCompactedFromIsUnique(aggressive, Map(NonRetrieval(blocks), AggressiveCompact), NonRetrieval(blocks), 18, 6);
    AllCompactedFromIsUnique(compacted, FullyCompacted(blocks), aggressive, 10, 3);
  }

  /** Retrieval blocks aside, the result is an order-preserving selection of the input, what is
      missing from it is exactly the beginning of the stable sort by priority, and what it shows of
      each block that was kept is what the level allows. */
  lemma BlocksConserved(blocks: seq<Block>, budget: nat) returns (kept: seq<nat>, dropped: seq<nat>)
    requires Total(blocks) > budget
    ensures var others := NonRetrieval(blocks);
      && StandAt(Enforced(blocks, budget).blocks, kept, others)
      && CameFrom(DroppedBlocks(blocks, budget), dropped, others)
      && LowestFirst(others, kept, dropped)
      && (forall i: nat :: i < |others| <==> i in kept || i in dropped)
      && forall i :: 0 <= i < |kept| ==>
           ShownAt(Enforced(blocks, budget).level, Enforced(blocks, budget).blocks[i], others[kept[i]])
    ensures Enforced(blocks, budget).omittedRefs == RetrievalIds(blocks) + RefsOf(DroppedBlocks(blocks, budget))
  {
    hide HardTrim, Total, NonRetrieval, RetrievalIds, RefsOf, Map, StandAt, CameFrom, LowestFirst, ShownAt, AllCutFrom;
    var others := NonRetrieval(blocks);
    var all := UpTo(|others|);
    RefsOfNothing(RetrievalIds(blocks));
    StandAtCompacted(blocks, all);
    StagesKeep(blocks);
    kept, dropped := all, [];
    var entered := FullyCompacted(blocks);
    HardTrimRound(entered, budget);
    if Total(others) > budget && Total(Map(others, AggressiveCompact)) > budget && Total(entered) > budget {
      NothingCutYet(entered, all);
      kept, dropped := HardTrimTracks(entered, all, others, budget, entered);
      SameLength(HardTrim(entered, budget).0, kept, others);
      ShownAfterTrim(HardTrim(entered, budget).0, kept, entered, others);
    } else {
      NothingDropped(others, all);
      ShownUncut(blocks, budget);
    }
  }

  lemma SameLength(blocks: seq<Block>, positions: seq<nat>, original: seq<Block>)
    requires StandAt(blocks, positions, original)
    ensures |positions| == |blocks| && forall i :: 0 <= i < |positions| ==> positions[i] < |original|
  {
  }

  lemma ShownUncut(blocks: seq<Block>, budget: nat)
    requires Total(blocks) > budget && !Enforced(blocks, budget).level.HardEnforced?
    ensures |Enforced(blocks, budget).blocks| == |NonRetrieval(blocks)|
    ensures forall i :: 0 <= i < |NonRetrieval(blocks)| ==>
      ShownAt(Enforced(blocks, budget).level, Enforced(blocks, budget).blocks[i], NonRetrieval(blocks)[i])
  {
    hide HardTrim, Total, NonRetrieval, RetrievalIds, RefsOf, Map, CompactedFrom, FallbackFrom;
    StagesKeep(blocks);
    HardTrimRound(FullyCompacted(blocks), budget);
  }

  lemma NothingCutYet(blocks: seq<Block>, all: seq<nat>)
    requires |all| == |blocks| && forall i :: 0 <= i < |all| ==> all[i] == i
    ensures AllCutFrom(blocks, all, blocks)
  {
  }

  lemma ShownAfterTrim(blocks: seq<Block>, kept: seq<nat>, entered: seq<Block>, others: seq<Block>)
    requires AllCutFrom(blocks, kept, entered) && |entered| == |others|
    requires forall i :: 0 <= i < |others| ==> FallbackFrom(entered[i], others[i])
    ensures forall i :: 0 <= i < |kept| ==> ShownAt(HardEnforced, blocks[i], others[kept[i]])
  {
    hide FallbackFrom, CutFrom;
  }

  lemma NothingDropped(original: seq<Block>, kept: seq<nat>)
    requires forall i :: 0 <= i < |kept| ==> kept[i] < |original|
    ensures CameFrom([], [], original) && LowestFirst(original, kept, [])
  {
  }

  lemma StandAtCompacted(blocks: seq<Block>, all: seq<nat>)
    requires |all| == |NonRetrieval(blocks)| && forall i :: 0 <= i < |all| ==> all[i] == i
    ensures StandAt(NonRetrieval(blocks), all, NonRetrieval(blocks))
    ensures StandAt(Map(NonRetrieval(blocks), AggressiveCompact), all, NonRetrieval(blocks))
    ensures StandAt(FullyCompacted(blocks), all, NonRetrieval(blocks))
  {
    hide CompactTo, NonRetrieval, Map;
    var others := NonRetrieval(blocks);
    var aggressive := Map(others, AggressiveCompact);
    var compacted := Map(aggressive, DeterministicFallback);
    forall i | 0 <= i < |others|
      ensures SameIdentity(aggressive[i], others[i]) && SameIdentity(compacted[i], others[i])
    {
      CompactionKeepsIdentity(others[i], SUMMARY_AGGRESSIVE_WORDS, FRESH_TAIL_AGGRESSIVE_LINES);
      CompactionKeepsIdentity(aggressive[i], SUMMARY_FALLBACK_WORDS, FRESH_TAIL_FALLBACK_LINES);
    }
  }

  lemma CompactionKeepsIdentity(block: Block, summaryWords: nat, tailLines: nat)
    ensures SameIdentity(CompactTo(block, summaryWords, tailLines), block)
  {
  }

  function Ids(blocks: seq<Block>): seq<string>
  {
    seq(|blocks|, i requires 0 <= i < |blocks| => blocks[i].id)
  }

  lemma {:induction false} HardTrimConservesIds(blocks: seq<Block>, budget: nat)
    ensures var (kept, dropped) := HardTrim(blocks, budget);
      multiset(Ids(kept)) + multiset(Ids(dropped)) == multiset(Ids(blocks))
    decreases |blocks|, IllFormed(blocks), SumOfEstimates(blocks)
  {
    hide TrimStep, Total, HardTrim;
    HardTrimRound(blocks, budget);
    if Total(blocks) > budget {
      TrimStepProgress(blocks);
      TrimStepConservesIds(blocks);
      var (next, gone) := TrimStep(blocks);
      HardTrimConservesIds(next, budget);
      var dropped := HardTrim(next, budget).1;
      assert Ids(gone + dropped) == Ids(gone) + Ids(dropped);
    } else {
      assert Ids([]) == [];
    }
  }

  lemma TrimStepConservesIds(blocks: seq<Block>)
    requires blocks != []
    ensures multiset(Ids(TrimStep(blocks).0)) + multiset(Ids(TrimStep(blocks).1)) == multiset(Ids(blocks))
  {
    var t := LastMaxEstimate(blocks);
    if CutOnce(blocks[t]).tokenEstimate == blocks[t].tokenEstimate {
      var d := FirstMinPriority(blocks);
      var ids := Ids(blocks);
      assert ids == ids[..d] + [ids[d]] + ids[d + 1..];
      assert Ids(Without(blocks, d)) == ids[..d] + ids[d + 1..];
      assert Ids([blocks[d]]) == [ids[d]];
    } else {
      assert Ids(blocks[t := CutOnce(blocks[t])]) == Ids(blocks);
      assert Ids([]) == [];
    }
  }

  /** Compaction never raises a well-formed block's estimate, and leaves it well-formed. */
  lemma CompactionNeverGrows(block: Block, summaryWords: nat, tailLines: nat)
    requires block.WellFormed() && summaryWords > 0
    ensures CompactTo(block, summaryWords, tailLines).WellFormed()
    ensures CompactTo(block, summaryWords, tailLines).Estimate() <= block.Estimate()
    ensures SameIdentity(CompactTo(block, summaryWords, tailLines), block)
  {
    TruncateNeverGrows(block.content, summaryWords);
    LastLinesNeverGrow(block.content, tailLines);
  }

  lemma {:induction false} StagesNeverRaise(blocks: seq<Block>)
    requires forall b :: b in blocks ==> b.WellFormed()
    ensures Total(Map(Map(blocks, AggressiveCompact), DeterministicFallback)) <= Total(Map(blocks, AggressiveCompact))
      <= Total(blocks)
    ensures forall b :: b in Map(Map(blocks, AggressiveCompact), DeterministicFallback) ==> b.WellFormed()
  {
    if blocks != [] {
      CompactionNeverGrows(blocks[0], SUMMARY_AGGRESSIVE_WORDS, FRESH_TAIL_AGGRESSIVE_LINES);
      CompactionNeverGrows(AggressiveCompact(blocks[0]), SUMMARY_FALLBACK_WORDS, FRESH_TAIL_FALLBACK_LINES);
      StagesNeverRaise(blocks[1..]);
      assert Map(blocks, AggressiveCompact)[1..] == Map(blocks[1..], AggressiveCompact);
    }
  }

  // ---- What the total does not count ----

  ghost predicate NothingUncounted(blocks: seq<Block>)
  {
    forall b :: b in blocks && b.Uncounted() ==> b.Estimate() == 0
  }

  lemma {:induction false} SumIsTotal(blocks: seq<Block>)
    ensures Total(blocks) <= SumOfEstimates(blocks)
    ensures SumOfEstimates(blocks) == Total(blocks) <==> NothingUncounted(blocks)
  {
    if blocks != [] {
      SumIsTotal(blocks[1..]);
      assert blocks == [blocks[0]] + blocks[1..];
    }
  }

  lemma {:induction false} HardTrimUncounted(blocks: seq<Block>, budget: nat)
    requires NothingUncounted(blocks)
    ensures NothingUncounted(HardTrim(blocks, budget).0)
    decreases |blocks|, IllFormed(blocks), SumOfEstimates(blocks)
  {
    if Total(blocks) > budget {
      TrimStepProgress(blocks);
      SumIsTotal(blocks);
      var t := LastMaxEstimate(blocks);
      if blocks[t].Estimate() == 0 {
        AllZero(blocks);
      }
      assert NothingUncounted(TrimStep(blocks).0);
      HardTrimUncounted(TrimStep(blocks).0, budget);
    }
  }

  lemma {:induction false} AllZero(blocks: seq<Block>)
    requires forall b :: b in blocks ==> b.Estimate() == 0
    ensures Total(blocks) == 0
  {
    if blocks != [] { AllZero(blocks[1..]); }
  }

  lemma {:induction false} NonRetrievalSubset(blocks: seq<Block>)
    ensures forall b :: b in NonRetrieval(blocks) ==> b in blocks
  {
    if blocks != [] { NonRetrievalSubset(blocks[1..]); }
  }

  lemma EnforcedUncounted(blocks: seq<Block>, budget: nat)
    requires NothingUncounted(blocks)
    ensures NothingUncounted(Enforced(blocks, budget).blocks)
  {
    hide HardTrim, Total, Words;
    NonRetrievalSubset(blocks);
    var others := NonRetrieval(blocks);
    var aggressive := Map(others, AggressiveCompact);
    assert forall i :: 0 <= i < |others| ==> others[i] in others && aggressive[i].Uncounted() ==> aggressive[i] == others[i];
    assert NothingUncounted(aggressive);
    var compacted := FullyCompacted(blocks);
    assert forall i :: 0 <= i < |others| ==> aggressive[i] in aggressive && compacted[i].Uncounted() ==> compacted[i] == aggressive[i];
    HardTrimUncounted(compacted, budget);
  }

  /** The kinds an assembly makes blocks of: files of the workspace, tasks, checkpoint, summaries,
      fresh tail and retrieval results. */
  predicate Assembled(kind: Kind)
  {
    || kind == StableIdentity || kind == UserProfile || kind == Mission || kind == Rule || kind == RuntimeDirective
    || kind == TaskPlan || kind == Checkpoint || kind == Summary || kind == RecentEvent
    || kind == Memory || kind == RetrievedKnowledge
  }

  /** In an assembled context the plain sum of all estimates is the total, and obeys the budget. */
  lemma AssembledContextFits(blocks: seq<Block>, budget: nat)
    requires forall b :: b in blocks ==> Assembled(b.kind)
    ensures var r := Enforced(blocks, budget).blocks;
      SumOfEstimates(r) == Breakdown(r).total <= budget
  {
    hide Enforced;
    assert NothingUncounted(blocks);
    EnforcedUncounted(blocks, budget);
    SumIsTotal(Enforced(blocks, budget).blocks);
    BudgetRespected(blocks, budget);
    BreakdownTotal(Enforced(blocks, budget).blocks);
  }

  /** The plain sum of all estimates obeys every budget exactly when no tool-trace or
      skill-instruction block carries tokens: the total does not count those two kinds. */
  lemma WholeSumFitsExactlyWhen(blocks: seq<Block>)
    ensures (forall budget: nat :: SumOfEstimates(Enforced(blocks, budget).blocks) <= budget)
      <==> NothingUncounted(blocks)
  {
    hide HardTrim;
    if NothingUncounted(blocks) {
      forall budget: nat ensures SumOfEstimates(Enforced(blocks, budget).blocks) <= budget {
        EnforcedUncounted(blocks, budget);
        SumIsTotal(Enforced(blocks, budget).blocks);
        BudgetRespected(blocks, budget);
        BreakdownTotal(Enforced(blocks, budget).blocks);
      }
    } else {
      SumIsTotal(blocks);
      var budget := Total(blocks);
      assert SumOfEstimates(Enforced(blocks, budget).blocks) > budget;
    }
  }
}
