/** The two-level summary of a transcript: leaves over four messages each, condensed nodes over two
    leaves each, and finding a node again to expand it. */
module SummaryDag {
  import opened Arithmetic
  import opened Wrappers
  import opened Text
  import opened EventLog
  import Decimal

  const LEAF_SUMMARY_CHUNK_SIZE: nat := 4
  const EXPANSION_LIMIT: nat := 16

  datatype Purpose = Chat | Planning | Execution | Summarization | Resume {
    function FreshTailLimit(): nat {
      match this
      case Chat => 6
      case Planning => 4
      case Execution => 4
      case Summarization => 2
      case Resume => 3
    }
  }

  datatype SummaryType = LeafSummary | CondensedSummary | CheckpointSummary {
    function Label(): string {
      match this case LeafSummary => "leaf" case CondensedSummary => "condensed" case CheckpointSummary => "checkpoint"
    }
  }

  datatype Confidence = Low | Medium | High
  datatype Freshness = Fresh | Warm | Stale
  datatype Invalidation = Active | StaleContent | Contradicted | Invalidated

  datatype Node = Node(
    id: string,
    summaryType: SummaryType,
    depth: nat,
    content: string,
    sourceEventIds: seq<string>,
    descendantCount: nat,
    tokenCount: nat,
    confidence: Confidence,
    freshness: Freshness,
    invalidation: Invalidation)

  // ---- Building ----

  function Chunks<T>(s: seq<T>, n: nat): seq<seq<T>>
    requires n > 0
  {
    if s == [] then [] else if |s| <= n then [s] else [s[..n]] + Chunks(s[n..], n)
  }

  function Ids(messages: seq<Message>): seq<string>
  {
    seq(|messages|, i requires 0 <= i < |messages| => messages[i].eventId)
  }

  function SummaryScope(scope: Scope): string
  {
    scope.sessionId.GetOr("workspace") + "::" + scope.taskId.GetOr("all")
  }

  function NodeId(scope: Scope, level: string, index: nat): string
  {
    "summary::" + SummaryScope(scope) + "::" + level + "::" + Decimal.Print(index)
  }

  function ChunkLines(messages: seq<Message>): seq<string>
  {
    seq(|messages|, i requires 0 <= i < |messages| =>
      "- " + messages[i].role + ": " + TruncateForSummary(messages[i].content, 18))
  }

  function RenderChunk(messages: seq<Message>): string
  {
    "Leaf conversation summary\n" + Join(ChunkLines(messages), "\n")
  }

  function CondensedLines(leaves: seq<Node>): seq<string>
  {
    seq(|leaves|, i requires 0 <= i < |leaves| =>
      "- " + leaves[i].summaryType.Label() + ": " + TruncateForSummary(leaves[i].content, 26))
  }

  function RenderCondensed(leaves: seq<Node>): string
  {
    "Condensed conversation summary\n" + Join(CondensedLines(leaves), "\n")
  }

  function Leaf(scope: Scope, index: nat, chunk: seq<Message>): Node
  {
    var content := RenderChunk(chunk);
    Node(NodeId(scope, "leaf", index), LeafSummary, 0, content, Ids(chunk), |chunk|, EstimateTokens(content),
         High, Warm, Active)
  }

  function Sources(nodes: seq<Node>): seq<string>
  {
    if nodes == [] then [] else nodes[0].sourceEventIds + Sources(nodes[1..])
  }

  function Descendants(nodes: seq<Node>): nat
  {
    if nodes == [] then 0 else nodes[0].descendantCount + Descendants(nodes[1..])
  }

  function Condensed(scope: Scope, index: nat, leaves: seq<Node>): Node
  {
    var content := RenderCondensed(leaves);
    Node(NodeId(scope, "condensed", index), CondensedSummary, 1, content, Sources(leaves), Descendants(leaves),
         EstimateTokens(content), Medium, Stale, Active)
  }

  function LeavesOf(scope: Scope, chunks: seq<seq<Message>>): seq<Node>
  {
    seq(|chunks|, i requires 0 <= i < |chunks| => Leaf(scope, i, chunks[i]))
  }

  function CondensedOf(scope: Scope, chunks: seq<seq<Node>>): seq<Node>
  {
    seq(|chunks|, i requires 0 <= i < |chunks| => Condensed(scope, i, chunks[i]))
  }

  function Leaves(scope: Scope, messages: seq<Message>): seq<Node>
  {
    LeavesOf(scope, Chunks(messages, LEAF_SUMMARY_CHUNK_SIZE))
  }

  function CondensedNodes(scope: Scope, messages: seq<Message>): seq<Node>
  {
    var leaves := Leaves(scope, messages);
    if |leaves| > 1 then CondensedOf(scope, Chunks(leaves, 2)) else []
  }

  function Nodes(scope: Scope, messages: seq<Message>): seq<Node>
  {
    Leaves(scope, messages) + CondensedNodes(scope, messages)
  }

  method BuildMessageSummaryNodes(scope: Scope, messages: seq<Message>) returns (nodes: seq<Node>)
    ensures nodes == Nodes(scope, messages)
  {
    hide Leaf, Condensed, Chunks;
    if messages == [] {
      NoMessagesNoChunks(LEAF_SUMMARY_CHUNK_SIZE);
      return [];
    }
    var leaves: seq<Node> := [];
    nodes := [];
    var chunks := Chunks(messages, LEAF_SUMMARY_CHUNK_SIZE);
    for index := 0 to |chunks|
      invariant leaves == nodes == LeavesOf(scope, chunks[..index])
    {
      var leaf := Leaf(scope, index, chunks[index]);
      leaves := leaves + [leaf];
      nodes := nodes + [leaf];
    }
    assert chunks[..|chunks|] == chunks;
    if |leaves| > 1 {
      var pairs := Chunks(leaves, 2);
      for index := 0 to |pairs|
        invariant nodes == leaves + CondensedOf(scope, pairs[..index])
      {
        nodes := nodes + [Condensed(scope, index, pairs[index])];
      }
      assert pairs[..|pairs|] == pairs;
    }
  }

  lemma NoMessagesNoChunks(n: nat)
    requires n > 0
    ensures Chunks<Message>([], n) == []
  {
  }

  // ---- The shape of the result ----

  /** The i-th run of n elements, shorter or empty at the end. */
  function Run<T>(s: seq<T>, n: nat, i: nat): seq<T>
  {
    RunFrom(s, n, i * n)
  }

  function RunFrom<T>(s: seq<T>, n: nat, from: nat): seq<T>
  {
    if from >= |s| then [] else if from + n <= |s| then s[from..from + n] else s[from..]
  }

  lemma {:induction false} ChunkFrom<T>(s: seq<T>, n: nat, i: nat, from: nat)
    requires n > 0 && from == i * n
    ensures i < |Chunks(s, n)| <==> from < |s|
    ensures i < |Chunks(s, n)| ==> Chunks(s, n)[i] == RunFrom(s, n, from)
    decreases |s|
  {
    if i > 0 {
      MulStep(i, n);
      if |s| > n {
        ChunkFrom(s[n..], n, i - 1, from - n);
        RunOfRest(s, n, from);
      }
    }
  }

  lemma RunOfRest<T>(s: seq<T>, n: nat, from: nat)
    requires 0 < n <= |s| && from >= n
    ensures RunFrom(s[n..], n, from - n) == RunFrom(s, n, from)
  {
    if from + n <= |s| {
      assert s[n..][from - n..from] == s[from..from + n];
    } else if from < |s| {
      assert s[n..][from - n..] == s[from..];
    }
  }

  lemma ChunkAt<T>(s: seq<T>, n: nat, i: nat)
    requires n > 0
    ensures i < |Chunks(s, n)| <==> i * n < |s|
    ensures i < |Chunks(s, n)| ==> Chunks(s, n)[i] == Run(s, n, i)
  {
    hide Chunks, RunFrom;
    ChunkFrom(s, n, i, i * n);
  }

  /** Chunks put back together give the whole. */
  lemma {:induction false} ChunksCover<T>(s: seq<T>, n: nat)
    requires n > 0
    ensures Flat(Chunks(s, n)) == s
  {
    if |s| > n {
      ChunksCover(s[n..], n);
      assert s == s[..n] + s[n..];
    } else if s != [] {
      assert Flat([s]) == s + Flat([]);
    }
  }

  function Flat<T>(parts: seq<seq<T>>): seq<T>
  {
    if parts == [] then [] else parts[0] + Flat(parts[1..])
  }

  lemma {:induction false} SourcesCollected(nodes: seq<Node>, chunks: seq<seq<Message>>)
    requires |nodes| == |chunks|
    requires forall i :: 0 <= i < |nodes| ==>
      nodes[i].sourceEventIds == Ids(chunks[i]) && nodes[i].descendantCount == |chunks[i]|
    ensures Sources(nodes) == Ids(Flat(chunks)) && Descendants(nodes) == |Flat(chunks)|
  {
    if nodes != [] {
      SourcesCollected(nodes[1..], chunks[1..]);
      assert Ids(Flat(chunks)) == Ids(chunks[0]) + Ids(Flat(chunks[1..]));
    }
  }

  lemma {:induction false} SourcesConcat(a: seq<Node>, b: seq<Node>)
    ensures Sources(a + b) == Sources(a) + Sources(b) && Descendants(a + b) == Descendants(a) + Descendants(b)
  {
    if a == [] {
      assert a + b == b;
    } else {
      assert (a + b)[1..] == a[1..] + b;
      SourcesConcat(a[1..], b);
    }
  }

  lemma {:induction false} SourcesRegrouped(nodes: seq<Node>, groups: seq<seq<Node>>)
    requires |nodes| == |groups|
    requires forall i :: 0 <= i < |nodes| ==>
      nodes[i].sourceEventIds == Sources(groups[i]) && nodes[i].descendantCount == Descendants(groups[i])
    ensures Sources(nodes) == Sources(Flat(groups)) && Descendants(nodes) == Descendants(Flat(groups))
  {
    if nodes != [] {
      SourcesRegrouped(nodes[1..], groups[1..]);
      SourcesConcat(groups[0], Flat(groups[1..]));
    }
  }

  /** Both levels of the summary mention every message of the transcript exactly once, in order. */
  lemma SummaryCovers(scope: Scope, messages: seq<Message>)
    ensures Sources(Leaves(scope, messages)) == Ids(messages)
    ensures Descendants(Leaves(scope, messages)) == |messages|
    ensures |messages| > LEAF_SUMMARY_CHUNK_SIZE ==>
      && Sources(CondensedNodes(scope, messages)) == Ids(messages)
      && Descendants(CondensedNodes(scope, messages)) == |messages|
    ensures |messages| <= LEAF_SUMMARY_CHUNK_SIZE ==> CondensedNodes(scope, messages) == []
  {
    hide Chunks, NodeId;
    var leaves := Leaves(scope, messages);
    ChunksCover(messages, LEAF_SUMMARY_CHUNK_SIZE);
    SourcesCollected(leaves, Chunks(messages, LEAF_SUMMARY_CHUNK_SIZE));
    ChunkAt(messages, LEAF_SUMMARY_CHUNK_SIZE, 1);
    ChunksCover(leaves, 2);
    SourcesRegrouped(CondensedOf(scope, Chunks(leaves, 2)), Chunks(leaves, 2));
  }

  // ---- Where each node comes from ----

  lemma RunIsSegment<T>(s: seq<T>, k: nat, n: nat, i: nat)
    requires n > 0 && i * n < k <= |s|
    ensures i * n + |Run(s[..k], n, i)| <= k && 0 < |Run(s[..k], n, i)| <= n
    ensures Run(s[..k], n, i) == s[i * n..i * n + |Run(s[..k], n, i)|]
  {
    var from := i * n;
    if from + n <= k {
      assert s[..k][from..from + n] == s[from..from + n];
    } else {
      assert s[..k][from..] == s[from..k];
    }
  }

  lemma LeafAt(scope: Scope, messages: seq<Message>, i: nat)
    ensures i < |Leaves(scope, messages)| <==> i * LEAF_SUMMARY_CHUNK_SIZE < |messages|
    ensures i < |Leaves(scope, messages)| ==>
      Leaves(scope, messages)[i] == Leaf(scope, i, Run(messages, LEAF_SUMMARY_CHUNK_SIZE, i))
  {
    hide Chunks, Leaf;
    ChunkAt(messages, LEAF_SUMMARY_CHUNK_SIZE, i);
  }

  lemma CondensedAt(scope: Scope, messages: seq<Message>, j: nat)
    ensures j < |CondensedNodes(scope, messages)| <==>
      |messages| > LEAF_SUMMARY_CHUNK_SIZE && j * (2 * LEAF_SUMMARY_CHUNK_SIZE) < |messages|
    ensures j < |CondensedNodes(scope, messages)| ==>
      CondensedNodes(scope, messages)[j] == Condensed(scope, j, Run(Leaves(scope, messages), 2, j))
  {
    hide Chunks, Leaves, Condensed, Leaf, Run;
    LeafAt(scope, messages, 1);
    LeafAt(scope, messages, 2 * j);
    ChunkAt(Leaves(scope, messages), 2, j);
  }

  /** A summary line: who or what it is about, and the first words of it. */
  ghost predicate IsSummaryLine(line: string, subject: string, content: string, words: nat)
  {
    exists text :: line == "- " + subject + ": " + text && KeepsFirstWords(text, content, words)
  }

  /** The id of a node, spelled out. */
  ghost predicate IsNodeId(id: string, scope: Scope, level: string, index: nat)
  {
    var session := match scope.sessionId case Some(s) => s case None => "workspace";
    var task := match scope.taskId case Some(t) => t case None => "all";
    id == "summary::" + session + "::" + task + "::" + level + "::" + Decimal.Print(index)
  }

  lemma NodeIdSpelled(scope: Scope, level: string, index: nat)
    ensures IsNodeId(NodeId(scope, level, index), scope, level, index)
  {
    var session := match scope.sessionId case Some(s) => s case None => "workspace";
    var task := match scope.taskId case Some(t) => t case None => "all";
    assert "summary::" + (session + "::" + task) + "::" + level + "::" + Decimal.Print(index)
      == "summary::" + session + "::" + task + "::" + level + "::" + Decimal.Print(index);
  }

  /** What a leaf shows: one line for each of its messages. */
  lemma LeafShows(scope: Scope, index: nat, chunk: seq<Message>) returns (lines: seq<string>)
    ensures var leaf := Leaf(scope, index, chunk);
      && IsNodeId(leaf.id, scope, "leaf", index)
      && leaf.content == "Leaf conversation summary\n" + Join(lines, "\n") && |lines| == |chunk|
      && (forall i :: 0 <= i < |chunk| ==> IsSummaryLine(lines[i], chunk[i].role, chunk[i].content, 18))
      && leaf.tokenCount == |Words(leaf.content)| && leaf.depth == 0
      && leaf.confidence == High && leaf.freshness == Warm && leaf.invalidation == Active
  {
    hide KeepsFirstWords, TruncateForSummary, NodeId, Words, Join;
    NodeIdSpelled(scope, "leaf", index);
    lines := ChunkLines(chunk);
    forall i | 0 <= i < |chunk| ensures IsSummaryLine(lines[i], chunk[i].role, chunk[i].content, 18) {
      FirstWordsKept(chunk[i].content, 18);
    }
  }

  /** What a condensed node shows: one line for each of its leaves. */
  lemma CondensedShows(scope: Scope, index: nat, leaves: seq<Node>) returns (lines: seq<string>)
    requires forall i :: 0 <= i < |leaves| ==> leaves[i].summaryType == LeafSummary
    ensures var node := Condensed(scope, index, leaves);
      && IsNodeId(node.id, scope, "condensed", index)
      && node.content == "Condensed conversation summary\n" + Join(lines, "\n") && |lines| == |leaves|
      && (forall i :: 0 <= i < |leaves| ==> IsSummaryLine(lines[i], "leaf", leaves[i].content, 26))
      && node.tokenCount == |Words(node.content)| && node.depth == 1
      && node.confidence == Medium && node.freshness == Stale && node.invalidation == Active
  {
    hide KeepsFirstWords, TruncateForSummary, NodeId, Words, Join, Sources, Descendants;
    NodeIdSpelled(scope, "condensed", index);
    lines := CondensedLines(leaves);
    forall i | 0 <= i < |leaves| ensures IsSummaryLine(lines[i], "leaf", leaves[i].content, 26) {
      FirstWordsKept(leaves[i].content, 26);
    }
  }

  lemma RunOfRuns<T>(s: seq<T>, n: nat, j: nat)
    requires n > 0
    ensures Run(s, 2 * n, j) == Run(s, n, 2 * j) + Run(s, n, 2 * j + 1)
  {
    assert 2 * j * n == j * (2 * n) && (2 * j + 1) * n == j * (2 * n) + n;
  }

  /** A condensed node stands for a run of eight messages. */
  lemma CondensedSources(scope: Scope, messages: seq<Message>, j: nat)
    requires j * (2 * LEAF_SUMMARY_CHUNK_SIZE) < |messages|
    ensures var pair := Run(Leaves(scope, messages), 2, j);
      && Sources(pair) == Ids(Run(messages, 2 * LEAF_SUMMARY_CHUNK_SIZE, j))
      && Descendants(pair) == |Run(messages, 2 * LEAF_SUMMARY_CHUNK_SIZE, j)|
  {
    hide Leaves, NodeId, RenderChunk;
    var leaves := Leaves(scope, messages);
    LeafAt(scope, messages, 2 * j);
    LeafAt(scope, messages, 2 * j + 1);
    var pair := Run(leaves, 2, j);
    PairSources(pair);
    RunOfRuns(messages, LEAF_SUMMARY_CHUNK_SIZE, j);
    var left := Run(messages, LEAF_SUMMARY_CHUNK_SIZE, 2 * j);
    var right := Run(messages, LEAF_SUMMARY_CHUNK_SIZE, 2 * j + 1);
    assert Ids(left + right) == Ids(left) + Ids(right);
  }

  lemma PairSources(pair: seq<Node>)
    requires 1 <= |pair| <= 2
    ensures Sources(pair) == pair[0].sourceEventIds + (if |pair| == 2 then pair[1].sourceEventIds else [])
    ensures Descendants(pair) == pair[0].descendantCount + (if |pair| == 2 then pair[1].descendantCount else 0)
  {
    assert Sources(pair[1..]) == if |pair| == 2 then pair[1].sourceEventIds + Sources(pair[2..]) else [];
    assert Descendants(pair[1..]) == if |pair| == 2 then pair[1].descendantCount + Descendants(pair[2..]) else 0;
  }

  // ---- Finding a node again ----

  function FindNode(nodes: seq<Node>, id: string): Option<Node>
  {
    if nodes == [] then None else if nodes[0].id == id then Some(nodes[0]) else FindNode(nodes[1..], id)
  }

  lemma {:induction false} FindNodeMeaning(nodes: seq<Node>, id: string)
    ensures FindNode(nodes, id).Some? ==> exists k :: 0 <= k < |nodes| && nodes[k].id == id && FindNode(nodes, id) == Some(nodes[k])
    ensures FindNode(nodes, id).None? ==> forall k :: 0 <= k < |nodes| ==> nodes[k].id != id
  {
    if nodes != [] && nodes[0].id != id {
      FindNodeMeaning(nodes[1..], id);
      if FindNode(nodes, id).Some? {
        var k :| 0 <= k < |nodes[1..]| && nodes[1..][k].id == id && FindNode(nodes[1..], id) == Some(nodes[1..][k]);
        assert nodes[k + 1] == nodes[1..][k];
      } else {
        assert forall k :: 0 < k < |nodes| ==> nodes[k] == nodes[1..][k - 1];
      }
    }
  }

  /** Within a scope, level and index determine the id and the id determines them. */
  lemma NodeIdInjective(scope: Scope, level: string, i: nat, level': string, j: nat)
    requires level in ["leaf", "condensed"] && level' in ["leaf", "condensed"]
    requires NodeId(scope, level, i) == NodeId(scope, level', j)
    ensures level == level' && i == j
  {
    hide Decimal.Print;
    var prefix := "summary::" + SummaryScope(scope) + "::";
    var a, b := NodeId(scope, level, i), NodeId(scope, level', j);
    assert a == prefix + (level + "::" + Decimal.Print(i)) && b == prefix + (level' + "::" + Decimal.Print(j));
    assert a[|prefix|] == level[0] && b[|prefix|] == level'[0];
    assert level == level';
    var start := |prefix| + |level| + 2;
    assert a[start..] == Decimal.Print(i) && b[start..] == Decimal.Print(j);
    Decimal.PrintInjective(i, j);
  }

  lemma NodeIdAt(scope: Scope, messages: seq<Message>, k: nat)
    requires k < |Nodes(scope, messages)|
    ensures var leaves := |Leaves(scope, messages)|;
      Nodes(scope, messages)[k].id ==
        if k < leaves then NodeId(scope, "leaf", k) else NodeId(scope, "condensed", k - leaves)
  {
    hide Leaves, CondensedNodes, NodeId, Run, RenderChunk, RenderCondensed, Ids, Sources, Descendants;
    if k < |Leaves(scope, messages)| {
      LeafAt(scope, messages, k);
    } else {
      CondensedAt(scope, messages, k - |Leaves(scope, messages)|);
    }
  }

  lemma LookupLeaf(scope: Scope, messages: seq<Message>, i: nat)
    ensures FindNode(Nodes(scope, messages), NodeId(scope, "leaf", i)) ==
      if i * LEAF_SUMMARY_CHUNK_SIZE < |messages| then Some(Leaf(scope, i, Run(messages, LEAF_SUMMARY_CHUNK_SIZE, i)))
      else None
  {
    hide Leaves, CondensedNodes, NodeId, FindNode, Run, Leaf;
    var id := NodeId(scope, "leaf", i);
    var leaves, nodes := Leaves(scope, messages), Nodes(scope, messages);
    FindNodeMeaning(nodes, id);
    LeafAt(scope, messages, i);
    if i < |leaves| {
      assert nodes[i] == leaves[i];
      NodeIdAt(scope, messages, i);
    }
    forall k: nat | k < |nodes| && nodes[k].id == id ensures k == i && k < |leaves| {
      NodeIdAt(scope, messages, k);
      if k < |leaves| {
        NodeIdInjective(scope, "leaf", k, "leaf", i);
      } else {
        NodeIdInjective(scope, "condensed", k - |leaves|, "leaf", i);
      }
    }
  }

  lemma LookupCondensed(scope: Scope, messages: seq<Message>, j: nat)
    ensures FindNode(Nodes(scope, messages), NodeId(scope, "condensed", j)) ==
      if |messages| > LEAF_SUMMARY_CHUNK_SIZE && j * (2 * LEAF_SUMMARY_CHUNK_SIZE) < |messages|
      then Some(Condensed(scope, j, Run(Leaves(scope, messages), 2, j))) else None
  {
    hide Leaves, CondensedNodes, NodeId, FindNode, Run, Condensed;
    var id := NodeId(scope, "condensed", j);
    var leaves, nodes := Leaves(scope, messages), Nodes(scope, messages);
    FindNodeMeaning(nodes, id);
    CondensedAt(scope, messages, j);
    if j < |CondensedNodes(scope, messages)| {
      assert nodes[|leaves| + j] == CondensedNodes(scope, messages)[j];
      NodeIdAt(scope, messages, |leaves| + j);
    }
    forall k: nat | k < |nodes| && nodes[k].id == id ensures k == |leaves| + j {
      NodeIdAt(scope, messages, k);
      if k < |leaves| {
        NodeIdInjective(scope, "leaf", k, "condensed", j);
      } else {
        NodeIdInjective(scope, "condensed", k - |leaves|, "condensed", j);
      }
    }
  }

  // ---- Assembling and expanding ----

  /** The messages that are summarised rather than shown verbatim. */
  function Summarized(messages: seq<Message>, purpose: Purpose): seq<Message>
  {
    var tail := purpose.FreshTailLimit();
    messages[..if |messages| > tail then |messages| - tail else 0]
  }

  function FreshTail(messages: seq<Message>, purpose: Purpose): seq<Message>
  {
    messages[|Summarized(messages, purpose)|..]
  }

  lemma SummaryAndTailAreEverything(messages: seq<Message>, purpose: Purpose)
    ensures Summarized(messages, purpose) + FreshTail(messages, purpose) == messages
    ensures var limit := match purpose case Chat => 6 case Planning => 4 case Execution => 4 case Summarization => 2 case Resume => 3;
      |FreshTail(messages, purpose)| == if |messages| < limit then |messages| else limit
  {
  }

  function SummaryNodes(log: seq<Event>, scope: Scope, purpose: Purpose): seq<Node>
  {
    Nodes(scope, Summarized(Messages(log, scope), purpose))
  }

  function MessagesNamed(messages: seq<Message>, ids: seq<string>): seq<Message>
  {
    if messages == [] then []
    else (if messages[0].eventId in ids then [messages[0]] else []) + MessagesNamed(messages[1..], ids)
  }

  function TakeLines(messages: seq<Message>, limit: nat): seq<string>
  {
    var n := if |messages| < limit then |messages| else limit;
    seq(n, i requires 0 <= i < n => messages[i].role + " [" + messages[i].eventId + "]: " + messages[i].content)
  }

  datatype Expansion = Expanded(matchedRefs: seq<string>, distilledText: string) | NotASummaryNode

  function ExpandSummary(log: seq<Event>, scope: Scope, id: string): Expansion
  {
    match FindNode(SummaryNodes(log, scope, Resume), id)
    case None => NotASummaryNode
    case Some(node) =>
      var lines := TakeLines(MessagesNamed(Messages(log, scope), node.sourceEventIds), EXPANSION_LIMIT);
      Expanded(node.sourceEventIds, if lines == [] then node.content else Join(lines, "\n"))
  }

  /** The node's counterpart in the summary of a longer transcript. */
  ghost predicate Extends(node: Node, longer: Node, full: nat)
  {
    && longer.id == node.id && node.sourceEventIds <= longer.sourceEventIds
    && (|node.sourceEventIds| == full ==> longer == node)
  }

  lemma RunExtends<T>(s: seq<T>, more: seq<T>, n: nat, i: nat)
    requires n > 0
    ensures Run(s, n, i) <= Run(s + more, n, i)
    ensures |Run(s, n, i)| == n ==> Run(s, n, i) == Run(s + more, n, i)
  {
  }

  lemma LeafExtends(scope: Scope, messages: seq<Message>, more: seq<Message>, i: nat)
    ensures var leaf := Leaf(scope, i, Run(messages, LEAF_SUMMARY_CHUNK_SIZE, i));
      Extends(leaf, Leaf(scope, i, Run(messages + more, LEAF_SUMMARY_CHUNK_SIZE, i)), LEAF_SUMMARY_CHUNK_SIZE)
  {
    RunExtends(messages, more, LEAF_SUMMARY_CHUNK_SIZE, i);
  }

  lemma CondensedExtends(scope: Scope, messages: seq<Message>, more: seq<Message>, j: nat)
    requires j * (2 * LEAF_SUMMARY_CHUNK_SIZE) < |messages|
    ensures var node := Condensed(scope, j, Run(Leaves(scope, messages), 2, j));
      Extends(node, Condensed(scope, j, Run(Leaves(scope, messages + more), 2, j)), 2 * LEAF_SUMMARY_CHUNK_SIZE)
  {
    hide Leaves, Run, NodeId, RenderCondensed;
    CondensedSources(scope, messages, j);
    CondensedSources(scope, messages + more, j);
    RunExtends(messages, more, 2 * LEAF_SUMMARY_CHUNK_SIZE, j);
    var ids := Ids(Run(messages, 2 * LEAF_SUMMARY_CHUNK_SIZE, j));
    var ids' := Ids(Run(messages + more, 2 * LEAF_SUMMARY_CHUNK_SIZE, j));
    assert ids <= ids';
    if |ids| == 2 * LEAF_SUMMARY_CHUNK_SIZE {
      FullPair(scope, messages, more, j);
    }
  }

  lemma FullRun<T>(s: seq<T>, n: nat, i: nat)
    requires n > 0
    ensures |Run(s, n, i)| == n <==> i * n + n <= |s|
  {
  }

  lemma FullPair(scope: Scope, messages: seq<Message>, more: seq<Message>, j: nat)
    requires |Run(messages, 2 * LEAF_SUMMARY_CHUNK_SIZE, j)| == 2 * LEAF_SUMMARY_CHUNK_SIZE
    ensures Run(Leaves(scope, messages), 2, j) == Run(Leaves(scope, messages + more), 2, j)
  {
    hide Leaves, NodeId, Leaf;
    FullRun(messages, 2 * LEAF_SUMMARY_CHUNK_SIZE, j);
    FullRun(messages, LEAF_SUMMARY_CHUNK_SIZE, 2 * j);
    FullRun(messages, LEAF_SUMMARY_CHUNK_SIZE, 2 * j + 1);
    assert (j + 1) * (2 * LEAF_SUMMARY_CHUNK_SIZE) <= |messages|;
    LeafAt(scope, messages, 2 * j);
    LeafAt(scope, messages, 2 * j + 1);
    LeafAt(scope, messages + more, 2 * j);
    LeafAt(scope, messages + more, 2 * j + 1);
    RunExtends(messages, more, LEAF_SUMMARY_CHUNK_SIZE, 2 * j);
    RunExtends(messages, more, LEAF_SUMMARY_CHUNK_SIZE, 2 * j + 1);
  }

  lemma NodeKind(scope: Scope, messages: seq<Message>, node: Node) returns (index: nat)
    requires node in Nodes(scope, messages)
    ensures node.summaryType == LeafSummary || node.summaryType == CondensedSummary
    ensures node.summaryType == LeafSummary ==>
      index * LEAF_SUMMARY_CHUNK_SIZE < |messages| && node == Leaf(scope, index, Run(messages, LEAF_SUMMARY_CHUNK_SIZE, index))
    ensures node.summaryType == CondensedSummary ==>
      && |messages| > LEAF_SUMMARY_CHUNK_SIZE && index * (2 * LEAF_SUMMARY_CHUNK_SIZE) < |messages|
      && node == Condensed(scope, index, Run(Leaves(scope, messages), 2, index))
  {
    hide Leaves, CondensedNodes, NodeId, Run, RenderCondensed, RenderChunk;
    var leaves, nodes := Leaves(scope, messages), Nodes(scope, messages);
    var k: nat :| k < |nodes| && nodes[k] == node;
    if k < |leaves| {
      index := k;
      LeafAt(scope, messages, index);
    } else {
      index := k - |leaves|;
      CondensedAt(scope, messages, index);
    }
  }

  function FullSize(node: Node): nat
  {
    if node.summaryType == LeafSummary then LEAF_SUMMARY_CHUNK_SIZE else 2 * LEAF_SUMMARY_CHUNK_SIZE
  }

  /** A node of a shorter summary is found by its id in every longer one, and covers at least what
      it covered; once full it never changes. */
  lemma NodeFoundInLonger(scope: Scope, messages: seq<Message>, more: seq<Message>, node: Node)
    requires node in Nodes(scope, messages)
    ensures var found := FindNode(Nodes(scope, messages + more), node.id);
      found.Some? && Extends(node, found.value, FullSize(node))
  {
    hide Nodes, Leaves, CondensedNodes, NodeId, Run, RenderCondensed, RenderChunk, FindNode;
    var index := NodeKind(scope, messages, node);
    if node.summaryType == LeafSummary {
      LookupLeaf(scope, messages + more, index);
      LeafExtends(scope, messages, more, index);
    } else {
      LookupCondensed(scope, messages + more, index);
      CondensedExtends(scope, messages, more, index);
    }
  }

  /** Every node that a Chat, Planning or Execution assembly shows can be expanded, then and ever
      after: its id stays valid on the same or any longer log, and its sources are not lost. */
  lemma ShownNodesStayExpandable(log: seq<Event>, more: seq<Event>, scope: Scope, purpose: Purpose, node: Node)
    requires purpose != Summarization && node in SummaryNodes(log, scope, purpose)
    ensures var found := FindNode(SummaryNodes(log + more, scope, Resume), node.id);
      found.Some? && Extends(node, found.value, FullSize(node))
    ensures var e := ExpandSummary(log + more, scope, node.id);
      e.Expanded? && node.sourceEventIds <= e.matchedRefs
  {
    hide Nodes, FindNode, Messages;
    TranscriptGrows(log, more, scope);
    var shown := Summarized(Messages(log, scope), purpose);
    var now := Summarized(Messages(log + more, scope), Resume);
    assert now == shown + now[|shown|..];
    NodeFoundInLonger(scope, shown, now[|shown|..], node);
  }

  /** A Summarization assembly summarises one message more than an expansion does: all its nodes
      can be expanded exactly when that one message does not sit alone in the last leaf. */
  lemma SummarizationNodesExpandableExactlyWhen(log: seq<Event>, scope: Scope)
    ensures var n := |Messages(log, scope)|;
      (forall node :: node in SummaryNodes(log, scope, Summarization) ==> ExpandSummary(log, scope, node.id).Expanded?)
        <==> (n < 3 || (n - 3) % LEAF_SUMMARY_CHUNK_SIZE != 0)
  {
    hide Nodes, FindNode, Messages, ExpandSummary;
    var n := |Messages(log, scope)|;
    if n >= 3 && (n - 3) % LEAF_SUMMARY_CHUNK_SIZE == 0 {
      var node := LoneLeaf(log, scope);
    } else {
      forall node | node in SummaryNodes(log, scope, Summarization) ensures ExpandSummary(log, scope, node.id).Expanded? {
        FoundAmongFewer(log, scope, node);
      }
    }
  }

  /** The leaf that stands on the extra message alone. */
  lemma LoneLeaf(log: seq<Event>, scope: Scope) returns (node: Node)
    requires var n := |Messages(log, scope)|; n >= 3 && (n - 3) % LEAF_SUMMARY_CHUNK_SIZE == 0
    ensures node in SummaryNodes(log, scope, Summarization) && ExpandSummary(log, scope, node.id) == NotASummaryNode
  {
    hide Nodes, FindNode, Messages, Leaf, Condensed, Leaves;
    var messages := Messages(log, scope);
    var shown, found := Summarized(messages, Summarization), Summarized(messages, Resume);
    var i: nat := (|messages| - 3) / LEAF_SUMMARY_CHUNK_SIZE;
    assert |shown| == |messages| - 2 && |found| == |messages| - 3 && i * LEAF_SUMMARY_CHUNK_SIZE == |messages| - 3;
    LookupLeaf(scope, found, i);
    node := LeafNode(scope, shown, i);
  }

  lemma FoundAmongFewer(log: seq<Event>, scope: Scope, node: Node)
    requires var n := |Messages(log, scope)|; n < 3 || (n - 3) % LEAF_SUMMARY_CHUNK_SIZE != 0
    requires node in SummaryNodes(log, scope, Summarization)
    ensures ExpandSummary(log, scope, node.id).Expanded?
  {
    hide Nodes, FindNode, Messages, Leaf, Condensed, Leaves, MessagesNamed, Join;
    var messages := Messages(log, scope);
    var shown, found := Summarized(messages, Summarization), Summarized(messages, Resume);
    var index := NodeKind(scope, shown, node);
    NodeIds(scope, shown, index);
    if node.summaryType == LeafSummary {
      LookupLeaf(scope, found, index);
    } else {
      LookupCondensed(scope, found, index);
    }
  }

  lemma LeafNode(scope: Scope, messages: seq<Message>, i: nat) returns (node: Node)
    requires i * LEAF_SUMMARY_CHUNK_SIZE < |messages|
    ensures node in Nodes(scope, messages) && node.id == NodeId(scope, "leaf", i)
  {
    hide Leaves, CondensedNodes;
    LeafAt(scope, messages, i);
    node := Leaves(scope, messages)[i];
    assert node == Nodes(scope, messages)[i];
  }

  lemma NodeIds(scope: Scope, messages: seq<Message>, i: nat)
    ensures Leaf(scope, i, Run(messages, LEAF_SUMMARY_CHUNK_SIZE, i)).id == NodeId(scope, "leaf", i)
    ensures Condensed(scope, i, Run(Leaves(scope, messages), 2, i)).id == NodeId(scope, "condensed", i)
  {
  }

  // ---- What an expansion shows ----

  ghost predicate DistinctIds(messages: seq<Message>)
  {
    forall i, j :: 0 <= i < j < |messages| ==> messages[i].eventId != messages[j].eventId
  }

  lemma {:induction false} MessagesNamedConcat(a: seq<Message>, b: seq<Message>, ids: seq<string>)
    ensures MessagesNamed(a + b, ids) == MessagesNamed(a, ids) + MessagesNamed(b, ids)
  {
    if a == [] {
      assert a + b == b;
    } else {
      assert (a + b)[1..] == a[1..] + b;
      MessagesNamedConcat(a[1..], b, ids);
    }
  }

  lemma {:induction false} MessagesNamedAllOrNothing(messages: seq<Message>, ids: seq<string>)
    ensures (forall m :: m in messages ==> m.eventId in ids) ==> MessagesNamed(messages, ids) == messages
    ensures (forall m :: m in messages ==> m.eventId !in ids) ==> MessagesNamed(messages, ids) == []
  {
    if messages != [] {
      MessagesNamedAllOrNothing(messages[1..], ids);
      assert messages == [messages[0]] + messages[1..];
    }
  }

  /** Filtering a transcript by the ids of one of its segments gives that segment. */
  lemma SegmentFoundByItsIds(messages: seq<Message>, from: nat, to: nat)
    requires DistinctIds(messages) && from <= to <= |messages|
    ensures MessagesNamed(messages, Ids(messages[from..to])) == messages[from..to]
  {
    hide MessagesNamed, Ids, DistinctIds;
    var segment := messages[from..to];
    var ids := Ids(segment);
    var before, after := messages[..from], messages[to..];
    NoForeignIds(messages, from, to);
    OwnIds(segment);
    MessagesNamedAllOrNothing(before, ids);
    MessagesNamedAllOrNothing(segment, ids);
    MessagesNamedAllOrNothing(after, ids);
    assert messages == (before + segment) + after;
    MessagesNamedConcat(before + segment, after, ids);
    MessagesNamedConcat(before, segment, ids);
  }

  lemma OwnIds(messages: seq<Message>)
    ensures forall m :: m in messages ==> m.eventId in Ids(messages)
  {
    forall m | m in messages ensures m.eventId in Ids(messages) {
      var i :| 0 <= i < |messages| && messages[i] == m;
      assert Ids(messages)[i] == m.eventId;
    }
  }

  lemma NoForeignIds(messages: seq<Message>, from: nat, to: nat)
    requires DistinctIds(messages) && from <= to <= |messages|
    ensures forall m :: m in messages[..from] || m in messages[to..] ==> m.eventId !in Ids(messages[from..to])
  {
    var ids := Ids(messages[from..to]);
    assert forall k :: 0 <= k < |ids| ==> ids[k] == messages[from + k].eventId;
    forall m | m in messages[..from] ensures m.eventId !in ids {
      var i :| 0 <= i < from && messages[i] == m;
    }
    forall m | m in messages[to..] ensures m.eventId !in ids {
      var i :| 0 <= i < |messages[to..]| && messages[to..][i] == m;
      assert messages[to + i] == m;
    }
  }

  /** With distinct event ids, expanding a node shows exactly the messages it stands for, all of
      them: the limit on lines never cuts. */
  lemma ExpansionIsExact(log: seq<Event>, scope: Scope, node: Node)
    returns (from: nat, run: seq<Message>, lines: seq<string>)
    requires forall i, j :: 0 <= i < j < |log| ==> log[i].eventId != log[j].eventId
    requires node in SummaryNodes(log, scope, Resume)
    ensures 0 < |run| <= FullSize(node) && |run| == node.descendantCount
    ensures from + |run| <= |Messages(log, scope)| && run == Messages(log, scope)[from..from + |run|]
    ensures ExpandSummary(log, scope, node.id) == Expanded(Ids(run), Join(lines, "\n"))
    ensures |lines| == |run|
    ensures forall i :: 0 <= i < |run| ==> lines[i] == run[i].role + " [" + run[i].eventId + "]: " + run[i].content
  {
    hide Nodes, FindNode, Messages, Leaves, RenderChunk, RenderCondensed, NodeId, MessagesNamed, Join, Run;
    var messages := Messages(log, scope);
    var summarized := Summarized(messages, Resume);
    var index := NodeKind(scope, summarized, node);
    assert DistinctIds(messages) by { TranscriptDistinct(log, scope); }
    if node.summaryType == LeafSummary {
      LookupLeaf(scope, summarized, index);
    } else {
      LookupCondensed(scope, summarized, index);
      CondensedSources(scope, summarized, index);
    }
    var n := FullSize(node);
    run := Run(summarized, n, index);
    from := index * n;
    RunIsSegment(messages, |summarized|, n, index);
    SegmentFoundByItsIds(messages, from, from + |run|);
    lines := TakeLines(run, EXPANSION_LIMIT);
    assert lines != [];
  }

  lemma TranscriptDistinct(log: seq<Event>, scope: Scope)
    requires forall i, j :: 0 <= i < j < |log| ==> log[i].eventId != log[j].eventId
    ensures DistinctIds(Messages(log, scope))
  {
    ScopedDistinct(log, scope);
    BodiesDistinct(Scoped(log, scope));
  }
}
