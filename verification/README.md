# A verified model of the agent runtime's cores

The repository is an agent runtime written in Rust: a daemon with plugins, sessions, scheduled tasks, shell
and editing tools, and an engine that assembles the context of each model call. This project models the parts
of it whose correctness is not visible from any single function, and proves what the rest of the program relies
on. `dafny verify dfyconfig.toml` checks all of it.

Code that works step by step is modelled step by step: the plugin manager, the shell session, the schedule store,
the event log and the daemon store are classes, loops are loops, and the status pass over summaries writes into an
array in place. Each such method is proved equal to a function, or against a stated property; the theorems are
about those functions and about whole runs of them.

| module | what it models |
|---|---|
| `PluginStartOrder` | the depth-first search that orders plugins by their dependencies |
| `PluginLifecycle` | the plugin manager: discovery, start, reload, hooks; the life of a manager as a sequence of operations |
| `ContextBudget` | the stages that fit a context into its token budget |
| `EventLog`, `SummaryDag`, `EventFolds` | the append-only log; the two-level summaries of its transcripts; task state and summary status derived from it |
| `TextDocument`, `Newlines` | positions, edits and newline styles of text files |
| `ShellOutput`, `ShellQuoting`, `ExecMarkers` | the bounded output buffer of a shell session, quoting for the shell, the marker lines that report a command's end |
| `Schedules` | the schedule store, and the scan-and-trigger executor among concurrent changes to it |
| `Identity` | numbered identifiers, and the counters that are set anew at every start |
| `RepeatedText` | the collapse of a reply that was sent several times over |
| `Text`, `Decimal`, `Order`, `Arithmetic`, `Wrappers` | strings as the standard library sees them, decimal numbers, key order, products and quotients, Option and Result |

Text is a sequence of Unicode scalar values, each one to four bytes wide in UTF-8; byte offsets are sums of widths.
Callbacks of plugins are arbitrary functions of everything that ran before them. Time is an integer number of
nanoseconds.

## Where the code does less than one may expect

Each of these is proved as an exact condition, and where the input is not plain from the condition there is a lemma
that exhibits it.

- A plugin that is discovered again loses its mark, and its next Load registers its hooks once more. The bus holds the
  hooks of every period between discoveries in which a Load began (`BusIsWhatWasDeclared`), so they are registered at
  most once exactly when there is at most one such period (`RegisteredAtMostOnceExactlyWhen`); discover, initialise,
  discover, initialise gives two copies (`DiscoveredAgain`).
- A reload does not look at dependencies (`ReloadLoadsSafelyExactlyWhen`).
- Blocks of the kinds ToolTrace and SkillInstruction are in no line of the token breakdown, so for the function on its
  own the plain sum of estimates obeys every budget only if they carry no tokens (`WholeSumFitsExactlyWhen`). No
  assembly makes such blocks; for the kinds it does make, the sum is the total and fits (`AssembledContextFits`).
- A Summarization assembly keeps a fresh tail of two messages but expansion looks at a log with a tail of three:
  a leaf made of that one message cannot be expanded (`SummarizationNodesExpandableExactlyWhen`). The unit test at
  src/context_engine/engine.rs:1716-1769 expects a summary of two messages to be expandable; the model follows the code.
- A file comes back byte for byte from normalising and encoding exactly when it does not mix newline styles and has no
  CR on its own (`RestoredExactlyWhen`). An edit leaves the rest of a file as it was exactly when, in a CR LF file, the
  parts before and after the range have no other breaks, and in any other file no CR (`EditKeepsTheRestExactlyWhen`).
- A client that polls a shell session with the number from the last reply loses what a truncated reply left out
  (`SeesEverythingExactlyWhen`).
- The end marker of a command is recognised only if nothing unfinished stands before it on its line, and any line of
  the output that parses as an end is reported as one, with whatever id and code it names. If the output is empty or ends
  with a line break, exactly the end of the command is reported if and only if none of its lines parses as an end; if
  not, it is reported only when the command printed that very line itself (`EndNoticedExactlyWhen`, `ForgedEnd`).
- A schedule changed from an interval to another trigger keeps its next run. From then on it is triggered at most once
  more (`AtMostOneMoreTrigger`), and it can be triggered again exactly when it waits to be triggered or carries that next
  run (`FiresAgainExactlyWhen`); `SwitchedScheduleFires` is a run in which it is.
- A counter cannot pass an identifier that carries the largest 64-bit number (`IssuedFreshExactlyWhen`), and clients may
  choose session identifiers that the counter reaches later; the daemon then refuses the session
  (`CreateSession`, `NextIsFreshExactlyWhen`), once for each such identifier at most (`RefusalsAreBounded`).

## Model

| member | source | states |
|---|---|---|
| `PluginStartOrder.ResolveStartOrder` | src/core/plugin_manager.rs:626-636 | succeeds exactly when the discovered dependencies have no cycle and none is disabled; the result is a duplicate-free permutation of the discovered plugins with dependencies first; every error names a real cycle or a real disabled dependency, and "not found" is unreachable |
| `PluginStartOrder.StartOrderSearch.constructor` | src/core/plugin_manager.rs:627-629 | the search starts with nothing visited and nothing ordered |
| `PluginStartOrder.StartOrderSearch.Visit` | src/core/plugin_manager.rs:638-677 | with `visiting` a real dependency path, a visit ends with the plugin visited and the order a valid extension, or with an error whose witness exists; the recursion terminates |
| `PluginStartOrder.PathDescends` | src/core/plugin_manager.rs:638-677 | along every dependency path the position in a start order strictly falls |
| `PluginStartOrder.StartOrderExcludesFailures` | src/core/plugin_manager.rs:626-677 | a start order certifies that no cycle and no disabled dependency exists |
| `PluginStartOrder.CycleThrough` | src/core/plugin_manager.rs:648-650 | reaching a plugin that is being visited closes a real cycle through it |
| `PluginLifecycle.PluginManager.constructor` | src/core/plugin_manager.rs:113-121 | a new manager knows no plugin and has no hooks on the bus |
| `PluginLifecycle.PluginManager.Discover` | src/core/plugin_manager.rs:122-150 | the record of a discovered plugin starts over: enabled as configured, Discovered or Disabled accordingly, no stage, no error, hooks not registered; nothing else changes |
| `PluginLifecycle.PluginManager.MarkStage` | src/core/plugin_manager.rs:464-480 | a stage that begins or succeeds sets status and stage and clears the error of that plugin only |
| `PluginLifecycle.PluginManager.FailStage` | src/core/plugin_manager.rs:482-489 | a failed stage records status, stage and message of that plugin only |
| `PluginLifecycle.PluginManager.RegisterHooksOnce` | src/core/plugin_manager.rs:506-519 | registers all hooks in manifest order unless marked registered, and then marks |
| `PluginLifecycle.PluginManager.BeginStage` | src/core/plugin_manager.rs:432-435 | a stage begins, and Load first registers the hooks |
| `PluginLifecycle.PluginManager.RunStage` | src/core/plugin_manager.rs:431-460 | one stage does what the specification of a stage says, whatever the callback answers |
| `PluginLifecycle.PluginManager.RunLifecycle` | src/core/plugin_manager.rs:418-462 | the stages run in order up to the first failure |
| `PluginLifecycle.PluginManager.StartPlugin` | src/core/plugin_manager.rs:168-219 | refreshes a plugin's record, then runs Load and Startup unless it is disabled |
| `PluginLifecycle.PluginManager.StartAll` | src/core/plugin_manager.rs:168-221 | starts plugins in the given order up to the first failure |
| `PluginLifecycle.PluginManager.Initialize` | src/core/plugin_manager.rs:153-222 | a Load begins only when all discovered dependencies are Running; on success exactly the enabled plugins are Running, their callbacks having answered well; on failure the earlier plugins are settled, the failed one records the stage and what its callback said, the later ones are untouched; without a start order nothing changes; a plugin's hooks stay on the bus once if it is marked and not at all otherwise |
| `PluginLifecycle.PluginManager.Reload` | src/core/plugin_manager.rs:260-342 | shuts down and starts again, or marks disabled; unknown plugins are refused without effect |
| `PluginLifecycle.StagesRunFrame` | src/core/plugin_manager.rs:418-462 | running stages of one plugin moves no other plugin, and everything it begins is its own |
| `PluginLifecycle.StagesRunRegisters` | src/core/plugin_manager.rs:418-519 | a run of stages puts a plugin's hooks on the bus, all of them once and in order, exactly when a Load begins and the plugin is not marked |
| `PluginLifecycle.StagesRunHooks` | src/core/plugin_manager.rs:418-462 | a run of stages keeps each plugin's hooks on the bus once if it is marked and not at all otherwise |
| `PluginLifecycle.StagesRunOutcome` | src/core/plugin_manager.rs:418-462 | success leaves the last stage's name and success status and no error; failure leaves Failed with that stage's name and the message; the enabled marks stay |
| `PluginLifecycle.StagesRunAnswers` | src/core/plugin_manager.rs:418-462 | a run of stages succeeds if and only if every callback answers well; otherwise it stops at the first that does not and reports what it said |
| `PluginLifecycle.StagesRunTrace` | src/core/plugin_manager.rs:418-462 | the stages that began are all of them, or those up to the failed one |
| `PluginLifecycle.NextStartedSafely` | src/core/plugin_manager.rs:168-219 | the next plugin of a start order loads with its dependencies Running and settles or fails alone |
| `PluginLifecycle.StartedSafely` | src/core/plugin_manager.rs:153-222 | the same over the whole order, by induction |
| `PluginLifecycle.StartedAnswers` | src/core/plugin_manager.rs:153-222 | a start succeeds only if the callbacks of every enabled plugin answer well, and fails only with what a callback said |
| `PluginLifecycle.StartedRegisters` | src/core/plugin_manager.rs:153-222 | the same for a whole start, whatever fails in it |
| `PluginLifecycle.StartedHooks` | src/core/plugin_manager.rs:153-222 | so does a start, however it ends |
| `PluginLifecycle.ReloadedProperly` | src/core/plugin_manager.rs:260-342 | a reload moves only its own plugin, refreshes whether it is enabled, and reports the state it leaves it in; an unknown plugin is refused without effect |
| `PluginLifecycle.ReloadAnswers` | src/core/plugin_manager.rs:260-342 | a reload succeeds if and only if the plugin is disabled or its three callbacks answer well, and fails only with what one said |
| `PluginLifecycle.ReloadLoadsSafelyExactlyWhen` | src/core/plugin_manager.rs:260-342 | the Load of a reload finds all dependencies Running if and only if they are Running beforehand, unless the shutdown fails |
| `PluginLifecycle.ReloadsKeepHooks` | src/core/plugin_manager.rs:260-342 | so does any number of reloads |
| `PluginLifecycle.ReloadRegisters` | src/core/plugin_manager.rs:260-342 | the same for a reload |
| `PluginLifecycle.BusIsWhatWasDeclared` | src/core/plugin_manager.rs:122-342 | at any time of a manager's life the bus holds of a plugin exactly the hooks declared in each period between its discoveries in which a Load of it began, in order |
| `PluginLifecycle.RegisteredAtMostOnceExactlyWhen` | src/core/plugin_manager.rs:122-342 | over any life of discoveries, starts and reloads, a plugin's hooks on the bus never become more once they are there, if and only if a Load of it with hooks declared begins in at most one of the periods between its discoveries |
| `PluginLifecycle.DiscoveredAgain` | src/core/plugin_manager.rs:122-222 | discover, initialise, discover, initialise leaves two copies of any enabled plugin's hooks on the bus, whatever its callbacks answer |
| `ContextBudget.BreakdownTotal` | src/context_engine/engine.rs:848-881 | the total of the breakdown is the sum of all estimates but those of the two uncounted kinds |
| `ContextBudget.BreakdownStep` | src/context_engine/engine.rs:848-881 | every block is counted under exactly one heading of the breakdown, or under none if its kind is one of the two |
| `ContextBudget.CutOnceEstimate` | src/context_engine/engine.rs:1610-1619 | a cut leaves up to six words alone, leaves seven at seven, and shortens anything longer |
| `ContextBudget.CutKeepsHalf` | src/context_engine/engine.rs:1610-1619 | a cut keeps the first half of the words, at least six, and an ellipsis |
| `ContextBudget.TruncateNeverGrows` | src/context_engine/engine.rs:1522-1528 | truncation never adds tokens and keeps at most one over the limit |
| `ContextBudget.LastLinesNeverGrow` | src/context_engine/engine.rs:1568-1580 | keeping the last lines never adds tokens |
| `ContextBudget.CompactionNeverGrows` | src/context_engine/engine.rs:1562-1608 | compaction of a well-formed block keeps it well-formed and its identity, and never raises its estimate |
| `ContextBudget.CompactionKeeps` | src/context_engine/engine.rs:1562-1608 | a stage leaves the last lines of the fresh tail, the first words of a summary with an ellipsis exactly if that is not all, and other kinds as they are |
| `ContextBudget.TailThroughBothStages` | src/context_engine/engine.rs:1562-1608 | through both stages the fresh tail keeps a suffix of its words, and its last three lines if its last six survive being split again |
| `ContextBudget.EmptyLastLineIsLost` | src/context_engine/engine.rs:1592-1603 | a tail that ends with an empty line loses it between the stages and shows the three lines before it |
| `ContextBudget.StagesNeverRaise` | src/context_engine/engine.rs:921-936 | neither compaction stage raises the total of well-formed blocks |
| `ContextBudget.TrimStepProgress` | src/context_engine/engine.rs:939-966 | every round of the trimming loop makes progress, on any blocks |
| `ContextBudget.TrimStepShrinks` | src/context_engine/engine.rs:939-966 | on well-formed blocks the estimates plus the number of blocks fall every round and the total never rises |
| `ContextBudget.HardTrimFits` | src/context_engine/engine.rs:938-966 | trimming ends within the budget, on any blocks |
| `ContextBudget.BudgetRespected` | src/context_engine/engine.rs:883-993 | the total of the result never exceeds the budget, on any input |
| `ContextBudget.RetrievalSplit` | src/context_engine/engine.rs:899-911 | the blocks kept are those that are no retrieval results, in order; the ids listed are those of the others, in order |
| `ContextBudget.DropRetrieval` | src/context_engine/engine.rs:899-911 | the loop computes that split |
| `ContextBudget.RefsExactlyWhen` | src/context_engine/engine.rs:1621-1634 | the references to dropped blocks are exactly their ids and the names of what they came from |
| `ContextBudget.TrimOnce` | src/context_engine/engine.rs:940-965 | one round halves the last largest block if that changes its estimate, and otherwise drops the first block of lowest priority; nothing else changes |
| `ContextBudget.TrimHard` | src/context_engine/engine.rs:938-981 | the loop, which terminates, computes the repeated round; the clean-up after it has nothing left to do |
| `ContextBudget.EnforceBudget` | src/context_engine/engine.rs:883-993 | blocks, omitted references and level of the result are those of the staged specification |
| `ContextBudget.HardTrimTracks` | src/context_engine/engine.rs:938-966 | what trimming keeps is an order-preserving selection of which each block is whole or cut to some first words; what it drops is the beginning of the stable order by priority |
| `ContextBudget.LevelReachedExactlyWhen` | src/context_engine/engine.rs:883-993 | each level of compaction is reached if and only if nothing less fits the budget; a context that fits is returned as it is |
| `ContextBudget.BlocksConserved` | src/context_engine/engine.rs:883-993 | for every exceeded budget: kept and dropped positions are all non-retrieval positions, dropped ones first in the stable order by priority; every kept block shows what its level allows (as it was; the last six lines or first eighteen words; the last three or first ten; some first words of those); the omitted references name retrieval and dropped blocks |
| `ContextBudget.HardTrimConservesIds` | src/context_engine/engine.rs:938-966 | no block id is lost, made up or duplicated between kept and dropped |
| `ContextBudget.MinGoesFirst` | src/context_engine/engine.rs:950-957 | the block dropped has the lowest priority, and among those is the first |
| `ContextBudget.WholeSumFitsExactlyWhen` | src/context_engine/engine.rs:848-881 | as a fact about the function: the sum of all estimates obeys every budget if and only if no block of the two uncounted kinds carries tokens |
| `ContextBudget.AssembledContextFits` | src/context_engine/engine.rs:232-303 | for blocks of the kinds that an assembly makes, the sum of all estimates of the result is its total and obeys the budget |
| `EventLog.EventStore.constructor` | src/context_engine/event_store.rs:15-18 | the log starts empty |
| `EventLog.EventStore.Append` | src/context_engine/event_store.rs:21-26 | the log grows at its end, and every scope's transcript only ever gets longer |
| `EventLog.EventStore.MessageBodyRecords` | src/context_engine/event_store.rs:50-59 | the transcript is the scope's events in order, filtered for messages |
| `EventLog.TranscriptGrows` | src/context_engine/event_store.rs:32-59 | the transcript of a longer log is the transcript of the log followed by that of the rest |
| `EventLog.ScopedExactlyWhen` | src/context_engine/event_store.rs:32-48 | an event is in a scope if and only if it has the session and the task that the scope names |
| `EventLog.BodiesExactlyWhen` | src/context_engine/event_store.rs:80-131 | an event carries a message if and only if it holds text of a user or of the assistant that is more than white space; the message is that text, trimmed, with the event's id and that role |
| `EventLog.BodiesDistinct` | src/context_engine/event_store.rs:80-131 | every message comes from an event, and distinct event ids stay distinct |
| `EventLog.ScopedDistinct` | src/context_engine/event_store.rs:32-48 | a scope's view holds only log events, and distinct ids stay distinct |
| `SummaryDag.BuildMessageSummaryNodes` | src/context_engine/engine.rs:659-740 | the loops build exactly the leaves and condensed nodes of the specification, in order |
| `SummaryDag.ChunksCover` | src/context_engine/engine.rs:673 | chunks put back together give the whole list |
| `SummaryDag.LeafShows` | src/context_engine/engine.rs:673-705 | a leaf's id spells scope, level and index; its content has one line for each message, with the role and the first eighteen words |
| `SummaryDag.CondensedShows` | src/context_engine/engine.rs:707-737 | the same for a condensed node, with the first twenty-six words of each leaf |
| `SummaryDag.SummaryCovers` | src/context_engine/engine.rs:659-740 | on both levels the source ids concatenate to the summarised messages and the descendant counts add up to their number |
| `SummaryDag.SummaryAndTailAreEverything` | src/context_engine/engine.rs:1497-1505 | prefix and fresh tail are the whole transcript; the tail holds six messages for Chat, four for Planning and Execution, two for Summarization, three for Resume, or all there are |
| `SummaryDag.NodeIdInjective` | src/context_engine/engine.rs:1479-1485 | within a scope, different levels or indices never share an id |
| `SummaryDag.LookupLeaf` | src/context_engine/engine.rs:513-518 | a leaf id finds its leaf exactly when the transcript is long enough |
| `SummaryDag.LookupCondensed` | src/context_engine/engine.rs:513-518 | a condensed id finds its node exactly when there is more than one leaf and the transcript is long enough |
| `SummaryDag.CondensedSources` | src/context_engine/engine.rs:707-737 | a condensed node stands for a run of eight messages |
| `SummaryDag.NodeFoundInLonger` | src/context_engine/engine.rs:659-740 | a node is found by its id in every longer summary, covers at least what it did, and is unchanged once full |
| `SummaryDag.ShownNodesStayExpandable` | src/context_engine/engine.rs:506-552 | every node shown for Chat, Planning, Execution or Resume can be expanded on the same or any longer log, and none of its sources is lost |
| `SummaryDag.SummarizationNodesExpandableExactlyWhen` | src/context_engine/engine.rs:1497-1505 | all nodes shown for Summarization can be expanded if and only if fewer than three messages exist or the last leaf does not stand on the extra message alone |
| `SummaryDag.SegmentFoundByItsIds` | src/context_engine/engine.rs:519-523 | filtering a transcript with distinct ids by the ids of a segment gives that segment |
| `SummaryDag.ExpansionIsExact` | src/context_engine/engine.rs:506-552 | expanding a node shows exactly the consecutive messages it stands for, one line each with role, id and content: the limit of sixteen lines never cuts |
| `EventFolds.LastMeaning` | src/context_engine/engine.rs:995-1131 | the reference definition of "the last event that bears on a question" |
| `EventFolds.ActiveExactlyWhen` | src/context_engine/engine.rs:1010-1097 | a task is active if and only if its last lifecycle event started, parked or resumed it |
| `EventFolds.BlockedExactlyWhen` | src/context_engine/engine.rs:1010-1097 | a task is blocked if and only if the last event that could block or release it parked it; the blocker quotes that event |
| `EventFolds.BlockedTasksAreActive` | src/context_engine/engine.rs:1010-1097 | every blocked task is active |
| `EventFolds.GoalExactlyWhen` | src/context_engine/engine.rs:1010-1097 | a task's goal comes from the last event that names one |
| `EventFolds.PhaseExactlyWhen` | src/context_engine/engine.rs:1010-1097 | the phase comes from the last event that sets one |
| `EventFolds.SafeBoundaryExactlyWhen` | src/context_engine/engine.rs:1010-1097 | the safe boundary is the last event that completes something |
| `EventFolds.NextActionExactlyWhen` | src/context_engine/engine.rs:1010-1097 | the next action is the hint of the last parking event that gives one |
| `EventFolds.LatestGoalMeaning` | src/context_engine/engine.rs:1099-1102 | the goal shown is that of the greatest active task that has one |
| `EventFolds.DeriveTaskRuntimeState` | src/context_engine/engine.rs:995-1131 | the loop over the log computes the state that the properties below are about |
| `EventFolds.ActiveTasksShown` | src/context_engine/engine.rs:1119-1131 | the state lists, in order and once each, exactly the tasks whose last lifecycle event started, parked or resumed them |
| `EventFolds.BlockersShown` | src/context_engine/engine.rs:1119-1131 | one text for each blocked task, in task order, worded after the event that parked it last |
| `EventFolds.GoalShown` | src/context_engine/engine.rs:1099-1109 | the goal is that of the greatest active task that has one, or else the first words of what the user said last |
| `EventFolds.NextActionShown` | src/context_engine/engine.rs:1111-1117 | the next action is the last hint, or else the first words of what the assistant said last if there is a goal |
| `EventFolds.PhaseAndBoundaryShown` | src/context_engine/engine.rs:1119-1131 | phase and safe boundary come from the last event that sets them |
| `EventFolds.ArtifactsShown` | src/context_engine/engine.rs:1080-1085 | the artifacts are exactly those that some event announces under one of three keys, in order and once each |
| `EventFolds.SourcesAndRisksShown` | src/context_engine/engine.rs:1010-1097 | sources and risks are those of the events, in log order |
| `EventFolds.ApplySummaryStatusEvents` | src/context_engine/engine.rs:1271-1331 | the in-place pass stamps every summary and the checkpoint by the last event naming it, and reports the risks of invalidations |
| `EventFolds.StatusShown` | src/context_engine/engine.rs:1271-1364 | status and freshness of a summary come from the last invalidation or recomputation naming it; nothing else of it changes |
| `EventFolds.TargetsExactlyWhen` | src/context_engine/engine.rs:1333-1350 | an event names a summary if and only if its id stands under one of four keys, alone or in a list |
| `EventFolds.StatusRisksExactlyWhen` | src/context_engine/engine.rs:1285-1297 | the risks added are exactly those that invalidations of known summaries bring |
| `EventFolds.BuiltNodesAreDistinct` | src/context_engine/engine.rs:659-740 | built nodes have distinct ids, as the pass by id needs |
| `TextDocument.NewDocument` | src/builtin/tools/support.rs:56-69 | the loop records the byte offset after every line break |
| `TextDocument.LineContentIsLineText` | src/builtin/tools/support.rs:96-107 | an existing line is the text up to its line break; any other number is an error |
| `TextDocument.PositionInLine` | src/builtin/tools/support.rs:56-69 | the line/column position after a prefix agrees with the index of line starts |
| `TextDocument.PositionsGrow` | src/builtin/tools/support.rs:109-131 | later characters have later positions |
| `TextDocument.PositionResolves` | src/builtin/tools/support.rs:109-131 | every character boundary has a position that resolves to its byte offset |
| `TextDocument.ResolvedPosition` | src/builtin/tools/support.rs:109-131 | every position that resolves is that of a character boundary |
| `TextDocument.ResolvesExactlyWhen` | src/builtin/tools/support.rs:109-131 | a position resolves if and only if some character boundary is at it |
| `TextDocument.PositionErrors` | src/builtin/tools/support.rs:109-131 | a position is refused as not one-based, beyond the last line, or beyond its line, each exactly when it is |
| `TextDocument.ResolutionIsMonotone` | src/builtin/tools/support.rs:109-131 | resolution preserves and reflects the order of positions |
| `TextDocument.ReplacedText` | src/builtin/tools/support.rs:133-155 | an edit succeeds exactly for two resolvable positions in order, and then exchanges only the text between them |
| `TextDocument.ReplaceErrors` | src/builtin/tools/support.rs:133-155 | an edit is refused with the error of its start, else of its end, else because the two are in the wrong order |
| `TextDocument.PositionAfterConcat` | src/builtin/tools/support.rs:162-201 | where the position arrives when text is appended |
| `TextDocument.InsertedRangeIsExact` | src/builtin/tools/support.rs:162-201 | the reported range runs from the start of the edit to the position after the inserted text |
| `TextDocument.NewRangeDelimitsInsertion` | src/builtin/tools/support.rs:133-201 | in the re-indexed text both ends of the reported range resolve and delimit the inserted text |
| `TextDocument.EditUndo` | src/builtin/tools/support.rs:133-201 | replacing the reported range by the removed text restores the document and reports the original range |
| `TextDocument.EditFile` | src/builtin/tools/edit.rs:71-81 | an edit of a file is load, replace with normalised text, encode in the file's style |
| `TextDocument.EditErrors` | src/builtin/tools/edit.rs:71-81 | an edit of a file is refused exactly when, and with the error with which, that of its normalised text is |
| `TextDocument.EditKeepsTheRestExactlyWhen` | src/builtin/tools/edit.rs:71-81 | for any file and edit: all three parts are written in the file's style and the range reported ends where the new text does; what lies before and after the range is written back as it was if and only if neither part has a break but CR LF in a CR LF file, nor a CR in any other |
| `TextDocument.EditKeepsTheRest` | src/builtin/tools/edit.rs:71-81 | in particular everything outside the range is kept if the file mixes no styles and has no lone CR, and what was removed is the range of the original |
| `Newlines.NormalizeNewlines` | src/builtin/tools/support.rs:235-249 | the loop turns every CR LF and every lone CR into LF |
| `Newlines.DetectNewlineStyle` | src/builtin/tools/support.rs:251-276 | the scan over bytes finds the style |
| `Newlines.ScanOfBytes` | src/builtin/tools/support.rs:251-276 | scanning UTF-8 bytes sees the same line breaks as scanning characters |
| `Newlines.ScanMeaning` | src/builtin/tools/support.rs:251-276 | which of the two kinds of break the scan reports |
| `Newlines.NormalizedIdempotent` | src/builtin/tools/support.rs:235-249 | normalising twice is normalising once |
| `Newlines.NormalizedHasNoCr` | src/builtin/tools/support.rs:235-249 | no CR is left |
| `Newlines.NormalizedOfCrlf` | src/builtin/tools/support.rs:25-30 | normalising undoes CR LF encoding of CR-free text |
| `Newlines.RestoredExactlyWhen` | src/builtin/tools/support.rs:25-30 | encoding the normalised text in the detected style restores the file if and only if it mixes no styles and has no lone CR |
| `Newlines.KeptExactlyWhen` | src/builtin/tools/support.rs:25-30 | two parts around something fixed come back as a whole if and only if each of them does |
| `ShellOutput.RetainedIsLongestSuffix` | src/builtin/tools/shell.rs:159-180 | what is retained is the longest suffix of all output that fits the limit |
| `ShellOutput.RetainedAppend` | src/builtin/tools/shell.rs:159-180 | dropping before an append makes no difference after it |
| `ShellOutput.ShellSession.constructor` | src/builtin/tools/shell.rs:129-157 | a session starts with an empty buffer |
| `ShellOutput.ShellSession.AppendChunk` | src/builtin/tools/shell.rs:159-180 | appends with the next number, evicts from the front, and keeps the byte count exact; empty text changes nothing |
| `ShellOutput.ShellSession.Numbering` | src/builtin/tools/shell.rs:159-180 | retained chunks are numbered consecutively up to the newest |
| `ShellOutput.ClipTextBytes` | src/builtin/tools/shell.rs:905-920 | the longest prefix of whole characters that fits, truncated exactly when the text does not fit |
| `ShellOutput.ReadPieces` | src/builtin/tools/shell.rs:531-555 | a prefix of what is available within the limit, truncated if and only if what is available is more than the limit, and then only where the next character would not fit |
| `ShellOutput.ShellSession.Read` | src/builtin/tools/shell.rs:521-576 | the same for what came after the given number; the reply carries the newest number |
| `ShellOutput.PollingFromTheReply` | src/builtin/tools/shell.rs:568 | polling from a reply's number never returns anything that was there before, even if it was cut |
| `ShellOutput.SeesEverythingExactlyWhen` | src/builtin/tools/shell.rs:521-576 | over any run of output and polls a client has seen everything so far, in order and without gaps, if and only if no reply was cut short and no unread chunk was evicted before a poll |
| `ShellQuoting.EscapedReadsBack` | src/builtin/tools/shell.rs:922-924 | the escaped value, read inside single quotes as POSIX.1-2017 XCU 2.2 prescribes, is the value |
| `ShellQuoting.QuotedReadsBack` | src/builtin/tools/shell.rs:922-924 | for every value the quoted form reads as exactly one word, equal to the value |
| `ShellQuoting.TimeoutLineWords` | src/builtin/tools/shell.rs:868-878 | whatever the command, the timeout line consists of five words, of which the last is the command |
| `ExecMarkers.ParsedShape` | src/builtin/tools/shell.rs:841-849 | what a parsed marker line must have looked like |
| `ExecMarkers.ParseI32ExactlyWhen` | src/builtin/tools/shell.rs:841-849 | exit codes are read exactly from an optional sign, leading zeros and the digits of a 32-bit number |
| `ExecMarkers.EmittedParses` | src/builtin/tools/shell.rs:841-866 | the printed end line parses to the values printed |
| `ExecMarkers.ParseInvertsEmitExactlyWhen` | src/builtin/tools/shell.rs:841-866 | the parser inverts the printed line, read off its stream, if and only if the id has no tab or line break and the directory no line break and no final CR |
| `ExecMarkers.PumpStdout` | src/builtin/tools/shell.rs:801-839 | every line of standard output is kept in order and marked as such, except marker lines, which report the ends; a failure to read is noted as a line of its own |
| `ExecMarkers.GluedMarkerIsHidden` | src/builtin/tools/shell.rs:841-849 | a marker printed after other text on a line is not recognised |
| `ExecMarkers.SessionLines` | src/builtin/tools/shell.rs:851-866 | the lines that a run of the script prints |
| `ExecMarkers.ReportedEnds` | src/builtin/tools/shell.rs:801-866 | whatever the command printed: the ends reported are those that whole lines of the output parse as, then what the last line parses as |
| `ExecMarkers.LastLineIsTheEndExactlyWhen` | src/builtin/tools/shell.rs:841-866 | the last line is taken for the end of this command if and only if nothing unfinished stands before the marker; text that does not itself start with the end marker hides it altogether |
| `ExecMarkers.GluedIsNotTheEnd` | src/builtin/tools/shell.rs:841-849 | no text in front of the marker lets the line pass for the same end |
| `ExecMarkers.EndNoticedExactlyWhen` | src/builtin/tools/shell.rs:801-866 | for every output: if it is empty or ends with a line break, exactly the end of the command is reported if and only if none of its lines parses as an end; otherwise if and only if its whole lines report that very end once and the last line reports none |
| `ExecMarkers.PlainOutputExactlyWhen` | src/builtin/tools/shell.rs:801-866 | if no line of the output starts like a marker, the end is noticed if and only if the output is empty or ends with a line break, and then the output is kept line by line |
| `ExecMarkers.ForgedEnd` | src/builtin/tools/shell.rs:801-866 | if the output is an end line of the command's own making, that end is reported before the real one |
| `Schedules.ScheduleStore.constructor` | src/daemon/schedule_store.rs:27-36 | the store starts empty |
| `Schedules.ScheduleStore.Upsert` | src/daemon/schedule_store.rs:71-89 | writes one record: its schedule is replaced, its history kept; disabled it has no next run, enabled it keeps the one it has or gets one interval after its last run or now |
| `Schedules.ScheduleStore.Delete` | src/daemon/schedule_store.rs:91-102 | removes one record and returns it |
| `Schedules.ScheduleStore.MarkTriggered` | src/daemon/schedule_store.rs:117-131 | records the trigger and counts it; an enabled interval schedule runs next exactly one interval later, any other not; an unknown schedule changes nothing |
| `Schedules.ScheduleStore.RunDueSchedules` | src/daemon/service/session.rs:1038-1080 | one undisturbed round triggers exactly the due schedules, in id order |
| `Schedules.DueMeaning` | src/daemon/schedule_store.rs:104-115 | a scan finds exactly the enabled records whose next run has come, each once, in id order |
| `Schedules.UpsertKeepsPace` | src/daemon/schedule_store.rs:71-89 | an upsert never brings the next run closer to the last trigger than the interval |
| `Schedules.StepKeepsPace` | src/daemon/service/session.rs:1038-1080 | every step of the interleaved system keeps the pacing invariant, in which a disabled record has no next run |
| `Schedules.RunKeepsPace` | src/daemon/service/session.rs:1038-1080 | the invariant holds in every reachable state |
| `Schedules.RunStaysArmed` | src/daemon/service/session.rs:1038-1080 | in every reachable state every enabled interval schedule carries a next run |
| `Schedules.TriggerArms` | src/daemon/schedule_store.rs:117-131 | after a trigger an interval schedule runs next one interval after the scan that found it |
| `Schedules.CreationArms` | src/daemon/schedule_store.rs:71-89 | after its creation an interval schedule runs next one interval later |
| `Schedules.IntervalKeepsRunning` | src/daemon/service/session.rs:1038-1080 | in every run an unedited interval schedule runs again: the first scan at or after its next run finds it due, none before does, and by the end of that round it was triggered |
| `Schedules.TriggersAreSpaced` | src/daemon/service/session.rs:1038-1080 | any two triggers of a schedule, n apart, are at least n intervals apart, in every run |
| `Schedules.WindowBound` | src/daemon/service/session.rs:1038-1080 | a window of width W holds at most W divided by the interval, plus one, triggers of a schedule |
| `Schedules.CountIsSpread` | src/daemon/service/session.rs:1038-1080 | the number of spaced times in a window bounds its width from below |
| `Schedules.StepSpendsCharge` | src/daemon/service/session.rs:1038-1080 | for a schedule without an interval, triggers and charge (waiting or carrying a next run) together never increase in any step |
| `Schedules.AtMostOneMoreTrigger` | src/daemon/schedule_store.rs:71-162 | in every run, from a state on in which a schedule has lost its interval for good, it is triggered at most once more, and not at all unless it was waiting or carried a next run |
| `Schedules.FiresAgainExactlyWhen` | src/daemon/schedule_store.rs:71-162 | such a schedule can be triggered again if and only if it waits to be triggered or carries a left-over next run |
| `Schedules.LeftOverExactlyWhen` | src/daemon/schedule_store.rs:71-89 | an upsert without an interval hands on exactly the next run of the record it replaces, if the schedule is enabled |
| `Schedules.SwitchedScheduleFires` | src/daemon/schedule_store.rs:71-162 | a run in which a schedule that was switched from an interval to manual is triggered all the same |
| `Schedules.RoundIsScanThenTriggers` | src/daemon/service/session.rs:1038-1080 | the undisturbed round is the interleaved system's scan followed by its triggers |
| `Identity.NextAfterNumbered` | src/daemon/store.rs:453-469 | the value asked for by a numbered identifier is one past its number, saturating at the largest, and one if the number is too large to parse |
| `Identity.NextCounterValueMeaning` | src/daemon/store.rs:453-469 | an identifier asks for one more than the digits right after the prefix say, whatever follows; for one if there is no prefix, no digit or too large a number |
| `Identity.RaisedIsLeastBound` | src/daemon/store.rs:380-438 | a seeded counter is the least value that reaches one and every value asked for |
| `Identity.ListingExactlyWhen` | src/daemon/store.rs:389-438 | the scan considers, for each of the eight kinds, exactly the identifiers in the fields it looks at: session id, last turn, messages, events and their turns, task id, checkpoint reference, timeline turns and events, checkpoints and their turns, usage and billing ids |
| `Identity.SeedIsBeyond` | src/daemon/store.rs:376-450 | a seeded counter lies beyond every number below the largest in those fields |
| `Identity.IssuedFreshExactlyWhen` | src/daemon/store.rs:106-159 | the identifiers a seeded counter issues before wrapping are distinct, and none of them is persisted if and only if the one with the largest number is not |
| `Identity.IssueFollows` | src/daemon/store.rs:106-159 | what a counter of any kind issues stands in none of the scanned fields and was not issued before since the start |
| `Identity.DaemonStore.constructor` | src/daemon/store.rs:56-88 | after a start every number below the largest in a scanned field is behind the counter of its kind; the default session is there; nothing was issued yet |
| `Identity.DaemonStore.EnsureDefaultSession` | src/daemon/store.rs:367-374 | the default session is added if it is missing, and the counters are still past everything scanned |
| `Identity.DaemonStore.ReseedIdentityCounters` | src/daemon/store.rs:376-450 | each of the eight counters is past every identifier of its kind in the scanned fields of sessions, tasks, usage and billing records |
| `Identity.DaemonStore.NextBillingId` | src/daemon/store.rs:156-159 | issues the next billing number, which is persisted nowhere among the scanned fields and new since the start unless the counter is at its end |
| `Identity.DaemonStore.NextUsageId` | src/daemon/store.rs:151-154 | issues the next usage number, which is persisted nowhere among the scanned fields and new since the start unless the counter is at its end |
| `Identity.DaemonStore.NextCheckpointId` | src/daemon/store.rs:146-149 | issues the next checkpoint number, which is persisted nowhere among the scanned fields and new since the start unless the counter is at its end |
| `Identity.DaemonStore.NextEventId` | src/daemon/store.rs:126-129 | issues the next event number, which is persisted nowhere among the scanned fields and new since the start unless the counter is at its end |
| `Identity.DaemonStore.NextMessageId` | src/daemon/store.rs:121-124 | issues the next message number, which is persisted nowhere among the scanned fields and new since the start unless the counter is at its end |
| `Identity.DaemonStore.NextTurnId` | src/daemon/store.rs:111-114 | issues the next turn number, which is persisted nowhere among the scanned fields and new since the start unless the counter is at its end |
| `Identity.DaemonStore.NextTaskId` | src/daemon/store.rs:141-144 | issues the next task number, which is persisted nowhere among the scanned fields and new since the start unless the counter is at its end |
| `Identity.ScanSessions` | src/daemon/store.rs:389-408 | the maxima over all session records |
| `Identity.ScanTasks` | src/daemon/store.rs:410-432 | the maxima over all task records, continuing those of turns and events |
| `Identity.DaemonStore.CreateSession` | src/daemon/service/session.rs:4-86 | creates a session under the requested or next identifier, refuses empty and taken ones, and never replaces a session; it takes the steps of the identifier system, and a number is refused if and only if somebody chose it since the start |
| `Identity.StepStaysAhead` | src/daemon/store.rs:376-450 | every step of issuing, saving, removing and restarting keeps everything saved behind the counter, apart from what came from outside since the last start |
| `Identity.NextIsFreshExactlyWhen` | src/daemon/store.rs:376-469 | after any number of restarts the next identifier differs from all issued since the last one, and is persisted already if and only if somebody saved it from outside since then |
| `Identity.AlwaysFresh` | src/daemon/store.rs:376-469 | where every saved identifier was issued for its record, no issued identifier is persisted already |
| `Identity.RefusalsAreBounded` | src/daemon/service/session.rs:4-86 | a client that leaves the choice to the daemon is refused in a row at most once for each identifier that others chose since the last start |
| `RepeatedText.CollapseRepeatedText` | src/plugins/openai/plugin.rs:853-876 | returns the shortest unit of the trimmed text |
| `RepeatedText.RootRepeats` | src/plugins/openai/plugin.rs:853-876 | the unit repeats to the text and is no repetition itself |
| `RepeatedText.RootOfRepetition` | src/plugins/openai/plugin.rs:853-876 | whatever primitive text is sent however often, collapsing gives it back |
| `RepeatedText.CommutingWords` | src/plugins/openai/plugin.rs:870-872 | two words that commute are powers of a common word |
| `RepeatedText.CommonPowerCommutes` | src/plugins/openai/plugin.rs:870-872 | two words with a common power commute |
| `RepeatedText.CollapseIdempotent` | src/plugins/openai/plugin.rs:853-876 | the result has no outer white space, and collapsing again changes nothing |
| `Text.WordsConcat` | src/context_engine/engine.rs:1518-1520 | the words around a white-space character are the words of its two sides |
| `Text.TrimTakesOnlyWhitespace` | src/context_engine/event_store.rs:100 | trimming takes white space off both ends and nothing else |
| `Text.LinesMeaning` | src/context_engine/engine.rs:1569-1573 | a break ends a line and takes a CR before it along; text after the last break is a line |
| `Text.FirstWordsKept` | src/context_engine/engine.rs:1522-1528 | truncation keeps the first words and adds an ellipsis exactly if that is not all |
| `Text.LinesKeepWords` | src/context_engine/engine.rs:1518-1520 | splitting into lines loses and splits no word |
| `Decimal.ValueOfPrint` | src/daemon/store.rs:111-114 | a printed number reads back as itself |

## Left out

- Transports, command line and terminal rendering, HTTP and streaming calls to model providers, process spawning and signals, files and SQLite: input and output; stores are maps or sequences.
- `PluginsConfig::is_enabled` is an arbitrary predicate of id and default; src/core/plugin_manager.rs does not define it, and it does not change during a manager's life.
- Configuration references, policy flags, reload hints and the registration of a plugin's providers and tools: copied through without effect on the order or the status.
- The locks around the plugin manager and inside the stores: each operation is taken as one step.
- TrimHard: does not model the clean-up loop after trimming, because it is proved to have nothing to do.
- Overflow of 32-bit token sums and of 64-bit interval seconds and chunk numbers: naturals are used.
- Freshness and confidence of context blocks, timestamps inside records, and the text of the checkpoint node: they take part in no decision modelled here; expansion of a checkpoint node is not part of this model.
- The choice of which summary nodes and retrieval results enter a context, and the wording of prompts.
- TailThroughBothStages: promises the last three lines themselves only if the last six survive being split again; EmptyLastLineIsLost gives inputs for which they are not what is shown.
- ScheduleStore: schedules are found by id in a map, so the naming of files by id is not part of this model.
- TriggersAreSpaced: speaks of one interval kept over the run as a lower bound, because changing the interval changes the promise; the clock does not run backwards, and a round ends before the next scan, as in the daemon's single loop.
- IssuedFreshExactlyWhen: covers the identifiers before the counter wraps around at 64 bits; NextIsFreshExactlyWhen likewise, and not the identifier with the largest number, for which the former gives the condition.
- ReseedIdentityCounters: the event numbers inside the entry ids of timelines, and task and usage ids that other records refer to, are not scanned by the program and not part of the records here.
- Counters of connections, streams and subscriptions: they are not reseeded and their identifiers are not persisted.
- SessionLines: takes as given what the shell prints for the script, namely a start line, the command's output and an end line; the shell's execution is not modelled, and so neither are detached commands, whose output goes on after the end line.
- PumpStdout: takes the text up to the failure as given, and does not model the status Failed that a failure to read leaves.
- The fields of a shell session that describe executions (active, last and pending ones) and the rest of a reply to a read: plain copies.
- QuotedReadsBack: values with NUL characters are included although no shell can be given one.
- Task cancel and retry and switches of models: whole records are written without a guard, so no ordering of their states is promised.
