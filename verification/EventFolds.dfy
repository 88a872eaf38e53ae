/** What the context engine derives from the event log in one pass: the state of the tasks and the
    status of the summaries, each agreeing with "the last event that matters". */
module EventFolds {
  import opened Wrappers
  import opened Text
  import opened EventLog
  import opened SummaryDag
  import Order

  // ---- The last event that matters ----

  /** What one may ask about a history; each question singles out the events that bear on it. */
  datatype Question =
    | IsActive(task: string)
    | IsBlocked(task: string)
    | GoalOf(task: string)
    | Phase
    | SafeBoundary
    | NextAction
    | StatusOf(summaryId: string)

  predicate ConcernsTask(e: Event, task: string)
  {
    e.taskId == Some(task)
  }

  predicate EndsTask(e: Event)
  {
    e.eventType.TaskSucceeded? || e.eventType.TaskFailed? || e.eventType.TaskCancelled?
  }

  predicate Bears(e: Event, q: Question)
  {
    match q
    case IsActive(t) =>
      ConcernsTask(e, t) &&
      (e.eventType.TaskStarted? || e.eventType.TaskWaiting? || e.eventType.TaskResumed? || EndsTask(e))
    case IsBlocked(t) =>
      ConcernsTask(e, t) && (e.eventType.TaskWaiting? || e.eventType.TaskResumed? || EndsTask(e))
    case GoalOf(t) =>
      ConcernsTask(e, t) && e.eventType.TaskStarted? && e.payload.GetStr("goal").Some?
    case Phase =>
      e.eventType.TaskStarted? || e.eventType.TaskWaiting? || e.eventType.TaskResumed? || EndsTask(e)
    case SafeBoundary =>
      e.eventType.TaskCheckpointed? || e.eventType.TaskSucceeded? || e.eventType.TurnSucceeded?
    case NextAction =>
      e.eventType.TaskWaiting? && e.taskId.Some? && e.payload.GetStr("resume_hint").Some?
    case StatusOf(id) =>
      (e.eventType.SummaryInvalidated? || e.eventType.SummaryRecomputed?) && id in SummaryTargets(e)
  }

  /** The last event that bears on a question. */
  function Last(events: seq<Event>, q: Question): Option<Event>
  {
    if events == [] then None
    else if Bears(events[|events| - 1], q) then Some(events[|events| - 1])
    else Last(events[..|events| - 1], q)
  }

  /** at is the position of the last event that bears on q, or -1 when there is none. */
  lemma {:induction false} LastMeaning(events: seq<Event>, q: Question) returns (at: int)
    ensures -1 <= at < |events|
    ensures Last(events, q) == if at == -1 then None else Some(events[at])
    ensures at != -1 ==> Bears(events[at], q)
    ensures forall j :: at < j < |events| ==> !Bears(events[j], q)
  {
    hide Bears;
    at := |events| - 1;
    if events != [] && !Bears(events[at], q) {
      at := LastMeaning(events[..|events| - 1], q);
    }
  }

  // ---- The pass over the tasks ----

  datatype TaskFold = TaskFold(
    active: set<string>,
    goals: map<string, string>,
    blockers: map<string, string>,
    artifacts: set<string>,
    sources: seq<string>,
    phase: Option<string>,
    safeBoundary: Option<string>,
    nextAction: Option<string>,
    risks: seq<string>)

  const NOTHING_YET := TaskFold({}, map[], map[], {}, [], None, None, None, [])

  function BlockerText(task: string, payload: Json): string
  {
    var reason := payload.GetStr("reason").GetOr("waiting for follow-up");
    match payload.GetStr("resume_hint")
    case Some(hint) => task + ": " + reason + " | resume_hint=" + hint
    case None => task + ": " + reason
  }

  function ArtifactRefs(e: Event): seq<string>
  {
    StringsUnder(e.payload, ["artifact_id", "artifact_ref", "id"])
  }

  function StringsUnder(payload: Json, keys: seq<string>): seq<string>
  {
    if keys == [] then []
    else (match payload.GetStr(keys[0]) case Some(s) => [s] case None => []) + StringsUnder(payload, keys[1..])
  }

  function SetOf(s: seq<string>): set<string>
  {
    set x | x in s
  }

  function Step(st: TaskFold, e: Event): TaskFold
  {
    var noted := st.(sources := st.sources + [e.eventId]);
    match e.eventType
    case TaskStarted =>
      var st1 := noted.(phase := Some("running"));
      (match e.taskId
       case None => st1
       case Some(t) =>
         var st2 := st1.(active := st1.active + {t});
         match e.payload.GetStr("goal")
         case Some(goal) => st2.(goals := st2.goals[t := goal])
         case None => st2)
    case TaskWaiting =>
      var st1 := noted.(phase := Some("waiting"));
      (match e.taskId
       case None => st1
       case Some(t) =>
         var st2 := st1.(active := st1.active + {t}, blockers := st1.blockers[t := BlockerText(t, e.payload)]);
         match e.payload.GetStr("resume_hint")
         case Some(hint) => st2.(nextAction := Some(hint))
         case None => st2)
    case TaskResumed =>
      var st1 := noted.(phase := Some("running"));
      (match e.taskId
       case None => st1
       case Some(t) => st1.(active := st1.active + {t}, blockers := st1.blockers - {t}))
    case TaskCheckpointed => noted.(safeBoundary := Some(e.eventId))
    case TurnSucceeded => noted.(safeBoundary := Some(e.eventId))
    case TaskSucceeded =>
      var st1 := noted.(safeBoundary := Some(e.eventId), phase := Some("succeeded"));
      (match e.taskId
       case None => st1
       case Some(t) => st1.(active := st1.active - {t}, blockers := st1.blockers - {t}))
    case TaskFailed => Failed(noted, e)
    case TaskCancelled => Failed(noted, e)
    case ArtifactCreated => noted.(artifacts := st.artifacts + SetOf(ArtifactRefs(e)))
    case SummaryInvalidated =>
      noted.(risks := st.risks + [e.payload.GetStr("reason").GetOr("summary invalidated")])
    case _ => st
  }

  function Failed(noted: TaskFold, e: Event): TaskFold
  {
    var st1 := noted.(phase := Some("failed"));
    match e.taskId
    case None => st1
    case Some(t) =>
      st1.(active := st1.active - {t}, blockers := st1.blockers - {t},
           risks := st1.risks + [t + ": " + e.payload.GetStr("error").GetOr("task failed")])
  }

  function Folded(events: seq<Event>): TaskFold
  {
    if events == [] then NOTHING_YET else Step(Folded(events[..|events| - 1]), events[|events| - 1])
  }

  lemma StepOnActive(st: TaskFold, e: Event, task: string)
    ensures task in Step(st, e).active <==> if Bears(e, IsActive(task)) then !EndsTask(e) else task in st.active
  {
    hide BlockerText, SetOf, ArtifactRefs, SummaryTargets;
  }

  lemma StepOnBlockers(st: TaskFold, e: Event, task: string)
    ensures task in Step(st, e).blockers <==>
      if Bears(e, IsBlocked(task)) then e.eventType.TaskWaiting? else task in st.blockers
    ensures task in Step(st, e).blockers ==>
      Step(st, e).blockers[task] == if Bears(e, IsBlocked(task)) then BlockerText(task, e.payload) else st.blockers[task]
  {
    hide BlockerText, SetOf, ArtifactRefs, SummaryTargets;
  }

  /** A task is active exactly when its last lifecycle event started, parked or resumed it. */
  lemma {:induction false} ActiveExactlyWhen(events: seq<Event>, task: string)
    ensures task in Folded(events).active <==>
      match Last(events, IsActive(task)) case None => false case Some(e) => !EndsTask(e)
  {
    hide Step, Bears, EndsTask;
    if events != [] {
      var before := events[..|events| - 1];
      ActiveExactlyWhen(before, task);
      StepOnActive(Folded(before), events[|events| - 1], task);
    }
  }

  /** A task is blocked exactly when the last event that could block or unblock it parked it, and
      the blocker is worded after that event. */
  lemma {:induction false} BlockedExactlyWhen(events: seq<Event>, task: string)
    ensures var last := Last(events, IsBlocked(task));
      && (task in Folded(events).blockers <==> last.Some? && last.value.eventType.TaskWaiting?)
      && (task in Folded(events).blockers ==> Folded(events).blockers[task] == BlockerText(task, last.value.payload))
  {
    hide Step, Bears, BlockerText;
    if events != [] {
      var before := events[..|events| - 1];
      BlockedExactlyWhen(before, task);
      StepOnBlockers(Folded(before), events[|events| - 1], task);
    }
  }

  lemma {:induction false} BlockedTasksAreActive(events: seq<Event>)
    ensures Folded(events).blockers.Keys <= Folded(events).active
  {
    hide Step;
    if events != [] {
      var before, e := events[..|events| - 1], events[|events| - 1];
      BlockedTasksAreActive(before);
      forall task | task in Folded(events).blockers ensures task in Folded(events).active {
        StepOnBlockers(Folded(before), e, task);
        StepOnActive(Folded(before), e, task);
      }
    }
  }

  lemma StepOnGoals(st: TaskFold, e: Event, task: string)
    ensures task in Step(st, e).goals <==> Bears(e, GoalOf(task)) || task in st.goals
    ensures task in Step(st, e).goals ==>
      Some(Step(st, e).goals[task]) == if Bears(e, GoalOf(task)) then e.payload.GetStr("goal") else Some(st.goals[task])
  {
    hide BlockerText, SetOf, ArtifactRefs, SummaryTargets;
  }

  lemma {:induction false} GoalExactlyWhen(events: seq<Event>, task: string)
    ensures var last := Last(events, GoalOf(task));
      && (task in Folded(events).goals <==> last.Some?)
      && (last.Some? ==> Some(Folded(events).goals[task]) == last.value.payload.GetStr("goal"))
  {
    hide Step, Bears;
    if events != [] {
      var before := events[..|events| - 1];
      GoalExactlyWhen(before, task);
      StepOnGoals(Folded(before), events[|events| - 1], task);
    }
  }

  lemma FailedTouches(st: TaskFold, e: Event)
    ensures var after := Failed(st.(sources := st.sources + [e.eventId]), e);
      && after.goals == st.goals && after.nextAction == st.nextAction && after.safeBoundary == st.safeBoundary
      && after.artifacts == st.artifacts && after.phase == Some("failed")
  {
  }

  function PhaseLabel(e: Event): string
  {
    if e.eventType.TaskWaiting? then "waiting"
    else if e.eventType.TaskSucceeded? then "succeeded"
    else if EndsTask(e) then "failed"
    else "running"
  }

  /** Phase, safe boundary and next action likewise come from the last event bearing on them. */
  lemma {:induction false} PhaseExactlyWhen(events: seq<Event>)
    ensures Folded(events).phase == match Last(events, Phase) case None => None case Some(e) => Some(PhaseLabel(e))
  {
    hide BlockerText, SetOf, ArtifactRefs, SummaryTargets, Failed;
    if events != [] {
      PhaseExactlyWhen(events[..|events| - 1]);
      FailedTouches(Folded(events[..|events| - 1]), events[|events| - 1]);
    }
  }

  lemma {:induction false} SafeBoundaryExactlyWhen(events: seq<Event>)
    ensures Folded(events).safeBoundary == match Last(events, SafeBoundary) case None => None case Some(e) => Some(e.eventId)
  {
    hide BlockerText, SetOf, ArtifactRefs, SummaryTargets, Failed;
    if events != [] {
      SafeBoundaryExactlyWhen(events[..|events| - 1]);
      FailedTouches(Folded(events[..|events| - 1]), events[|events| - 1]);
    }
  }

  lemma {:induction false} NextActionExactlyWhen(events: seq<Event>)
    ensures Folded(events).nextAction == match Last(events, NextAction) case None => None case Some(e) => e.payload.GetStr("resume_hint")
  {
    hide BlockerText, SetOf, ArtifactRefs, SummaryTargets, Failed;
    if events != [] {
      NextActionExactlyWhen(events[..|events| - 1]);
      FailedTouches(Folded(events[..|events| - 1]), events[|events| - 1]);
    }
  }

  datatype TaskState = TaskState(
    activeTaskIds: seq<string>,
    latestGoal: Option<string>,
    latestPhaseLabel: Option<string>,
    openBlockers: seq<string>,
    pendingArtifactIds: seq<string>,
    sourceEventIds: seq<string>,
    lastSafeActionBoundary: Option<string>,
    nextRecommendedAction: Option<string>,
    risks: seq<string>)

  /** The goal of the last listed task that has one. */
  function LatestGoal(tasks: seq<string>, goals: map<string, string>): Option<string>
  {
    if tasks == [] then None
    else
      var t := tasks[|tasks| - 1];
      if t in goals then Some(goals[t]) else LatestGoal(tasks[..|tasks| - 1], goals)
  }

  function LastMessageOf(messages: seq<Message>, role: string): Option<Message>
  {
    if messages == [] then None
    else
      var m := messages[|messages| - 1];
      if m.role == role then Some(m) else LastMessageOf(messages[..|messages| - 1], role)
  }

  function ShortMessageOf(messages: seq<Message>, role: string, words: nat): Option<string>
  {
    match LastMessageOf(messages, role)
    case Some(m) => Some(TruncateForSummary(m.content, words))
    case None => None
  }

  function ValuesInOrder(keys: seq<string>, m: map<string, string>): seq<string>
    requires forall k :: k in keys ==> k in m
  {
    if keys == [] then [] else [m[keys[0]]] + ValuesInOrder(keys[1..], m)
  }

  function Summarised(st: TaskFold, messages: seq<Message>): TaskState
  {
    var activeTaskIds := Order.Ascending(st.active);
    var goal := LatestGoal(activeTaskIds, st.goals);
    var latestGoal := if goal.Some? then goal else ShortMessageOf(messages, "user", 24);
    var next := if latestGoal.Some? && st.nextAction.None? then ShortMessageOf(messages, "assistant", 28) else st.nextAction;
    TaskState(activeTaskIds, latestGoal, st.phase, ValuesInOrder(Order.Ascending(st.blockers.Keys), st.blockers),
              Order.Ascending(st.artifacts), st.sources, st.safeBoundary, next, st.risks)
  }

  function DerivedTaskState(events: seq<Event>, messages: seq<Message>): TaskState
  {
    Summarised(Folded(events), messages)
  }

  /** The goal shown is that of the greatest active task whose history names one. */
  lemma {:induction false} LatestGoalMeaning(tasks: seq<string>, goals: map<string, string>) returns (at: int)
    ensures -1 <= at < |tasks| && (at != -1 ==> tasks[at] in goals)
    ensures LatestGoal(tasks, goals) == if at == -1 then None else Some(goals[tasks[at]])
    ensures forall j :: at < j < |tasks| ==> tasks[j] !in goals
  {
    at := |tasks| - 1;
    if tasks != [] && tasks[at] !in goals {
      at := LatestGoalMeaning(tasks[..|tasks| - 1], goals);
    }
  }

  method DeriveTaskRuntimeState(events: seq<Event>, messages: seq<Message>) returns (r: TaskState)
    ensures r == DerivedTaskState(events, messages)
  {
    hide ArtifactRefs, BlockerText, SetOf;
    var active: set<string>, goals: map<string, string>, blockers: map<string, string> := {}, map[], map[];
    var artifacts: set<string>, sources: seq<string>, risks: seq<string> := {}, [], [];
    var phase: Option<string>, safeBoundary: Option<string>, next: Option<string> := None, None, None;
    for k := 0 to |events|
      invariant TaskFold(active, goals, blockers, artifacts, sources, phase, safeBoundary, next, risks) == Folded(events[..k])
    {
      var e := events[k];
      assert events[..k + 1][..k] == events[..k];
      match e.eventType
      case TaskStarted =>
        sources := sources + [e.eventId];
        if e.taskId.Some? {
          active := active + {e.taskId.value};
          var goal := e.payload.GetStr("goal");
          if goal.Some? { goals := goals[e.taskId.value := goal.value]; }
        }
        phase := Some("running");
      case TaskWaiting =>
        sources := sources + [e.eventId];
        if e.taskId.Some? {
          active := active + {e.taskId.value};
          blockers := blockers[e.taskId.value := BlockerText(e.taskId.value, e.payload)];
          var hint := e.payload.GetStr("resume_hint");
          if hint.Some? { next := hint; }
        }
        phase := Some("waiting");
      case TaskResumed =>
        sources := sources + [e.eventId];
        if e.taskId.Some? {
          blockers := blockers - {e.taskId.value};
          active := active + {e.taskId.value};
        }
        phase := Some("running");
      case TaskCheckpointed =>
        sources, safeBoundary := sources + [e.eventId], Some(e.eventId);
      case TurnSucceeded =>
        sources, safeBoundary := sources + [e.eventId], Some(e.eventId);
      case TaskSucceeded =>
        sources, safeBoundary := sources + [e.eventId], Some(e.eventId);
        if e.taskId.Some? {
          active, blockers := active - {e.taskId.value}, blockers - {e.taskId.value};
        }
        phase := Some("succeeded");
      case TaskFailed =>
        sources := sources + [e.eventId];
        if e.taskId.Some? {
          active, blockers := active - {e.taskId.value}, blockers - {e.taskId.value};
          risks := risks + [e.taskId.value + ": " + e.payload.GetStr("error").GetOr("task failed")];
        }
        phase := Some("failed");
      case TaskCancelled =>
        sources := sources + [e.eventId];
        if e.taskId.Some? {
          active, blockers := active - {e.taskId.value}, blockers - {e.taskId.value};
          risks := risks + [e.taskId.value + ": " + e.payload.GetStr("error").GetOr("task failed")];
        }
        phase := Some("failed");
      case ArtifactCreated =>
        sources, artifacts := sources + [e.eventId], artifacts + SetOf(ArtifactRefs(e));
      case SummaryInvalidated =>
        sources := sources + [e.eventId];
        risks := risks + [e.payload.GetStr("reason").GetOr("summary invalidated")];
      case _ =>
    }
    assert events[..|events|] == events;
    r := Summarised(TaskFold(active, goals, blockers, artifacts, sources, phase, safeBoundary, next, risks), messages);
  }

  // ---- What the derived state says ----

  ghost predicate AscendingDistinct(ids: seq<string>)
  {
    forall i, j :: 0 <= i < j < |ids| ==> ids[i] != ids[j] && Order.AtMost(ids[i], ids[j])
  }

  /** The history says of the task that it is running, parked or resumed. */
  ghost predicate SaysActive(events: seq<Event>, task: string)
  {
    var last := Last(events, IsActive(task));
    last.Some? && (last.value.eventType.TaskStarted? || last.value.eventType.TaskWaiting? || last.value.eventType.TaskResumed?)
  }

  ghost predicate SaysBlocked(events: seq<Event>, task: string)
  {
    Last(events, IsBlocked(task)).Some? && Last(events, IsBlocked(task)).value.eventType.TaskWaiting?
  }

  lemma LastBears(events: seq<Event>, q: Question)
    ensures Last(events, q).Some? ==> Last(events, q).value in events && Bears(Last(events, q).value, q)
  {
    var at := LastMeaning(events, q);
  }

  /** The active tasks are those whose last lifecycle event started, parked or resumed them, in order. */
  lemma ActiveTasksShown(events: seq<Event>, messages: seq<Message>)
    ensures var shown := DerivedTaskState(events, messages).activeTaskIds;
      AscendingDistinct(shown) && forall t :: t in shown <==> SaysActive(events, t)
  {
    hide Folded, Order.AtMost;
    forall t ensures t in Folded(events).active <==> SaysActive(events, t) {
      ActiveExactlyWhen(events, t);
      LastBears(events, IsActive(t));
    }
  }

  /** How a blocker is worded after the event that parked the task. */
  ghost predicate Worded(text: string, task: string, payload: Json)
  {
    var reason := match payload.GetStr("reason") case Some(r) => r case None => "waiting for follow-up";
    text == match payload.GetStr("resume_hint")
            case Some(hint) => task + ": " + reason + " | resume_hint=" + hint
            case None => task + ": " + reason
  }

  /** The text is worded after the event that parked the task last. */
  ghost predicate ShowsBlocker(events: seq<Event>, task: string, text: string)
  {
    SaysBlocked(events, task) && Worded(text, task, Last(events, IsBlocked(task)).value.payload)
  }

  /** One text for each blocked task, in task order, worded after the event that parked it. */
  lemma BlockersShown(events: seq<Event>, messages: seq<Message>) returns (tasks: seq<string>)
    ensures var shown := DerivedTaskState(events, messages).openBlockers;
      && AscendingDistinct(tasks) && (forall t :: t in tasks <==> SaysBlocked(events, t))
      && |shown| == |tasks|
      && forall i :: 0 <= i < |tasks| ==> ShowsBlocker(events, tasks[i], shown[i])
  {
    hide Folded, Order.AtMost, SaysBlocked, ShowsBlocker, ValuesInOrder;
    var blockers := Folded(events).blockers;
    tasks := Order.Ascending(blockers.Keys);
    forall t ensures t in blockers <==> SaysBlocked(events, t) {
      BlockerFolded(events, t);
    }
    ValuesAt(tasks, blockers);
    forall i | 0 <= i < |tasks| ensures ShowsBlocker(events, tasks[i], blockers[tasks[i]]) {
      BlockerFolded(events, tasks[i]);
    }
  }

  lemma BlockerFolded(events: seq<Event>, task: string)
    ensures var blockers := Folded(events).blockers;
      && (task in blockers <==> SaysBlocked(events, task))
      && (task in blockers ==> ShowsBlocker(events, task, blockers[task]))
  {
    hide Folded, Last;
    BlockedExactlyWhen(events, task);
  }

  lemma {:induction false} ValuesAt(keys: seq<string>, m: map<string, string>)
    requires forall k :: k in keys ==> k in m
    ensures |ValuesInOrder(keys, m)| == |keys|
    ensures forall i :: 0 <= i < |keys| ==> ValuesInOrder(keys, m)[i] == m[keys[i]]
  {
    if keys != [] {
      assert keys == [keys[0]] + keys[1..];
      ValuesAt(keys[1..], m);
    }
  }

  /** The last message of a role, or that there is none. */
  ghost predicate IsLastOf(messages: seq<Message>, role: string, at: nat)
  {
    at < |messages| && messages[at].role == role && forall i :: at < i < |messages| ==> messages[i].role != role
  }

  /** What is shown of the last message of a role: its first words, or nothing. */
  ghost predicate ShowsLastOf(shown: Option<string>, messages: seq<Message>, role: string, words: nat)
  {
    match shown
    case Some(text) => exists at: nat :: IsLastOf(messages, role, at) && KeepsFirstWords(text, messages[at].content, words)
    case None => forall i :: 0 <= i < |messages| ==> messages[i].role != role
  }

  lemma {:induction false} ShortMessageShown(messages: seq<Message>, role: string, words: nat)
    requires words > 0
    ensures ShowsLastOf(ShortMessageOf(messages, role, words), messages, role, words)
  {
    hide KeepsFirstWords, TruncateForSummary;
    if messages != [] {
      var n := |messages| - 1;
      if messages[n].role == role {
        FirstWordsKept(messages[n].content, words);
        assert IsLastOf(messages, role, n);
      } else {
        ShortMessageShown(messages[..n], role, words);
        if ShortMessageOf(messages, role, words).Some? {
          var at: nat :| IsLastOf(messages[..n], role, at)
            && KeepsFirstWords(ShortMessageOf(messages, role, words).value, messages[..n][at].content, words);
          assert IsLastOf(messages, role, at);
        }
      }
    }
  }

  /** The task is active and its history names a goal. */
  ghost predicate HasGoal(events: seq<Event>, task: string)
  {
    SaysActive(events, task) && Last(events, GoalOf(task)).Some?
  }

  ghost predicate GreatestWithGoal(events: seq<Event>, task: string)
  {
    HasGoal(events, task) && forall t :: HasGoal(events, t) ==> Order.AtMost(t, task)
  }

  /** The goal is that of the greatest active task that has one; without any, it is what the user
      said last, shortened. */
  lemma GoalShown(events: seq<Event>, messages: seq<Message>)
    ensures var goal := DerivedTaskState(events, messages).latestGoal;
      && (forall t :: GreatestWithGoal(events, t) ==> goal.Some? && goal == Last(events, GoalOf(t)).value.payload.GetStr("goal"))
      && ((exists t :: GreatestWithGoal(events, t)) || forall t :: !HasGoal(events, t))
      && ((forall t :: !HasGoal(events, t)) ==> ShowsLastOf(goal, messages, "user", 24))
  {
    hide Folded, Order.AtMost, Last, ShowsLastOf, HasGoal, LatestGoal;
    var tasks, goals := DerivedTaskState(events, messages).activeTaskIds, Folded(events).goals;
    GoalCandidates(events, messages);
    ShortMessageShown(messages, "user", 24);
    var at := LatestGoalMeaning(tasks, goals);
    if at == -1 {
      forall t ensures !HasGoal(events, t) {
        if t in tasks { var i :| 0 <= i < |tasks| && tasks[i] == t; }
      }
    } else {
      GreatestGoal(events, messages, at);
    }
  }

  lemma GoalCandidates(events: seq<Event>, messages: seq<Message>)
    ensures var tasks := DerivedTaskState(events, messages).activeTaskIds;
      forall t :: HasGoal(events, t) <==> t in tasks && t in Folded(events).goals
  {
    hide Folded, Last, SaysActive;
    ActiveTasksShown(events, messages);
    forall t ensures Last(events, GoalOf(t)).Some? <==> t in Folded(events).goals {
      GoalExactlyWhen(events, t);
    }
  }

  lemma GreatestGoal(events: seq<Event>, messages: seq<Message>, at: nat)
    requires var tasks := DerivedTaskState(events, messages).activeTaskIds;
      at < |tasks| && tasks[at] in Folded(events).goals && forall j :: at < j < |tasks| ==> tasks[j] !in Folded(events).goals
    ensures var task := DerivedTaskState(events, messages).activeTaskIds[at];
      && GreatestWithGoal(events, task) && (forall t :: GreatestWithGoal(events, t) ==> t == task)
      && Last(events, GoalOf(task)).Some?
      && Some(Folded(events).goals[task]) == Last(events, GoalOf(task)).value.payload.GetStr("goal")
  {
    hide Folded, Order.AtMost, Last, DerivedTaskState, SaysActive, HasGoal;
    var tasks := DerivedTaskState(events, messages).activeTaskIds;
    GoalCandidates(events, messages);
    ActiveTasksShown(events, messages);
    GoalExactlyWhen(events, tasks[at]);
    forall t | HasGoal(events, t) ensures Order.AtMost(t, tasks[at]) {
      var i :| 0 <= i < |tasks| && tasks[i] == t;
      Order.AtMostTotal(t, t);
    }
    forall t | GreatestWithGoal(events, t) ensures t == tasks[at] {
      Order.AtMostAntisymmetric(t, tasks[at]);
    }
  }

  /** The next action is the last hint; without one it is what the assistant said last, shortened, if
      there is a goal at all. */
  lemma NextActionShown(events: seq<Event>, messages: seq<Message>)
    ensures var state := DerivedTaskState(events, messages);
      var hinted := Last(events, NextAction);
      && (hinted.Some? ==>
           state.nextRecommendedAction.Some? && state.nextRecommendedAction == hinted.value.payload.GetStr("resume_hint"))
      && (hinted.None? && state.latestGoal.Some? ==> ShowsLastOf(state.nextRecommendedAction, messages, "assistant", 28))
      && (hinted.None? && state.latestGoal.None? ==> state.nextRecommendedAction.None?)
  {
    hide Folded, Last, ShowsLastOf;
    NextActionExactlyWhen(events);
    LastBears(events, NextAction);
    ShortMessageShown(messages, "assistant", 28);
  }

  /** Phase and safe boundary come from the last event that sets them. */
  lemma PhaseAndBoundaryShown(events: seq<Event>, messages: seq<Message>)
    ensures var state := DerivedTaskState(events, messages);
      && (match Last(events, Phase)
          case None => state.latestPhaseLabel == None
          case Some(e) =>
            && (e.eventType.TaskStarted? || e.eventType.TaskResumed? ==> state.latestPhaseLabel == Some("running"))
            && (e.eventType.TaskWaiting? ==> state.latestPhaseLabel == Some("waiting"))
            && (e.eventType.TaskSucceeded? ==> state.latestPhaseLabel == Some("succeeded"))
            && (e.eventType.TaskFailed? || e.eventType.TaskCancelled? ==> state.latestPhaseLabel == Some("failed")))
      && (match Last(events, SafeBoundary)
          case None => state.lastSafeActionBoundary == None
          case Some(e) => state.lastSafeActionBoundary == Some(e.eventId))
  {
    hide Folded, Last;
    PhaseExactlyWhen(events);
    SafeBoundaryExactlyWhen(events);
  }

  /** The event announces the artifact under one of the three keys. */
  predicate Announces(e: Event, artifact: string)
  {
    e.eventType.ArtifactCreated? &&
      (|| e.payload.GetStr("artifact_id") == Some(artifact)
       || e.payload.GetStr("artifact_ref") == Some(artifact)
       || e.payload.GetStr("id") == Some(artifact))
  }

  lemma StepOnArtifacts(st: TaskFold, e: Event, artifact: string)
    ensures artifact in Step(st, e).artifacts <==> artifact in st.artifacts || Announces(e, artifact)
  {
    hide BlockerText, SummaryTargets, StringsUnder, ArtifactRefs;
    RefsOfEvent(e, artifact);
  }

  lemma StringsUnderOne(payload: Json, key: string, rest: seq<string>, x: string)
    ensures x in StringsUnder(payload, [key] + rest) <==> payload.GetStr(key) == Some(x) || x in StringsUnder(payload, rest)
    ensures StringsUnder(payload, []) == []
  {
    assert ([key] + rest)[1..] == rest;
  }

  lemma RefsOfEvent(e: Event, artifact: string)
    ensures artifact in ArtifactRefs(e) <==>
      || e.payload.GetStr("artifact_id") == Some(artifact)
      || e.payload.GetStr("artifact_ref") == Some(artifact)
      || e.payload.GetStr("id") == Some(artifact)
  {
    hide StringsUnder;
    StringsUnderOne(e.payload, "artifact_id", ["artifact_ref", "id"], artifact);
    StringsUnderOne(e.payload, "artifact_ref", ["id"], artifact);
    StringsUnderOne(e.payload, "id", [], artifact);
    assert ["artifact_id"] + ["artifact_ref", "id"] == ["artifact_id", "artifact_ref", "id"];
    assert ["artifact_ref"] + ["id"] == ["artifact_ref", "id"] && ["id"] + [] == ["id"];
  }

  ghost predicate Announced(events: seq<Event>, artifact: string)
  {
    exists e :: e in events && Announces(e, artifact)
  }

  lemma {:induction false} ArtifactsFolded(events: seq<Event>, artifact: string)
    ensures artifact in Folded(events).artifacts <==> Announced(events, artifact)
  {
    hide Step, Announces;
    if events != [] {
      var before, e := events[..|events| - 1], events[|events| - 1];
      ArtifactsFolded(before, artifact);
      StepOnArtifacts(Folded(before), e, artifact);
      assert events == before + [e];
    }
  }

  /** The pending artifacts are those that some event announces, in order. */
  lemma ArtifactsShown(events: seq<Event>, messages: seq<Message>)
    ensures var shown := DerivedTaskState(events, messages).pendingArtifactIds;
      AscendingDistinct(shown) && forall a :: a in shown <==> Announced(events, a)
  {
    hide Folded, Order.AtMost, Announces, Announced;
    forall a ensures a in Folded(events).artifacts <==> Announced(events, a) {
      ArtifactsFolded(events, a);
    }
  }

  /** The events that the state is drawn from. */
  predicate IsSource(e: Event)
  {
    match e.eventType
    case MessageReceived => false
    case SummaryRecomputed => false
    case OtherEvent(_) => false
    case _ => true
  }

  function SourceIds(events: seq<Event>): seq<string>
  {
    if events == [] then []
    else
      var e := events[|events| - 1];
      SourceIds(events[..|events| - 1]) + if IsSource(e) then [e.eventId] else []
  }

  /** The risk an event brings: a task that failed or was cancelled, a summary that lapsed. */
  function RisksIn(e: Event): seq<string>
  {
    if (e.eventType.TaskFailed? || e.eventType.TaskCancelled?) && e.taskId.Some? then
      [e.taskId.value + ": " + match e.payload.GetStr("error") case Some(error) => error case None => "task failed"]
    else if e.eventType.SummaryInvalidated? then
      [match e.payload.GetStr("reason") case Some(reason) => reason case None => "summary invalidated"]
    else []
  }

  function AllRisks(events: seq<Event>): seq<string>
  {
    if events == [] then [] else AllRisks(events[..|events| - 1]) + RisksIn(events[|events| - 1])
  }

  lemma StepOnSources(st: TaskFold, e: Event)
    ensures Step(st, e).sources == st.sources + (if IsSource(e) then [e.eventId] else [])
    ensures Step(st, e).risks == st.risks + RisksIn(e)
  {
    hide BlockerText, SummaryTargets, SetOf, ArtifactRefs;
  }

  lemma {:induction false} SourcesAndRisksFolded(events: seq<Event>)
    ensures Folded(events).sources == SourceIds(events) && Folded(events).risks == AllRisks(events)
  {
    hide Step, IsSource, RisksIn;
    if events != [] {
      SourcesAndRisksFolded(events[..|events| - 1]);
      StepOnSources(Folded(events[..|events| - 1]), events[|events| - 1]);
    }
  }

  /** Sources and risks are those of the events, in log order. */
  lemma SourcesAndRisksShown(events: seq<Event>, messages: seq<Message>)
    ensures DerivedTaskState(events, messages).sourceEventIds == SourceIds(events)
    ensures DerivedTaskState(events, messages).risks == AllRisks(events)
  {
    hide Folded;
    SourcesAndRisksFolded(events);
  }

  // ---- Summary targets ----

  function StringsIn(items: seq<Json>): seq<string>
  {
    if items == [] then []
    else (match items[0].AsStr() case Some(s) => [s] case None => []) + StringsIn(items[1..])
  }

  function ListedUnder(payload: Json, keys: seq<string>): seq<string>
  {
    if keys == [] then []
    else (match payload.Get(keys[0]) case Some(Arr(items)) => StringsIn(items) case _ => []) + ListedUnder(payload, keys[1..])
  }

  function SummaryTargets(e: Event): seq<string>
  {
    StringsUnder(e.payload, ["summary_node_id", "summary_id"]) + ListedUnder(e.payload, ["summary_node_ids", "summary_ids"])
  }

  // ---- The pass over the summaries ----

  function InvalidationOf(e: Event): Invalidation
  {
    var status := e.payload.GetStr("status").GetOr("invalidated");
    if status == "stale" then StaleContent
    else if status == "contradicted" then Contradicted
    else if status == "active" then Active
    else Invalidated
  }

  /** What one event says about a summary it names. */
  function Stamped(node: Node, e: Event): Node
  {
    if e.eventType.SummaryInvalidated? then node.(invalidation := InvalidationOf(e), freshness := Stale)
    else node.(invalidation := Active, freshness := Fresh)
  }

  /** The status a summary ends with: that of the last event naming it. */
  function Restamped(events: seq<Event>, node: Node): Node
  {
    match Last(events, StatusOf(node.id))
    case None => node
    case Some(e) => Stamped(node, e)
  }

  lemma RestampedStep(events: seq<Event>, e: Event, node: Node)
    ensures Restamped(events + [e], node) ==
      if Bears(e, StatusOf(node.id)) then Stamped(Restamped(events, node), e) else Restamped(events, node)
  {
    assert (events + [e])[..|events|] == events;
  }

  /** Nothing else about a summary ever changes. */
  lemma OnlyStatusChanges(events: seq<Event>, node: Node)
    ensures Restamped(events, node) ==
      node.(invalidation := Restamped(events, node).invalidation, freshness := Restamped(events, node).freshness)
  {
  }

  /** The risks that invalidations of known summaries add, in event order. */
  function StatusRisks(events: seq<Event>, known: set<string>): seq<string>
  {
    if events == [] then []
    else
      var e := events[|events| - 1];
      StatusRisks(events[..|events| - 1], known)
      + if e.eventType.SummaryInvalidated? then TargetRisks(SummaryTargets(e), e, known) else []
  }

  function TargetRisks(targets: seq<string>, e: Event, known: set<string>): seq<string>
  {
    if targets == [] then []
    else
      var target := targets[|targets| - 1];
      TargetRisks(targets[..|targets| - 1], e, known)
      + if target in known then [target + ": " + e.payload.GetStr("reason").GetOr("summary invalidated")] else []
  }

  ghost predicate DistinctNodeIds(nodes: seq<Node>)
  {
    forall i, j :: 0 <= i < j < |nodes| ==> nodes[i].id != nodes[j].id
  }

  function AllRestamped(events: seq<Event>, nodes: seq<Node>): seq<Node>
  {
    seq(|nodes|, i requires 0 <= i < |nodes| => Restamped(events, nodes[i]))
  }

  /** What an invalidation says about the summaries it names. */
  ghost predicate SaysStatus(e: Event, status: Invalidation)
  {
    var said := e.payload.GetStr("status");
    && (status == StaleContent <==> said == Some("stale"))
    && (status == Contradicted <==> said == Some("contradicted"))
    && (status == Active <==> said == Some("active"))
  }

  /** The event names the summary under one of four keys, two of them for lists. */
  predicate NamesSummary(e: Event, id: string)
  {
    || e.payload.GetStr("summary_node_id") == Some(id)
    || e.payload.GetStr("summary_id") == Some(id)
    || ListsUnder(e.payload, "summary_node_ids", id)
    || ListsUnder(e.payload, "summary_ids", id)
  }

  predicate ListsUnder(payload: Json, key: string, id: string)
  {
    match payload.Get(key)
    case Some(Arr(items)) => Str(id) in items
    case _ => false
  }

  lemma {:induction false} StringsInMeaning(items: seq<Json>, id: string)
    ensures id in StringsIn(items) <==> Str(id) in items
  {
    if items != [] {
      StringsInMeaning(items[1..], id);
      assert items == [items[0]] + items[1..];
    }
  }

  lemma TargetsExactlyWhen(e: Event, id: string)
    ensures id in SummaryTargets(e) <==> NamesSummary(e, id)
  {
    hide StringsIn;
    var payload := e.payload;
    var single, listed := ["summary_node_id", "summary_id"], ["summary_node_ids", "summary_ids"];
    assert single[1..] == ["summary_id"] && single[1..][1..] == [] && StringsUnder(payload, []) == [];
    assert listed[1..] == ["summary_ids"] && listed[1..][1..] == [] && ListedUnder(payload, []) == [];
    match payload.Get("summary_node_ids") { case Some(Arr(items)) => StringsInMeaning(items, id); case _ => }
    match payload.Get("summary_ids") { case Some(Arr(items)) => StringsInMeaning(items, id); case _ => }
    assert id in StringsUnder(payload, single) <==>
      payload.GetStr("summary_node_id") == Some(id) || payload.GetStr("summary_id") == Some(id);
    assert id in ListedUnder(payload, listed) <==>
      ListsUnder(payload, "summary_node_ids", id) || ListsUnder(payload, "summary_ids", id);
  }

  /** Status and freshness of a summary come from the last invalidation or recomputation naming it;
      all else stays as it is. */
  lemma StatusShown(events: seq<Event>, node: Node)
    ensures var shown := Restamped(events, node);
      shown == node.(invalidation := shown.invalidation, freshness := shown.freshness)
      && match Last(events, StatusOf(node.id))
         case None => shown == node
         case Some(e) =>
           && NamesSummary(e, node.id) && (e.eventType.SummaryInvalidated? || e.eventType.SummaryRecomputed?)
           && (e.eventType.SummaryInvalidated? ==> shown.freshness == Stale && SaysStatus(e, shown.invalidation))
           && (e.eventType.SummaryRecomputed? ==> shown.freshness == Fresh && shown.invalidation == Active)
  {
    hide Last, SummaryTargets, NamesSummary;
    LastBears(events, StatusOf(node.id));
    if Last(events, StatusOf(node.id)).Some? {
      TargetsExactlyWhen(Last(events, StatusOf(node.id)).value, node.id);
    }
  }

  /** The event invalidates the summary and gives the reason in the risk. */
  ghost predicate BringsRisk(e: Event, id: string, risk: string)
  {
    e.eventType.SummaryInvalidated? && NamesSummary(e, id)
    && risk == id + ": " + match e.payload.GetStr("reason") case Some(reason) => reason case None => "summary invalidated"
  }

  lemma TargetRisksStep(targets: seq<string>, target: string, e: Event, known: set<string>, risk: string)
    requires e.eventType.SummaryInvalidated? && NamesSummary(e, target)
    ensures risk in TargetRisks(targets + [target], e, known) <==>
      risk in TargetRisks(targets, e, known) || (target in known && BringsRisk(e, target, risk))
  {
    hide NamesSummary;
    assert (targets + [target])[..|targets|] == targets;
  }

  lemma {:induction false} TargetRisksMeaning(targets: seq<string>, e: Event, known: set<string>, risk: string)
    requires e.eventType.SummaryInvalidated? && forall t :: t in targets ==> NamesSummary(e, t)
    ensures risk in TargetRisks(targets, e, known) <==> exists id :: id in targets && id in known && BringsRisk(e, id, risk)
  {
    if targets == [] {
      assert TargetRisks(targets, e, known) == [];
    } else {
      hide NamesSummary, BringsRisk, TargetRisks;
      var before, target := targets[..|targets| - 1], targets[|targets| - 1];
      assert targets == before + [target];
      TargetRisksMeaning(before, e, known, risk);
      TargetRisksStep(before, target, e, known, risk);
    }
  }

  /** The risks added are those that invalidations of known summaries bring. */
  lemma {:induction false} StatusRisksExactlyWhen(events: seq<Event>, known: set<string>, risk: string)
    ensures risk in StatusRisks(events, known) <==> exists e, id :: e in events && id in known && BringsRisk(e, id, risk)
  {
    hide BringsRisk, SummaryTargets, NamesSummary, TargetRisks;
    if events != [] {
      var before, e := events[..|events| - 1], events[|events| - 1];
      StatusRisksExactlyWhen(before, known, risk);
      assert events == before + [e];
      RisksOfLast(e, known, risk);
    }
  }

  lemma RisksOfLast(e: Event, known: set<string>, risk: string)
    ensures (e.eventType.SummaryInvalidated? && risk in TargetRisks(SummaryTargets(e), e, known))
      <==> exists id :: id in known && BringsRisk(e, id, risk)
  {
    hide SummaryTargets, NamesSummary, TargetRisks;
    forall id ensures id in SummaryTargets(e) <==> NamesSummary(e, id) {
      TargetsExactlyWhen(e, id);
    }
    if e.eventType.SummaryInvalidated? {
      TargetRisksMeaning(SummaryTargets(e), e, known, risk);
    }
  }

  /** The index by id that the pass writes through. */
  method IndexById(nodes: array<Node>) returns (index: map<string, nat>)
    requires DistinctNodeIds(nodes[..])
    ensures IndexOf(index, nodes[..])
  {
    index := map[];
    for i := 0 to nodes.Length
      invariant IndexOf(index, nodes[..i])
    {
      index := index[nodes[i].id := i];
      assert nodes[..i + 1] == nodes[..i] + [nodes[i]];
    }
    assert nodes[..nodes.Length] == nodes[..];
  }

  ghost predicate IndexOf(index: map<string, nat>, nodes: seq<Node>)
  {
    && (forall id :: id in index ==> index[id] < |nodes| && nodes[index[id]].id == id)
    && forall i :: 0 <= i < |nodes| ==> nodes[i].id in index && index[nodes[i].id] == i
  }

  /** The state of a node once the targets in done have been written. */
  function PartlyStamped(events: seq<Event>, e: Event, done: seq<string>, node: Node): Node
  {
    if node.id in done then Stamped(Restamped(events, node), e) else Restamped(events, node)
  }

  function AllPartlyStamped(events: seq<Event>, e: Event, done: seq<string>, nodes: seq<Node>): seq<Node>
  {
    seq(|nodes|, i requires 0 <= i < |nodes| => PartlyStamped(events, e, done, nodes[i]))
  }

  /** Writing a target into the node it names. */
  function Written(nodes: seq<Node>, index: map<string, nat>, e: Event, target: string): seq<Node>
    requires target in index ==> index[target] < |nodes|
  {
    if target in index then nodes[index[target] := Stamped(nodes[index[target]], e)] else nodes
  }

  lemma PartlyStampedStep(events: seq<Event>, e: Event, done: seq<string>, target: string, node: Node)
    ensures PartlyStamped(events, e, done, node).id == node.id
    ensures PartlyStamped(events, e, done + [target], node) ==
      if node.id == target then Stamped(PartlyStamped(events, e, done, node), e) else PartlyStamped(events, e, done, node)
  {
    hide Last;
  }

  lemma WrittenStep(events: seq<Event>, e: Event, done: seq<string>, target: string, nodes: seq<Node>, index: map<string, nat>)
    requires IndexOf(index, nodes)
    ensures Written(AllPartlyStamped(events, e, done, nodes), index, e, target)
         == AllPartlyStamped(events, e, done + [target], nodes)
  {
    hide PartlyStamped;
    forall i | 0 <= i < |nodes|
      ensures Written(AllPartlyStamped(events, e, done, nodes), index, e, target)[i]
           == PartlyStamped(events, e, done + [target], nodes[i])
    {
      PartlyStampedStep(events, e, done, target, nodes[i]);
    }
  }

  lemma AllTargetsWritten(events: seq<Event>, e: Event, nodes: seq<Node>)
    requires e.eventType.SummaryInvalidated? || e.eventType.SummaryRecomputed?
    ensures AllPartlyStamped(events, e, SummaryTargets(e), nodes) == AllRestamped(events + [e], nodes)
    ensures AllPartlyStamped(events, e, [], nodes) == AllRestamped(events, nodes)
  {
    hide Stamped, SummaryTargets, Restamped;
    forall i | 0 <= i < |nodes|
      ensures PartlyStamped(events, e, SummaryTargets(e), nodes[i]) == Restamped(events + [e], nodes[i])
    {
      RestampedStep(events, e, nodes[i]);
    }
  }

  method WriteTarget(nodes: array<Node>, index: map<string, nat>, e: Event, target: string)
    requires target in index ==> index[target] < nodes.Length
    modifies nodes
    ensures nodes[..] == Written(old(nodes[..]), index, e, target)
  {
    if target in index {
      nodes[index[target]] := Stamped(nodes[index[target]], e);
    }
  }

  method StampTargets(ghost before: seq<Event>, e: Event, nodes: array<Node>, index: map<string, nat>, ghost original: seq<Node>)
    requires e.eventType.SummaryInvalidated? || e.eventType.SummaryRecomputed?
    requires IndexOf(index, original) && nodes[..] == AllRestamped(before, original)
    modifies nodes
    ensures nodes[..] == AllRestamped(before + [e], original)
  {
    hide SummaryTargets, PartlyStamped, Restamped, Written, Last;
    AllTargetsWritten(before, e, original);
    var targets := SummaryTargets(e);
    for k := 0 to |targets|
      invariant nodes[..] == AllPartlyStamped(before, e, targets[..k], original)
    {
      WrittenStep(before, e, targets[..k], targets[k], original, index);
      assert targets[..k + 1] == targets[..k] + [targets[k]];
      WriteTarget(nodes, index, e, targets[k]);
    }
    assert targets[..|targets|] == targets;
  }

  method StampCheckpoint(ghost before: seq<Event>, e: Event, checkpoint: Node, ghost original: Node) returns (r: Node)
    requires e.eventType.SummaryInvalidated? || e.eventType.SummaryRecomputed?
    requires checkpoint == Restamped(before, original)
    ensures r == Restamped(before + [e], original)
  {
    hide SummaryTargets, PartlyStamped, Restamped, Last;
    AllTargetsWritten(before, e, [original]);
    assert AllPartlyStamped(before, e, [], [original])[0] == AllRestamped(before, [original])[0];
    r := checkpoint;
    var targets := SummaryTargets(e);
    for k := 0 to |targets|
      invariant r == PartlyStamped(before, e, targets[..k], original)
    {
      PartlyStampedStep(before, e, targets[..k], targets[k], original);
      assert targets[..k + 1] == targets[..k] + [targets[k]];
      if r.id == targets[k] {
        r := Stamped(r, e);
      }
    }
    assert targets[..|targets|] == targets;
    assert AllPartlyStamped(before, e, targets, [original])[0] == AllRestamped(before + [e], [original])[0];
  }

  function CheckpointRestamped(events: seq<Event>, checkpoint: Option<Node>): Option<Node>
  {
    match checkpoint case None => None case Some(c) => Some(Restamped(events, c))
  }

  /** Runs over the log once, writing through the index; the checkpoint is kept beside it. */
  method ApplySummaryStatusEvents(events: seq<Event>, nodes: array<Node>, checkpoint: Option<Node>, risks: seq<string>)
    returns (checkpoint': Option<Node>, risks': seq<string>)
    requires DistinctNodeIds(nodes[..])
    modifies nodes
    ensures nodes[..] == AllRestamped(events, old(nodes[..]))
    ensures checkpoint' == CheckpointRestamped(events, checkpoint)
    ensures forall i :: 0 <= i < nodes.Length ==> nodes[i] == Restamped(events, old(nodes[i]))
    ensures checkpoint' == match checkpoint case Some(c) => Some(Restamped(events, c)) case None => None
    ensures risks' == risks + StatusRisks(events, set i | 0 <= i < nodes.Length :: old(nodes[i].id))
  {
    hide SummaryTargets, Restamped, Last, TargetRisks;
    ghost var original := nodes[..];
    var index := IndexById(nodes);
    ghost var known := set i | 0 <= i < nodes.Length :: old(nodes[i].id);
    assert index.Keys == known;
    checkpoint', risks' := checkpoint, risks;
    RestampedByNothing(original, checkpoint);
    for k := 0 to |events|
      invariant nodes[..] == AllRestamped(events[..k], original)
      invariant checkpoint' == CheckpointRestamped(events[..k], checkpoint)
      invariant risks' == risks + StatusRisks(events[..k], known)
    {
      var e := events[k];
      assert events[..k + 1] == events[..k] + [e];
      assert events[..k + 1][..k] == events[..k];
      if e.eventType.SummaryInvalidated? || e.eventType.SummaryRecomputed? {
        StampTargets(events[..k], e, nodes, index, original);
        if checkpoint'.Some? {
          var stamped := StampCheckpoint(events[..k], e, checkpoint'.value, checkpoint.value);
          checkpoint' := Some(stamped);
        }
        if e.eventType.SummaryInvalidated? {
          var more := CollectRisks(e, index);
          risks' := risks' + more;
        }
      } else {
        OtherEventsDoNotStamp(events[..k], e, original, checkpoint);
      }
    }
    assert events[..|events|] == events;
    forall i | 0 <= i < nodes.Length ensures nodes[i] == Restamped(events, old(nodes[i])) {
      assert nodes[i] == nodes[..][i] && old(nodes[i]) == original[i];
    }
  }

  method CollectRisks(e: Event, index: map<string, nat>) returns (risks: seq<string>)
    ensures risks == TargetRisks(SummaryTargets(e), e, index.Keys)
  {
    hide SummaryTargets;
    risks := [];
    var targets := SummaryTargets(e);
    for k := 0 to |targets|
      invariant risks == TargetRisks(targets[..k], e, index.Keys)
    {
      assert targets[..k + 1][..k] == targets[..k];
      if targets[k] in index {
        risks := risks + [targets[k] + ": " + e.payload.GetStr("reason").GetOr("summary invalidated")];
      }
    }
    assert targets[..|targets|] == targets;
  }

  lemma RestampedByNothing(nodes: seq<Node>, checkpoint: Option<Node>)
    ensures AllRestamped([], nodes) == nodes && CheckpointRestamped([], checkpoint) == checkpoint
  {
  }

  lemma OtherEventsDoNotStamp(events: seq<Event>, e: Event, nodes: seq<Node>, checkpoint: Option<Node>)
    requires !e.eventType.SummaryInvalidated? && !e.eventType.SummaryRecomputed?
    ensures AllRestamped(events + [e], nodes) == AllRestamped(events, nodes)
    ensures CheckpointRestamped(events + [e], checkpoint) == CheckpointRestamped(events, checkpoint)
  {
    hide Restamped, Stamped;
    forall i | 0 <= i < |nodes| ensures Restamped(events + [e], nodes[i]) == Restamped(events, nodes[i]) {
      RestampedStep(events, e, nodes[i]);
    }
    if checkpoint.Some? { RestampedStep(events, e, checkpoint.value); }
  }

  /** The nodes of a summary can be told apart by their ids, as the pass needs. */
  lemma BuiltNodesAreDistinct(scope: Scope, messages: seq<Message>)
    ensures DistinctNodeIds(Nodes(scope, messages))
  {
    hide Nodes, NodeId, Leaves;
    var nodes, leaves := Nodes(scope, messages), |Leaves(scope, messages)|;
    forall i, j | 0 <= i < j < |nodes| ensures nodes[i].id != nodes[j].id {
      NodeIdAt(scope, messages, i);
      NodeIdAt(scope, messages, j);
      if nodes[i].id == nodes[j].id {
        NodeIdInjective(scope, if i < leaves then "leaf" else "condensed", if i < leaves then i else i - leaves,
                        if j < leaves then "leaf" else "condensed", if j < leaves then j else j - leaves);
      }
    }
  }
}
