/** The status machine of the plugin manager: discovery, the initial start in dependency order,
    reloads, and the hooks each plugin registers on its way. */
module PluginLifecycle {
  import opened Wrappers
  import opened PluginStartOrder

  datatype Status = Discovered | Disabled | Loading | Loaded | Starting | Running | Stopping | Stopped | Failed

  datatype Stage = Load | Startup | Shutdown {
    function Label(): string {
      match this case Load => "load" case Startup => "startup" case Shutdown => "shutdown"
    }

    function Status(): Status {
      match this case Load => Loading case Startup => Starting case Shutdown => Stopping
    }

    function SuccessStatus(): Status {
      match this case Load => Loaded case Startup => Running case Shutdown => Stopped
    }
  }

  datatype RuntimeRecord = RuntimeRecord(
    status: Status,
    enabled: bool,
    defaultEnabled: bool,
    lastStage: Option<string>,
    lastError: Option<string>,
    hooksRegistered: bool)

  type Runtime = map<PluginId, RuntimeRecord>

  datatype HookRegistration = HookRegistration(pluginId: PluginId, point: string)

  datatype LifecycleError =
    | NoStartOrder(cause: StartOrderError)
    | UnknownPlugin(id: PluginId)
    | StageFailed(plugin: PluginId, stage: Stage, message: string)

  /** What an observer sees when a stage begins: who, which stage, and everybody's status. */
  datatype StageStart = StageStart(plugin: PluginId, stage: Stage, statuses: map<PluginId, Status>)

  /** The outcome of a plugin's callback. It may depend on everything that ran before it: the
      last argument counts the callbacks run so far. */
  type Callbacks = (PluginId, Stage, nat) -> Option<string>

  /** What a run does not change. */
  datatype Setup = Setup(discovered: Discovered, config: PluginsConfig, callbacks: Callbacks) {
    ghost predicate Valid() {
      forall p :: p in discovered ==> discovered[p].manifest.id == p
    }

    predicate On(id: PluginId)
      requires id in discovered
    {
      Enabled(discovered, config, id)
    }
  }

  /** What a run changes; trace is the history of begun stages. */
  datatype World = World(runtime: Runtime, hooks: seq<HookRegistration>, callbacksRun: nat, trace: seq<StageStart>)

  // ---- The specification: one stage, a plugin's stages, a whole start ----

  function Statuses(runtime: Runtime): map<PluginId, Status>
  {
    map p | p in runtime :: runtime[p].status
  }

  function Begun(record: RuntimeRecord, status: Status, stage: Stage): RuntimeRecord
  {
    record.(status := status, lastStage := Some(stage.Label()), lastError := None)
  }

  function FailedAt(record: RuntimeRecord, stage: Stage, message: string): RuntimeRecord
  {
    record.(status := Failed, lastStage := Some(stage.Label()), lastError := Some(message))
  }

  function Registrations(id: PluginId, points: seq<string>): seq<HookRegistration>
  {
    seq(|points|, i requires 0 <= i < |points| => HookRegistration(id, points[i]))
  }

  function WithHooks(s: Setup, w: World, id: PluginId): World
    requires id in s.discovered && id in w.runtime
  {
    if w.runtime[id].hooksRegistered then w
    else w.(runtime := w.runtime[id := w.runtime[id].(hooksRegistered := true)],
            hooks := w.hooks + Registrations(s.discovered[id].manifest.id, s.discovered[id].manifest.hooks))
  }

  function StageBegun(s: Setup, w: World, id: PluginId, stage: Stage): World
    requires id in s.discovered && id in w.runtime
  {
    var begun := w.(runtime := w.runtime[id := Begun(w.runtime[id], stage.Status(), stage)],
                    trace := w.trace + [StageStart(id, stage, Statuses(w.runtime))]);
    if stage == Load then WithHooks(s, begun, id) else begun
  }

  function StageRun(s: Setup, w: World, id: PluginId, stage: Stage): (World, Option<string>)
    requires id in s.discovered && id in w.runtime
  {
    var begun := StageBegun(s, w, id, stage);
    var outcome := s.callbacks(id, stage, begun.callbacksRun);
    var record := if outcome.None? then Begun(begun.runtime[id], stage.SuccessStatus(), stage)
                  else FailedAt(begun.runtime[id], stage, outcome.value);
    (begun.(runtime := begun.runtime[id := record], callbacksRun := begun.callbacksRun + 1), outcome)
  }

  function StagesRun(s: Setup, w: World, id: PluginId, stages: seq<Stage>): (World, Result<(), LifecycleError>)
    requires id in s.discovered && id in w.runtime
    decreases |stages|
  {
    if stages == [] then (w, Ok(()))
    else
      var (w', outcome) := StageRun(s, w, id, stages[0]);
      if outcome.Some? then (w', Err(StageFailed(id, stages[0], outcome.value)))
      else StagesRun(s, w', id, stages[1..])
  }

  function Refreshed(s: Setup, record: RuntimeRecord, id: PluginId): RuntimeRecord
    requires id in s.discovered
  {
    var r := record.(enabled := s.On(id), defaultEnabled := s.discovered[id].defaultEnabled);
    if r.enabled then r else r.(status := Disabled, lastStage := None, lastError := None)
  }

  function PluginStarted(s: Setup, w: World, id: PluginId): (World, Result<(), LifecycleError>)
    requires id in s.discovered && id in w.runtime
  {
    var w' := w.(runtime := w.runtime[id := Refreshed(s, w.runtime[id], id)]);
    if s.On(id) then StagesRun(s, w', id, [Load, Startup]) else (w', Ok(()))
  }

  function Started(s: Setup, w: World, ids: seq<PluginId>): (World, Result<(), LifecycleError>)
    requires w.runtime.Keys == s.discovered.Keys
    requires forall p :: p in ids ==> p in s.discovered
    decreases |ids|
  {
    if ids == [] then (w, Ok(()))
    else
      var (w', r) := PluginStarted(s, w, ids[0]);
      PluginStartedFrame(s, w, ids[0]);
      if r.Err? then (w', r) else Started(s, w', ids[1..])
  }

  // ---- What a plugin's stages keep ----

  /** The hook points a plugin holds on the bus, in registration order. */
  function HooksOf(bus: seq<HookRegistration>, id: PluginId): seq<string>
  {
    if bus == [] then []
    else (if bus[0].pluginId == id then [bus[0].point] else []) + HooksOf(bus[1..], id)
  }

  lemma {:induction false} HooksOfConcat(a: seq<HookRegistration>, b: seq<HookRegistration>, id: PluginId)
    ensures HooksOf(a + b, id) == HooksOf(a, id) + HooksOf(b, id)
  {
    if a == [] {
      assert a + b == b;
    } else {
      assert (a + b)[1..] == a[1..] + b;
      HooksOfConcat(a[1..], b, id);
    }
  }

  lemma {:induction false} HooksOfRegistrations(id: PluginId, points: seq<string>, q: PluginId)
    ensures HooksOf(Registrations(id, points), q) == if q == id then points else []
  {
    if points != [] {
      assert Registrations(id, points)[1..] == Registrations(id, points[1..]);
      HooksOfRegistrations(id, points[1..], q);
      assert points == [points[0]] + points[1..];
    }
  }

  /** A plugin's hooks are on the bus once if it is marked so, and not at all otherwise. */
  ghost predicate HooksOnce(s: Setup, w: World)
  {
    && w.runtime.Keys == s.discovered.Keys
    && forall p :: HooksOf(w.hooks, p) ==
         if p in w.runtime && w.runtime[p].hooksRegistered then s.discovered[p].manifest.hooks else []
  }

  /** From w to w' only plugin id has moved, and every new trace entry is a stage of id. */
  ghost predicate OnlyMoves(w: World, w': World, id: PluginId)
  {
    && w'.runtime.Keys == w.runtime.Keys
    && (forall q :: q in w.runtime && q != id ==> w'.runtime[q] == w.runtime[q])
    && w.trace <= w'.trace
    && forall i :: |w.trace| <= i < |w'.trace| ==> StageOf(w, w'.trace[i], id)
  }

  ghost predicate StageOf(w: World, start: StageStart, id: PluginId)
  {
    && start.plugin == id && start.statuses.Keys == w.runtime.Keys
    && forall q :: q in w.runtime && q != id ==> start.statuses[q] == w.runtime[q].status
  }

  lemma StageRunFrame(s: Setup, w: World, id: PluginId, stage: Stage)
    requires id in s.discovered && id in w.runtime
    ensures OnlyMoves(w, StageRun(s, w, id, stage).0, id)
    ensures StageRun(s, w, id, stage).0.trace == w.trace + [StageStart(id, stage, Statuses(w.runtime))]
  {
  }

  lemma {:induction false} StagesRunFrame(s: Setup, w: World, id: PluginId, stages: seq<Stage>)
    requires id in s.discovered && id in w.runtime
    ensures OnlyMoves(w, StagesRun(s, w, id, stages).0, id)
    decreases |stages|
  {
    if stages != [] {
      StageRunFrame(s, w, id, stages[0]);
      var (w', outcome) := StageRun(s, w, id, stages[0]);
      if outcome.None? {
        StagesRunFrame(s, w', id, stages[1..]);
        var w'' := StagesRun(s, w', id, stages[1..]).0;
        forall i | |w.trace| <= i < |w''.trace| ensures StageOf(w, w''.trace[i], id) {
          if i < |w'.trace| {
            assert w''.trace[i] == w'.trace[i];
          } else {
            assert StageOf(w', w''.trace[i], id);
          }
        }
      }
    }
  }

  predicate Marked(w: World, id: PluginId)
  {
    id in w.runtime && w.runtime[id].hooksRegistered
  }

  /** A Load of the plugin begins on the way from w to w'. */
  ghost predicate LoadBetween(w: World, w': World, id: PluginId)
  {
    exists i :: |w.trace| <= i < |w'.trace| && w'.trace[i].plugin == id && w'.trace[i].stage == Load
  }

  /** What a way from w to w' without discoveries does to a plugin's hooks: they go onto the bus, all
      of them once and in order, exactly if a Load begins and the plugin was not marked before. */
  ghost predicate BusGrows(s: Setup, w: World, w': World, id: PluginId)
  {
    && w.trace <= w'.trace
    && (LoadBetween(w, w', id) ==> id in s.discovered)
    && HooksOf(w'.hooks, id) == HooksOf(w.hooks, id) +
         (if LoadBetween(w, w', id) && !Marked(w, id) then s.discovered[id].manifest.hooks else [])
    && (Marked(w', id) <==> Marked(w, id) || LoadBetween(w, w', id))
  }

  ghost predicate Registers(s: Setup, w: World, w': World, id: PluginId)
  {
    w'.runtime.Keys == w.runtime.Keys && BusGrows(s, w, w', id)
  }

  lemma RegistersTransitive(s: Setup, w: World, w': World, w'': World, id: PluginId)
    requires Registers(s, w, w', id) && Registers(s, w', w'', id)
    ensures Registers(s, w, w'', id)
  {
    hide HooksOf;
    LoadBetweenSplit(w, w', w'', id);
  }

  lemma LoadBetweenSplit(w: World, w': World, w'': World, id: PluginId)
    requires w.trace <= w'.trace <= w''.trace
    ensures LoadBetween(w, w'', id) <==> LoadBetween(w, w', id) || LoadBetween(w', w'', id)
  {
    assert forall i :: 0 <= i < |w'.trace| ==> w''.trace[i] == w'.trace[i];
    if LoadBetween(w, w', id) {
      var i :| |w.trace| <= i < |w'.trace| && w'.trace[i].plugin == id && w'.trace[i].stage == Load;
      assert w''.trace[i].plugin == id && w''.trace[i].stage == Load;
    }
  }

  /** Editing one record without touching its mark. */
  lemma RegistersEdit(s: Setup, w: World, id: PluginId, record: RuntimeRecord, p: PluginId)
    requires id in w.runtime && record.hooksRegistered == w.runtime[id].hooksRegistered
    ensures Registers(s, w, w.(runtime := w.runtime[id := record]), p)
  {
    hide HooksOf;
  }

  lemma StageRunRegisters(s: Setup, w: World, id: PluginId, stage: Stage, p: PluginId)
    requires s.Valid() && id in s.discovered && id in w.runtime
    ensures Registers(s, w, StageRun(s, w, id, stage).0, p)
  {
    hide HooksOf, Registrations;
    StageRunFrame(s, w, id, stage);
    var w' := StageRun(s, w, id, stage).0;
    var points := s.discovered[id].manifest.hooks;
    assert w'.trace[|w.trace|].stage == stage && w'.trace[|w.trace|].plugin == id;
    HooksOfConcat(w.hooks, Registrations(id, points), p);
    HooksOfRegistrations(id, points, p);
  }

  /** A run of stages, whatever fails in it, registers hooks exactly when it begins the first Load. */
  lemma {:induction false} StagesRunRegisters(s: Setup, w: World, id: PluginId, stages: seq<Stage>, p: PluginId)
    requires s.Valid() && id in s.discovered && id in w.runtime
    ensures Registers(s, w, StagesRun(s, w, id, stages).0, p)
    decreases |stages|
  {
    hide HooksOf, StageRun, Registers;
    if stages == [] {
      RegistersNothing(s, w, p);
    } else {
      StageRunFrame(s, w, id, stages[0]);
      StageRunRegisters(s, w, id, stages[0], p);
      var (w', outcome) := StageRun(s, w, id, stages[0]);
      if outcome.None? {
        StagesRunRegisters(s, w', id, stages[1..], p);
        RegistersTransitive(s, w, w', StagesRun(s, w', id, stages[1..]).0, p);
      }
    }
  }

  lemma RegistersNothing(s: Setup, w: World, p: PluginId)
    ensures Registers(s, w, w, p)
  {
    hide HooksOf;
  }

  lemma RegisteringKeepsHooksOnce(s: Setup, w: World, w': World)
    requires HooksOnce(s, w) && forall p :: Registers(s, w, w', p)
    ensures HooksOnce(s, w')
  {
    hide HooksOf, LoadBetween;
    assert Registers(s, w, w', "");
    forall p ensures HooksOf(w'.hooks, p) ==
      if p in w'.runtime && w'.runtime[p].hooksRegistered then s.discovered[p].manifest.hooks else []
    {
      assert Registers(s, w, w', p);
    }
  }

  /** No run of stages, whatever fails in it, registers a plugin's hooks a second time. */
  lemma StagesRunHooks(s: Setup, w: World, id: PluginId, stages: seq<Stage>)
    requires s.Valid() && id in s.discovered && HooksOnce(s, w)
    ensures HooksOnce(s, StagesRun(s, w, id, stages).0)
  {
    hide StagesRun, Registers, HooksOf;
    forall p ensures Registers(s, w, StagesRun(s, w, id, stages).0, p) {
      StagesRunRegisters(s, w, id, stages, p);
    }
    RegisteringKeepsHooksOnce(s, w, StagesRun(s, w, id, stages).0);
  }

  /** What the plugin's own record says afterwards. */
  predicate IsNamed(stage: Stage, name: Option<string>)
  {
    match stage
    case Load => name == Some("load")
    case Startup => name == Some("startup")
    case Shutdown => name == Some("shutdown")
  }

  lemma {:induction false} StagesRunOutcome(s: Setup, w: World, id: PluginId, stages: seq<Stage>)
    requires id in s.discovered && id in w.runtime && stages != []
    ensures var (w', r) := StagesRun(s, w, id, stages);
      && id in w'.runtime
      && w'.runtime[id].enabled == w.runtime[id].enabled && w'.runtime[id].defaultEnabled == w.runtime[id].defaultEnabled
      && (r.Ok? ==>
           && w'.runtime[id].status == stages[|stages| - 1].SuccessStatus()
           && IsNamed(stages[|stages| - 1], w'.runtime[id].lastStage)
           && w'.runtime[id].lastError == None)
      && (r.Err? ==>
           && r.error.StageFailed? && r.error.plugin == id && r.error.stage in stages
           && w'.runtime[id].status == Failed
           && IsNamed(r.error.stage, w'.runtime[id].lastStage)
           && w'.runtime[id].lastError == Some(r.error.message))
    decreases |stages|
  {
    var (w1, outcome) := StageRun(s, w, id, stages[0]);
    if outcome.None? && |stages| > 1 {
      StagesRunOutcome(s, w1, id, stages[1..]);
    }
  }

  /** The callbacks of all the stages answer well, counted from the n-th callback on. */
  ghost predicate AllAnswerWell(s: Setup, id: PluginId, stages: seq<Stage>, n: nat)
  {
    forall k: nat :: k < |stages| ==> s.callbacks(id, stages[k], n + k).None?
  }

  /** The k-th stage is the first whose callback fails, and the error says how. */
  ghost predicate FailsAt(s: Setup, id: PluginId, stages: seq<Stage>, n: nat, e: LifecycleError, k: nat)
  {
    && k < |stages| && s.callbacks(id, stages[k], n + k).Some?
    && e == StageFailed(id, stages[k], s.callbacks(id, stages[k], n + k).value)
    && forall j: nat :: j < k ==> s.callbacks(id, stages[j], n + j).None?
  }

  lemma AnswersOfMore(s: Setup, id: PluginId, stages: seq<Stage>, n: nat)
    requires stages != []
    ensures AllAnswerWell(s, id, stages, n) <==>
      s.callbacks(id, stages[0], n).None? && AllAnswerWell(s, id, stages[1..], n + 1)
  {
    var rest := stages[1..];
    if AllAnswerWell(s, id, stages, n) {
      forall k: nat | k < |rest| ensures s.callbacks(id, rest[k], n + 1 + k).None? {
        assert s.callbacks(id, stages[k + 1], n + (k + 1)).None?;
      }
    }
    if s.callbacks(id, stages[0], n).None? && AllAnswerWell(s, id, rest, n + 1) {
      forall k: nat | k < |stages| ensures s.callbacks(id, stages[k], n + k).None? {
        if k > 0 { assert s.callbacks(id, rest[k - 1], n + 1 + (k - 1)).None?; }
      }
    }
  }

  lemma FailsLater(s: Setup, id: PluginId, stages: seq<Stage>, n: nat, e: LifecycleError, k: nat)
    requires stages != [] && s.callbacks(id, stages[0], n).None? && FailsAt(s, id, stages[1..], n + 1, e, k)
    ensures FailsAt(s, id, stages, n, e, k + 1)
  {
    var rest := stages[1..];
    forall j: nat | j < k + 1 ensures s.callbacks(id, stages[j], n + j).None? {
      if j > 0 { assert s.callbacks(id, rest[j - 1], n + 1 + (j - 1)).None?; }
    }
  }

  /** The callbacks decide: a run of stages succeeds if and only if each answers well, and otherwise
      stops at the first that does not and reports what it said. */
  lemma {:induction false} StagesRunAnswers(s: Setup, w: World, id: PluginId, stages: seq<Stage>)
    requires id in s.discovered && id in w.runtime
    ensures var r := StagesRun(s, w, id, stages).1;
      && (r.Ok? <==> AllAnswerWell(s, id, stages, w.callbacksRun))
      && (r.Err? ==> exists k: nat :: FailsAt(s, id, stages, w.callbacksRun, r.error, k))
    decreases |stages|
  {
    hide StageRun;
    if stages != [] {
      CallbacksCounted(s, w, id, stages[0]);
      StageRunFrame(s, w, id, stages[0]);
      var (w1, outcome) := StageRun(s, w, id, stages[0]);
      hide AllAnswerWell;
      AnswersOfMore(s, id, stages, w.callbacksRun);
      if outcome.None? {
        StagesRunAnswers(s, w1, id, stages[1..]);
        var r := StagesRun(s, w1, id, stages[1..]).1;
        if r.Err? {
          var k: nat :| FailsAt(s, id, stages[1..], w1.callbacksRun, r.error, k);
          FailsLater(s, id, stages, w.callbacksRun, r.error, k);
        }
      } else {
        assert FailsAt(s, id, stages, w.callbacksRun, StageFailed(id, stages[0], outcome.value), 0);
      }
    }
  }

  lemma CallbacksCounted(s: Setup, w: World, id: PluginId, stage: Stage)
    requires id in s.discovered && id in w.runtime
    ensures StageRun(s, w, id, stage).0.callbacksRun == w.callbacksRun + 1
    ensures StageRun(s, w, id, stage).1 == s.callbacks(id, stage, w.callbacksRun)
  {
  }

  /** Which stages have begun: all of them, or those up to the one that failed. */
  lemma {:induction false} StagesRunTrace(s: Setup, w: World, id: PluginId, stages: seq<Stage>) returns (begun: nat)
    requires id in s.discovered && id in w.runtime
    ensures var (w', r) := StagesRun(s, w, id, stages);
      && begun <= |stages| && w.trace <= w'.trace
      && |w'.trace| == |w.trace| + begun
      && (forall i :: 0 <= i < begun ==> w'.trace[|w.trace| + i].stage == stages[i])
      && (r.Ok? ==> begun == |stages|)
      && (r.Err? ==> begun > 0 && r.error.StageFailed? && stages[begun - 1] == r.error.stage)
    decreases |stages|
  {
    hide StageRun;
    begun := 0;
    if stages != [] {
      StageRunFrame(s, w, id, stages[0]);
      var (w1, outcome) := StageRun(s, w, id, stages[0]);
      var rest := 0;
      if outcome.None? {
        rest := StagesRunTrace(s, w1, id, stages[1..]);
        var w' := StagesRun(s, w1, id, stages[1..]).0;
        assert w'.trace[|w.trace|] == w1.trace[|w.trace|];
        forall i | 0 < i < 1 + rest ensures w'.trace[|w.trace| + i].stage == stages[i] {
          assert w'.trace[|w1.trace| + (i - 1)].stage == stages[1..][i - 1];
        }
      }
      begun := 1 + rest;
    }
  }

  // ---- What a whole start guarantees ----

  /** A Load that begins finds all discovered dependencies of its plugin Running. */
  ghost predicate SafeStart(discovered: Discovered, start: StageStart)
  {
    start.stage == Load ==>
      forall b :: Depends(discovered, start.plugin, b) ==> b in start.statuses && start.statuses[b] == Running
  }

  /** The status a started plugin ends with. */
  function Settled(s: Setup, id: PluginId): Status
    requires id in s.discovered
  {
    if s.On(id) then Running else Disabled
  }

  /** What the record of a plugin says that was started, or found to be disabled. */
  ghost predicate RecordSettled(s: Setup, record: RuntimeRecord, id: PluginId)
    requires id in s.discovered
  {
    && record.enabled == s.On(id) && record.defaultEnabled == s.discovered[id].defaultEnabled && record.lastError == None
    && (if s.On(id) then IsNamed(Startup, record.lastStage) else record.lastStage == None)
  }

  ghost predicate AllSettled(s: Setup, w: World, ids: seq<PluginId>)
  {
    forall p :: p in ids ==>
      && p in s.discovered && p in w.runtime
      && w.runtime[p].status == Settled(s, p) && RecordSettled(s, w.runtime[p], p)
  }

  /** The k-th plugin of a start order has only enabled dependencies, all earlier in the order. */
  lemma DependenciesSettled(s: Setup, w: World, order: seq<PluginId>, k: nat, start: StageStart)
    requires IsStartOrder(s.discovered, s.config, order) && k < |order| && AllSettled(s, w, order[..k])
    requires order[k] in w.runtime && StageOf(w, start, order[k])
    ensures SafeStart(s.discovered, start)
  {
    assert DependenciesAmong(s.discovered, s.config, order[k], order[..k]);
    assert order[k] !in order[..k];
  }

  lemma PluginStartedFrame(s: Setup, w: World, id: PluginId)
    requires id in s.discovered && id in w.runtime
    ensures OnlyMoves(w, PluginStarted(s, w, id).0, id)
  {
    var w1 := w.(runtime := w.runtime[id := Refreshed(s, w.runtime[id], id)]);
    if s.On(id) {
      StagesRunFrame(s, w1, id, [Load, Startup]);
      EditThenMove(w, w1.runtime[id], StagesRun(s, w1, id, [Load, Startup]).0, id);
    }
  }

  lemma PluginStartedOutcome(s: Setup, w: World, id: PluginId)
    requires id in s.discovered && id in w.runtime
    ensures var (w', r) := PluginStarted(s, w, id);
      && id in w'.runtime
      && (r.Ok? ==> w'.runtime[id].status == Settled(s, id) && RecordSettled(s, w'.runtime[id], id))
      && (r.Err? ==> r.error.StageFailed? && r.error.plugin == id && FailureRecorded(w', r.error))
  {
    if s.On(id) {
      var w1 := w.(runtime := w.runtime[id := Refreshed(s, w.runtime[id], id)]);
      StagesRunOutcome(s, w1, id, [Load, Startup]);
    }
  }

  /** A plugin's callbacks answer well when it loads and starts. */
  ghost predicate StartsWell(s: Setup, id: PluginId, n: nat)
  {
    s.callbacks(id, Load, n).None? && s.callbacks(id, Startup, n + 1).None?
  }

  /** The error is what the plugin's callback said in that stage. */
  ghost predicate SaidBy(s: Setup, e: LifecycleError, n: nat)
  {
    e.StageFailed? && s.callbacks(e.plugin, e.stage, n) == Some(e.message)
  }

  lemma TwoAnswers(s: Setup, id: PluginId, n: nat)
    ensures AllAnswerWell(s, id, [Load, Startup], n) <==> StartsWell(s, id, n)
  {
    AnswersOfMore(s, id, [Load, Startup], n);
    AnswersOfMore(s, id, [Load, Startup][1..], n + 1);
  }

  lemma PluginStartedAnswers(s: Setup, w: World, id: PluginId)
    requires id in s.discovered && id in w.runtime
    ensures var (w', r) := PluginStarted(s, w, id);
      && (r.Ok? <==> !s.On(id) || StartsWell(s, id, w.callbacksRun))
      && (r.Err? ==> r.error.StageFailed? && r.error.plugin == id && exists n: nat :: SaidBy(s, r.error, n))
  {
    hide StagesRun;
    if s.On(id) {
      var stages := [Load, Startup];
      var w1 := w.(runtime := w.runtime[id := Refreshed(s, w.runtime[id], id)]);
      StagesRunAnswers(s, w1, id, stages);
      var r := StagesRun(s, w1, id, stages).1;
      TwoAnswers(s, id, w1.callbacksRun);
      if r.Err? {
        var k: nat :| FailsAt(s, id, stages, w1.callbacksRun, r.error, k);
        assert SaidBy(s, r.error, w1.callbacksRun + k);
      }
    }
  }

  /** A start succeeds only if the callbacks of every enabled plugin answer well, and fails only with
      what a callback said. */
  lemma {:induction false} StartedAnswers(s: Setup, w: World, ids: seq<PluginId>)
    requires w.runtime.Keys == s.discovered.Keys && forall p :: p in ids ==> p in s.discovered
    ensures var r := Started(s, w, ids).1;
      && (r.Ok? ==> forall p :: p in ids && s.On(p) ==> exists n: nat :: StartsWell(s, p, n))
      && (r.Err? ==> r.error.StageFailed? && exists n: nat :: SaidBy(s, r.error, n))
    decreases |ids|
  {
    hide PluginStarted, StartsWell, SaidBy;
    if ids != [] {
      PluginStartedFrame(s, w, ids[0]);
      PluginStartedAnswers(s, w, ids[0]);
      var (w', r) := PluginStarted(s, w, ids[0]);
      assert ids == [ids[0]] + ids[1..];
      if r.Ok? {
        StartedAnswers(s, w', ids[1..]);
      }
    }
  }

  lemma PluginStartedRegisters(s: Setup, w: World, id: PluginId, p: PluginId)
    requires s.Valid() && id in s.discovered && id in w.runtime
    ensures Registers(s, w, PluginStarted(s, w, id).0, p)
  {
    hide StagesRun, Registers;
    var w1 := w.(runtime := w.runtime[id := Refreshed(s, w.runtime[id], id)]);
    RegistersEdit(s, w, id, Refreshed(s, w.runtime[id], id), p);
    if s.On(id) {
      StagesRunRegisters(s, w1, id, [Load, Startup], p);
      RegistersTransitive(s, w, w1, StagesRun(s, w1, id, [Load, Startup]).0, p);
    }
  }

  ghost predicate FailureRecorded(w: World, e: LifecycleError)
  {
    && e.StageFailed? && e.plugin in w.runtime
    && w.runtime[e.plugin].status == Failed
    && IsNamed(e.stage, w.runtime[e.plugin].lastStage)
    && w.runtime[e.plugin].lastError == Some(e.message)
  }

  /** Starting the k-th plugin when the ones before it are settled. */
  lemma NextStartedSafely(s: Setup, w: World, order: seq<PluginId>, k: nat)
    requires IsStartOrder(s.discovered, s.config, order) && k < |order|
    requires w.runtime.Keys == s.discovered.Keys && AllSettled(s, w, order[..k])
    ensures var (w', r) := PluginStarted(s, w, order[k]);
      && w'.runtime.Keys == w.runtime.Keys
      && AllSettled(s, w', if r.Ok? then order[..k + 1] else order[..k])
      && (forall i :: k < i < |order| ==> w'.runtime[order[i]] == w.runtime[order[i]])
      && (r.Err? ==> r.error.StageFailed? && r.error.plugin == order[k] && FailureRecorded(w', r.error))
      && SafeExtension(s, w, w')
  {
    hide PluginStarted, SafeStart, SafeExtension, FailureRecorded, DependenciesFirst;
    var id := order[k];
    PluginStartedFrame(s, w, id);
    PluginStartedOutcome(s, w, id);
    NextLoadsSafely(s, w, order, k);
    assert id !in order[..k] && order[..k + 1] == order[..k] + [id];
  }

  lemma NextLoadsSafely(s: Setup, w: World, order: seq<PluginId>, k: nat)
    requires IsStartOrder(s.discovered, s.config, order) && k < |order|
    requires w.runtime.Keys == s.discovered.Keys && AllSettled(s, w, order[..k])
    ensures SafeExtension(s, w, PluginStarted(s, w, order[k]).0)
  {
    hide PluginStarted, SafeStart, AllSettled, DependenciesFirst, StageOf;
    PluginStartedFrame(s, w, order[k]);
    var w' := PluginStarted(s, w, order[k]).0;
    forall i | |w.trace| <= i < |w'.trace| ensures SafeStart(s.discovered, w'.trace[i]) {
      DependenciesSettled(s, w, order, k, w'.trace[i]);
    }
  }

  ghost predicate SafeExtension(s: Setup, w: World, w': World)
  {
    && w.trace <= w'.trace
    && forall i :: |w.trace| <= i < |w'.trace| ==> SafeStart(s.discovered, w'.trace[i])
  }

  lemma SafeExtensionTransitive(s: Setup, w: World, w': World, w'': World)
    requires SafeExtension(s, w, w') && SafeExtension(s, w', w'')
    ensures SafeExtension(s, w, w'')
  {
    forall i | |w.trace| <= i < |w''.trace| ensures SafeStart(s.discovered, w''.trace[i]) {
      if i < |w'.trace| {
        assert w''.trace[i] == w'.trace[i];
      }
    }
  }

  /** Where a start from order[k..] ends, given that order[..k] are settled: all settled, or a
      failure at order[done] with everything before settled and everything after untouched. */
  lemma {:induction false} StartedSafely(s: Setup, w: World, order: seq<PluginId>, k: nat) returns (done: nat)
    requires IsStartOrder(s.discovered, s.config, order) && k <= |order|
    requires w.runtime.Keys == s.discovered.Keys && AllSettled(s, w, order[..k])
    ensures var (w', r) := Started(s, w, order[k..]);
      && k <= done <= |order| && w'.runtime.Keys == w.runtime.Keys
      && AllSettled(s, w', order[..done])
      && (forall i :: done < i < |order| ==> w'.runtime[order[i]] == w.runtime[order[i]])
      && (r.Ok? ==> done == |order|)
      && (r.Err? ==>
           done < |order| && r.error.StageFailed? && r.error.plugin == order[done] && FailureRecorded(w', r.error))
      && SafeExtension(s, w, w')
    decreases |order| - k
  {
    done := k;
    if k < |order| {
      assert order[k..][0] == order[k] && order[k..][1..] == order[k + 1..];
      NextStartedSafely(s, w, order, k);
      var (w', r) := PluginStarted(s, w, order[k]);
      if r.Ok? {
        done := StartedSafely(s, w', order, k + 1);
        SafeExtensionTransitive(s, w, w', Started(s, w', order[k + 1..]).0);
      }
    }
  }

  lemma {:induction false} StartedRegisters(s: Setup, w: World, ids: seq<PluginId>, p: PluginId)
    requires s.Valid() && w.runtime.Keys == s.discovered.Keys && forall q :: q in ids ==> q in s.discovered
    ensures Registers(s, w, Started(s, w, ids).0, p)
    decreases |ids|
  {
    hide PluginStarted, Registers;
    if ids == [] {
      RegistersNothing(s, w, p);
    } else {
      PluginStartedFrame(s, w, ids[0]);
      PluginStartedRegisters(s, w, ids[0], p);
      var (w', r) := PluginStarted(s, w, ids[0]);
      if r.Ok? {
        StartedRegisters(s, w', ids[1..], p);
        RegistersTransitive(s, w, w', Started(s, w', ids[1..]).0, p);
      }
    }
  }

  /** No start, however it ends, registers any plugin's hooks a second time. */
  lemma StartedHooks(s: Setup, w: World, ids: seq<PluginId>)
    requires s.Valid() && HooksOnce(s, w) && forall p :: p in ids ==> p in s.discovered
    ensures HooksOnce(s, Started(s, w, ids).0)
  {
    hide Started, Registers, HooksOf;
    forall p ensures Registers(s, w, Started(s, w, ids).0, p) {
      StartedRegisters(s, w, ids, p);
    }
    RegisteringKeepsHooksOnce(s, w, Started(s, w, ids).0);
  }

  /** Editing id's record before a move of id does not widen the move. */
  lemma EditThenMove(w: World, record: RuntimeRecord, w': World, id: PluginId)
    requires id in w.runtime && OnlyMoves(w.(runtime := w.runtime[id := record]), w', id)
    ensures OnlyMoves(w, w', id)
  {
    var w1 := w.(runtime := w.runtime[id := record]);
    forall i | |w.trace| <= i < |w'.trace| ensures StageOf(w, w'.trace[i], id) {
      assert StageOf(w1, w'.trace[i], id);
    }
  }

  const RELOAD_STAGES: seq<Stage> := [Shutdown, Load, Startup]

  function Switched(record: RuntimeRecord, enabled: bool): RuntimeRecord
  {
    if enabled then record.(enabled := true)
    else record.(enabled := false, status := Disabled, lastStage := None, lastError := None)
  }

  function Reloaded(s: Setup, w: World, id: PluginId): (World, Result<Status, LifecycleError>)
    requires w.runtime.Keys == s.discovered.Keys
  {
    if id !in s.discovered then (w, Err(UnknownPlugin(id)))
    else
      var w1 := w.(runtime := w.runtime[id := Switched(w.runtime[id], s.On(id))]);
      if !s.On(id) then (w1, Ok(Disabled))
      else
        var (w2, r) := StagesRun(s, w1, id, RELOAD_STAGES);
        StagesRunFrame(s, w1, id, RELOAD_STAGES);
        (w2, if r.Err? then Err(r.error) else Ok(w2.runtime[id].status))
  }

  /** A reload moves only its own plugin, and reports the state it leaves it in; the callbacks of the
      plugin decide whether it succeeds. An unknown plugin is refused without effect. */
  lemma ReloadedProperly(s: Setup, w: World, id: PluginId)
    requires w.runtime.Keys == s.discovered.Keys
    ensures var (w', r) := Reloaded(s, w, id);
      && (id !in s.discovered ==> w' == w && r == Err(UnknownPlugin(id)))
      && (id in s.discovered ==>
           && OnlyMoves(w, w', id)
           && w'.runtime[id].enabled == s.On(id) && w'.runtime[id].defaultEnabled == w.runtime[id].defaultEnabled
           && (r.Ok? ==> r.value == w'.runtime[id].status == Settled(s, id) && w'.runtime[id].lastError == None)
           && (r.Ok? ==> if s.On(id) then IsNamed(Startup, w'.runtime[id].lastStage) else w'.runtime[id].lastStage == None)
           && (r.Err? ==> r.error.StageFailed? && r.error.plugin == id && FailureRecorded(w', r.error)))
  {
    if id in s.discovered && s.On(id) {
      var w1 := w.(runtime := w.runtime[id := Switched(w.runtime[id], true)]);
      StagesRunFrame(s, w1, id, RELOAD_STAGES);
      EditThenMove(w, w1.runtime[id], StagesRun(s, w1, id, RELOAD_STAGES).0, id);
      StagesRunOutcome(s, w1, id, RELOAD_STAGES);
    }
  }

  lemma ReloadAnswers(s: Setup, w: World, id: PluginId)
    requires id in s.discovered && w.runtime.Keys == s.discovered.Keys
    ensures var r := Reloaded(s, w, id).1;
      && (r.Ok? <==> !s.On(id) || (s.callbacks(id, Shutdown, w.callbacksRun).None? && StartsWell(s, id, w.callbacksRun + 1)))
      && (r.Err? ==> r.error.StageFailed? && exists n: nat :: SaidBy(s, r.error, n))
  {
    hide StagesRun;
    if s.On(id) {
      var stages := RELOAD_STAGES;
      var w1 := w.(runtime := w.runtime[id := Switched(w.runtime[id], true)]);
      StagesRunAnswers(s, w1, id, stages);
      var r := StagesRun(s, w1, id, stages).1;
      AnswersOfMore(s, id, stages, w1.callbacksRun);
      assert stages[1..] == [Load, Startup];
      TwoAnswers(s, id, w1.callbacksRun + 1);
      if r.Err? {
        var k: nat :| FailsAt(s, id, stages, w1.callbacksRun, r.error, k);
        assert SaidBy(s, r.error, w1.callbacksRun + k);
      }
    }
  }

  lemma ReloadRegisters(s: Setup, w: World, id: PluginId, p: PluginId)
    requires s.Valid() && w.runtime.Keys == s.discovered.Keys
    ensures Registers(s, w, Reloaded(s, w, id).0, p)
  {
    hide StagesRun, Registers;
    if id !in s.discovered {
      RegistersNothing(s, w, p);
    } else {
      var w1 := w.(runtime := w.runtime[id := Switched(w.runtime[id], s.On(id))]);
      RegistersEdit(s, w, id, Switched(w.runtime[id], s.On(id)), p);
      if s.On(id) {
        StagesRunRegisters(s, w1, id, RELOAD_STAGES, p);
        RegistersTransitive(s, w, w1, StagesRun(s, w1, id, RELOAD_STAGES).0, p);
      }
    }
  }

  lemma ReloadKeepsHooks(s: Setup, w: World, id: PluginId)
    requires s.Valid() && HooksOnce(s, w)
    ensures HooksOnce(s, Reloaded(s, w, id).0)
  {
    hide Reloaded, Registers, HooksOf;
    forall p ensures Registers(s, w, Reloaded(s, w, id).0, p) {
      ReloadRegisters(s, w, id, p);
    }
    RegisteringKeepsHooksOnce(s, w, Reloaded(s, w, id).0);
  }

  /** However often a plugin is reloaded, its hooks stay registered at most once. */
  lemma {:induction false} ReloadsKeepHooks(s: Setup, w: World, ids: seq<PluginId>)
    requires s.Valid() && HooksOnce(s, w)
    ensures HooksOnce(s, AfterReloads(s, w, ids))
    decreases |ids|
  {
    if ids != [] {
      ReloadKeepsHooks(s, w, ids[0]);
      ReloadsKeepHooks(s, Reloaded(s, w, ids[0]).0, ids[1..]);
    }
  }

  /** The state after reloading the listed plugins one after another, whatever fails. */
  function AfterReloads(s: Setup, w: World, ids: seq<PluginId>): World
    requires w.runtime.Keys == s.discovered.Keys
    decreases |ids|
  {
    if ids == [] then w
    else
      assert Reloaded(s, w, ids[0]).0.runtime.Keys == s.discovered.Keys by {
        ReloadedProperly(s, w, ids[0]);
      }
      AfterReloads(s, Reloaded(s, w, ids[0]).0, ids[1..])
  }

  /** What a reload begins: a shutdown and, if that succeeds, one Load, and nothing else but Startup. */
  ghost predicate ReloadTrace(w: World, w': World, id: PluginId, stopped: bool)
  {
    && w.trace <= w'.trace && |w'.trace| > |w.trace|
    && w'.trace[|w.trace|].stage == Shutdown
    && (!stopped ==> |w'.trace| == |w.trace| + 1)
    && (stopped ==>
         && |w'.trace| > |w.trace| + 1
         && w'.trace[|w.trace| + 1] == StageStart(id, Load, Statuses(w.runtime)[id := Stopped]))
    && forall i :: |w.trace| + 1 < i < |w'.trace| ==> w'.trace[i].stage == Startup
  }

  lemma StageRunStatuses(s: Setup, w: World, id: PluginId, stage: Stage)
    requires id in s.discovered && id in w.runtime && s.callbacks(id, stage, w.callbacksRun).None?
    ensures StageRun(s, w, id, stage).1.None?
    ensures Statuses(StageRun(s, w, id, stage).0.runtime) == Statuses(w.runtime)[id := stage.SuccessStatus()]
  {
  }

  lemma LoadBegins(s: Setup, w: World, id: PluginId)
    requires id in s.discovered && id in w.runtime
    ensures var w' := StagesRun(s, w, id, [Load, Startup]).0;
      && w.trace < w'.trace
      && w'.trace[|w.trace|] == StageStart(id, Load, Statuses(w.runtime))
      && forall i :: |w.trace| < i < |w'.trace| ==> w'.trace[i].stage == Startup
  {
    hide StageRun, Statuses;
    StageRunFrame(s, w, id, Load);
    var (w1, loaded) := StageRun(s, w, id, Load);
    assert [Load, Startup][1..] == [Startup];
    OnlyOneLoad(s, w1, id);
  }

  lemma ReloadBegins(s: Setup, w: World, id: PluginId)
    requires id in s.discovered && s.On(id) && w.runtime.Keys == s.discovered.Keys
    ensures ReloadTrace(w, Reloaded(s, w, id).0, id, s.callbacks(id, Shutdown, w.callbacksRun).None?)
  {
    var w1 := w.(runtime := w.runtime[id := Switched(w.runtime[id], true)]);
    StageRunFrame(s, w1, id, Shutdown);
    assert Statuses(w1.runtime) == Statuses(w.runtime);
    assert RELOAD_STAGES[1..] == [Load, Startup];
    var (w2, outcome) := StageRun(s, w1, id, Shutdown);
    assert StagesRun(s, w1, id, RELOAD_STAGES) ==
      if outcome.Some? then (w2, Err(StageFailed(id, Shutdown, outcome.value))) else StagesRun(s, w2, id, [Load, Startup]);
    hide StagesRun;
    if outcome.None? {
      StageRunStatuses(s, w1, id, Shutdown);
      LoadBegins(s, w2, id);
    }
  }

  /** A reload looks at no other plugin: whether its Load finds every discovered dependency Running
      depends on the dependencies alone, unless the shutdown already fails. */
  lemma ReloadLoadsSafelyExactlyWhen(s: Setup, w: World, id: PluginId)
    requires id in s.discovered && s.On(id) && w.runtime.Keys == s.discovered.Keys
    ensures SafeExtension(s, w, Reloaded(s, w, id).0) <==>
      || s.callbacks(id, Shutdown, w.callbacksRun).Some?
      || forall b :: Depends(s.discovered, id, b) ==> b != id && w.runtime[b].status == Running
  {
    hide Reloaded;
    ReloadBegins(s, w, id);
    var w' := Reloaded(s, w, id).0;
    if s.callbacks(id, Shutdown, w.callbacksRun).None? {
      var start := w'.trace[|w.trace| + 1];
      assert SafeExtension(s, w, w') <==> SafeStart(s.discovered, start);
      assert forall b :: Depends(s.discovered, id, b) ==> b in start.statuses;
    }
  }

  lemma OnlyOneLoad(s: Setup, w: World, id: PluginId)
    requires id in s.discovered && id in w.runtime
    ensures var w' := StagesRun(s, w, id, [Startup]).0;
      w.trace <= w'.trace && forall i :: |w.trace| <= i < |w'.trace| ==> w'.trace[i].stage == Startup
  {
    var begun := StagesRunTrace(s, w, id, [Startup]);
    var w' := StagesRun(s, w, id, [Startup]).0;
    forall i | |w.trace| <= i < |w'.trace| ensures w'.trace[i].stage == Startup {
      assert w'.trace[|w.trace| + (i - |w.trace|)].stage == [Startup][i - |w.trace|];
    }
  }

  // ---- The life of a manager ----

  datatype Manager = Manager(setup: Setup, world: World)

  /** order is the start order that was resolved. */
  datatype Operation = Discovery(candidate: Candidate) | Initialization(order: seq<PluginId>) | Reloading(id: PluginId)

  function Found(s: Setup, candidate: Candidate): RuntimeRecord
  {
    var on := s.config.isEnabled(candidate.manifest.id, candidate.defaultEnabled);
    RuntimeRecord(if on then Status.Discovered else Disabled, on, candidate.defaultEnabled, None, None, false)
  }

  ghost predicate Possible(m: Manager, op: Operation)
  {
    && m.world.runtime.Keys == m.setup.discovered.Keys
    && (op.Initialization? ==> IsStartOrder(m.setup.discovered, m.setup.config, op.order))
  }

  ghost function Performed(m: Manager, op: Operation): Manager
    requires Possible(m, op)
  {
    match op
    case Discovery(candidate) =>
      var id := candidate.manifest.id;
      Manager(m.setup.(discovered := m.setup.discovered[id := candidate]),
              m.world.(runtime := m.world.runtime[id := Found(m.setup, candidate)]))
    case Initialization(order) => m.(world := Started(m.setup, m.world, order).0)
    case Reloading(id) => m.(world := Reloaded(m.setup, m.world, id).0)
  }

  ghost predicate IsLife(states: seq<Manager>, ops: seq<Operation>)
  {
    && |states| == |ops| + 1
    && states[0].setup.discovered == map[] && states[0].world == World(map[], [], 0, [])
    && forall i :: 0 <= i < |ops| ==> Possible(states[i], ops[i]) && states[i + 1] == Performed(states[i], ops[i])
  }

  predicate Rediscovers(op: Operation, id: PluginId)
  {
    op.Discovery? && op.candidate.manifest.id == id
  }

  /** A Load of the plugin begins during the i-th operation. */
  ghost predicate LoadsAt(states: seq<Manager>, id: PluginId, i: nat)
    requires i + 1 < |states|
  {
    LoadBetween(states[i].world, states[i + 1].world, id)
  }

  /** A Load of the plugin has begun since it was last discovered. */
  ghost predicate LoadedSinceDiscovery(states: seq<Manager>, ops: seq<Operation>, id: PluginId, i: nat)
    requires |states| == |ops| + 1 && i <= |ops|
  {
    i > 0 && !Rediscovers(ops[i - 1], id)
    && (LoadsAt(states, id, i - 1) || LoadedSinceDiscovery(states, ops, id, i - 1))
  }

  /** The i-th operation begins the first Load since the plugin was last discovered. */
  ghost predicate FirstLoadAt(states: seq<Manager>, ops: seq<Operation>, id: PluginId, i: nat)
    requires |states| == |ops| + 1 && i < |ops|
  {
    LoadsAt(states, id, i) && !LoadedSinceDiscovery(states, ops, id, i)
  }

  /** The hooks declared in each period between discoveries in which a Load began, one after another. */
  ghost function Declared(states: seq<Manager>, ops: seq<Operation>, id: PluginId, i: nat): seq<string>
    requires |states| == |ops| + 1 && i <= |ops|
  {
    if i == 0 then []
    else
      var earlier := Declared(states, ops, id, i - 1);
      if FirstLoadAt(states, ops, id, i - 1) && id in states[i - 1].setup.discovered
      then earlier + states[i - 1].setup.discovered[id].manifest.hooks
      else earlier
  }

  lemma OperationRegisters(m: Manager, op: Operation, id: PluginId)
    requires Possible(m, op) && m.setup.Valid()
    ensures Performed(m, op).setup.Valid()
    ensures Performed(m, op).world.runtime.Keys == Performed(m, op).setup.discovered.Keys
    ensures Rediscovers(op, id) ==>
      && HooksOf(Performed(m, op).world.hooks, id) == HooksOf(m.world.hooks, id)
      && !Marked(Performed(m, op).world, id) && !LoadBetween(m.world, Performed(m, op).world, id)
    ensures !Rediscovers(op, id) ==> BusGrows(m.setup, m.world, Performed(m, op).world, id)
  {
    hide Started, Reloaded, HooksOf, IsStartOrder;
    match op
    case Discovery(candidate) =>
    case Initialization(order) =>
      assert forall p :: p in order ==> p in m.setup.discovered by { StartOrderMembers(m, order); }
      StartedRegisters(m.setup, m.world, order, id);
    case Reloading(p) =>
      ReloadRegisters(m.setup, m.world, p, id);
  }

  lemma StartOrderMembers(m: Manager, order: seq<PluginId>)
    requires IsStartOrder(m.setup.discovered, m.setup.config, order)
    ensures forall p :: p in order ==> p in m.setup.discovered
  {
  }

  /** What the bus holds of a plugin at any time of a manager's life, through starts and reloads that
      fail or not: the hooks of every period between discoveries in which a Load began. */
  lemma {:induction false} BusIsWhatWasDeclared(states: seq<Manager>, ops: seq<Operation>, id: PluginId, i: nat)
    requires IsLife(states, ops) && i <= |ops|
    ensures HooksOf(states[i].world.hooks, id) == Declared(states, ops, id, i)
    ensures Marked(states[i].world, id) <==> LoadedSinceDiscovery(states, ops, id, i)
    ensures states[i].setup.Valid() && states[i].world.runtime.Keys == states[i].setup.discovered.Keys
  {
    hide Performed, HooksOf, Possible;
    if i == 0 {
      NothingRegistered(id);
    } else {
      BusIsWhatWasDeclared(states, ops, id, i - 1);
      OperationRegisters(states[i - 1], ops[i - 1], id);
    }
  }

  lemma NothingRegistered(id: PluginId)
    ensures HooksOf([], id) == []
  {
  }

  /** The i-th operation puts hooks of the plugin on the bus. */
  ghost predicate RegistersAt(states: seq<Manager>, ops: seq<Operation>, id: PluginId, i: nat)
    requires |states| == |ops| + 1 && i < |ops|
  {
    FirstLoadAt(states, ops, id, i) && id in states[i].setup.discovered
    && states[i].setup.discovered[id].manifest.hooks != []
  }

  lemma DeclaredStep(states: seq<Manager>, ops: seq<Operation>, id: PluginId, i: nat)
    requires |states| == |ops| + 1 && i < |ops|
    ensures RegistersAt(states, ops, id, i) ==> |Declared(states, ops, id, i)| < |Declared(states, ops, id, i + 1)|
    ensures !RegistersAt(states, ops, id, i) ==> Declared(states, ops, id, i) == Declared(states, ops, id, i + 1)
  {
    hide FirstLoadAt;
  }

  lemma DeclaredAtStart(states: seq<Manager>, ops: seq<Operation>, id: PluginId)
    requires |states| == |ops| + 1
    ensures Declared(states, ops, id, 0) == []
  {
  }

  lemma {:induction false} DeclaredGrows(states: seq<Manager>, ops: seq<Operation>, id: PluginId, i: nat, j: nat)
    requires |states| == |ops| + 1 && i <= j <= |ops|
    ensures |Declared(states, ops, id, i)| <= |Declared(states, ops, id, j)|
    ensures (forall k :: i <= k < j ==> !RegistersAt(states, ops, id, k)) ==>
      Declared(states, ops, id, i) == Declared(states, ops, id, j)
    decreases j
  {
    hide RegistersAt, Declared;
    if i < j {
      DeclaredGrows(states, ops, id, i, j - 1);
      DeclaredStep(states, ops, id, j - 1);
    }
  }

  /** Once there, a plugin's hooks on the bus never become more. */
  ghost predicate RegisteredAtMostOnce(states: seq<Manager>, id: PluginId)
  {
    forall i, j :: 0 <= i <= j < |states| && HooksOf(states[i].world.hooks, id) != [] ==>
      HooksOf(states[j].world.hooks, id) == HooksOf(states[i].world.hooks, id)
  }

  /** Two operations never both put the plugin's hooks on the bus. */
  ghost predicate RegistersInOnePeriod(states: seq<Manager>, ops: seq<Operation>, id: PluginId)
    requires |states| == |ops| + 1
  {
    forall i, j :: 0 <= i < j < |ops| ==> !(RegistersAt(states, ops, id, i) && RegistersAt(states, ops, id, j))
  }

  /** Over a manager's whole life a plugin's hooks are registered at most once if and only if a Load
      of it, with hooks declared, begins in at most one of the periods between its discoveries. */
  lemma RegisteredAtMostOnceExactlyWhen(states: seq<Manager>, ops: seq<Operation>, id: PluginId)
    requires IsLife(states, ops)
    ensures RegisteredAtMostOnce(states, id) <==> RegistersInOnePeriod(states, ops, id)
  {
    hide HooksOf, RegistersAt, LoadedSinceDiscovery;
    if RegistersInOnePeriod(states, ops, id) {
      OnePeriodSuffices(states, ops, id);
    } else {
      var i, j :| 0 <= i < j < |ops| && RegistersAt(states, ops, id, i) && RegistersAt(states, ops, id, j);
      TwoPeriodsShow(states, ops, id, i, j);
    }
  }

  lemma OnePeriodSuffices(states: seq<Manager>, ops: seq<Operation>, id: PluginId)
    requires IsLife(states, ops) && RegistersInOnePeriod(states, ops, id)
    ensures RegisteredAtMostOnce(states, id)
  {
    forall i, j | 0 <= i <= j < |states| && HooksOf(states[i].world.hooks, id) != []
      ensures HooksOf(states[j].world.hooks, id) == HooksOf(states[i].world.hooks, id)
    {
      hide *;
      StaysOnBus(states, ops, id, i, j);
    }
  }

  lemma StaysOnBus(states: seq<Manager>, ops: seq<Operation>, id: PluginId, i: nat, j: nat)
    requires IsLife(states, ops) && RegistersInOnePeriod(states, ops, id)
    requires i <= j < |states| && HooksOf(states[i].world.hooks, id) != []
    ensures HooksOf(states[j].world.hooks, id) == HooksOf(states[i].world.hooks, id)
  {
    assert |states| == |ops| + 1;
    hide *;
    BusIsWhatWasDeclared(states, ops, id, i);
    BusIsWhatWasDeclared(states, ops, id, j);
    RegisteredStays(states, ops, id, i, j);
  }

  lemma TwoPeriodsShow(states: seq<Manager>, ops: seq<Operation>, id: PluginId, i: nat, j: nat)
    requires IsLife(states, ops) && i < j < |ops|
    requires RegistersAt(states, ops, id, i) && RegistersAt(states, ops, id, j)
    ensures j + 1 < |states| && HooksOf(states[i + 1].world.hooks, id) != []
    ensures HooksOf(states[j + 1].world.hooks, id) != HooksOf(states[i + 1].world.hooks, id)
  {
    hide HooksOf, RegistersAt, Declared, LoadedSinceDiscovery, Possible, Performed;
    BusIsWhatWasDeclared(states, ops, id, i + 1);
    BusIsWhatWasDeclared(states, ops, id, j + 1);
    SecondRegistrationShows(states, ops, id, i, j);
  }

  lemma RegisteredStays(states: seq<Manager>, ops: seq<Operation>, id: PluginId, i: nat, j: nat)
    requires |states| == |ops| + 1 && i <= j <= |ops|
    requires RegistersInOnePeriod(states, ops, id) && Declared(states, ops, id, i) != []
    ensures Declared(states, ops, id, j) == Declared(states, ops, id, i)
  {
    hide RegistersAt, Declared;
    SomethingRegistered(states, ops, id, i);
    var k :| 0 <= k < i && RegistersAt(states, ops, id, k);
    DeclaredGrows(states, ops, id, i, j);
  }

  lemma SecondRegistrationShows(states: seq<Manager>, ops: seq<Operation>, id: PluginId, i: nat, j: nat)
    requires |states| == |ops| + 1 && i < j < |ops|
    requires RegistersAt(states, ops, id, i) && RegistersAt(states, ops, id, j)
    ensures 0 < |Declared(states, ops, id, i + 1)| < |Declared(states, ops, id, j + 1)|
  {
    hide RegistersAt, Declared;
    DeclaredStep(states, ops, id, i);
    DeclaredGrows(states, ops, id, i + 1, j);
    DeclaredStep(states, ops, id, j);
  }

  lemma {:induction false} SomethingRegistered(states: seq<Manager>, ops: seq<Operation>, id: PluginId, i: nat)
    requires |states| == |ops| + 1 && i <= |ops| && Declared(states, ops, id, i) != []
    ensures exists k :: 0 <= k < i && RegistersAt(states, ops, id, k)
  {
    hide RegistersAt, Declared;
    if i == 0 {
      DeclaredAtStart(states, ops, id);
    } else if !RegistersAt(states, ops, id, i - 1) {
      DeclaredStep(states, ops, id, i - 1);
      SomethingRegistered(states, ops, id, i - 1);
    }
  }

  /** Discover, initialise, discover again, initialise again: the hooks of any enabled plugin that
      does not depend on itself are then on the bus twice, whatever its callbacks answer. */
  lemma DiscoveredAgain(setup: Setup, candidate: Candidate) returns (states: seq<Manager>, ops: seq<Operation>)
    requires setup.discovered == map[]
    requires setup.config.isEnabled(candidate.manifest.id, candidate.defaultEnabled)
    requires candidate.manifest.id !in candidate.manifest.dependencies
    ensures var id := candidate.manifest.id;
      ops == [Discovery(candidate), Initialization([id]), Discovery(candidate), Initialization([id])]
      && IsLife(states, ops) && states[0].setup == setup
      && HooksOf(states[4].world.hooks, id) == candidate.manifest.hooks + candidate.manifest.hooks
  {
    hide HooksOf, Started;
    var id := candidate.manifest.id;
    ops := [Discovery(candidate), Initialization([id]), Discovery(candidate), Initialization([id])];
    var m0 := Manager(setup, World(map[], [], 0, []));
    var m1 := Performed(m0, ops[0]);
    AloneInOrder(m1, candidate);
    var m2 := Performed(m1, ops[1]);
    StartLoads(m1, id);
    var m3 := Performed(m2, ops[2]);
    AloneInOrder(m3, candidate);
    var m4 := Performed(m3, ops[3]);
    StartLoads(m3, id);
    states := [m0, m1, m2, m3, m4];
    NothingRegistered(id);
  }

  lemma AloneInOrder(m: Manager, candidate: Candidate)
    requires m.setup.discovered == map[candidate.manifest.id := candidate]
    requires candidate.manifest.id !in candidate.manifest.dependencies
    ensures IsStartOrder(m.setup.discovered, m.setup.config, [candidate.manifest.id])
  {
  }

  /** A start of one enabled plugin begins its Load. */
  lemma StartLoads(m: Manager, id: PluginId)
    requires Possible(m, Initialization([id])) && m.setup.Valid() && id in m.setup.discovered && m.setup.On(id)
    ensures var w' := Performed(m, Initialization([id])).world;
      w'.runtime.Keys == m.world.runtime.Keys && HooksOf(w'.hooks, id) == HooksOf(m.world.hooks, id) +
        if Marked(m.world, id) then [] else m.setup.discovered[id].manifest.hooks
  {
    hide HooksOf, StageRun, IsStartOrder;
    var w := m.world;
    var w1 := w.(runtime := w.runtime[id := Refreshed(m.setup, w.runtime[id], id)]);
    LoadBegins(m.setup, w1, id);
    var w' := PluginStarted(m.setup, w, id).0;
    assert w'.trace[|w.trace|].plugin == id && w'.trace[|w.trace|].stage == Load;
    assert Started(m.setup, w, [id]).0 == w' by {
      assert [id][1..] == [];
      PluginStartedFrame(m.setup, w, id);
    }
    StartOrderMembers(m, [id]);
    StartedRegisters(m.setup, w, [id], id);
  }

  // ---- The manager itself ----

  class PluginManager {
    const config: PluginsConfig
    const callbacks: Callbacks
    var discovered: Discovered
    var runtime: Runtime
    var hooks: seq<HookRegistration>
    var callbacksRun: nat
    ghost var trace: seq<StageStart>

    ghost function Set(): Setup
      reads this`discovered
    {
      Setup(discovered, config, callbacks)
    }

    ghost function Now(): World
      reads this
    {
      World(runtime, hooks, callbacksRun, trace)
    }

    ghost predicate Valid()
      reads this
    {
      Set().Valid() && runtime.Keys == discovered.Keys
    }

    constructor (config: PluginsConfig, callbacks: Callbacks)
      ensures this.config == config && this.callbacks == callbacks
      ensures Valid() && discovered == map[] && Now() == World(map[], [], 0, []) && HooksOnce(Set(), Now())
    {
      this.config, this.callbacks := config, callbacks;
      discovered, runtime, hooks, callbacksRun, trace := map[], map[], [], 0, [];
    }

    method Discover(candidate: Candidate)
      requires Valid()
      modifies this
      ensures Valid() && discovered == old(discovered)[candidate.manifest.id := candidate]
      ensures Now() == old(Now()).(runtime := old(runtime)[candidate.manifest.id := Found(Set(), candidate)])
      ensures var record := runtime[candidate.manifest.id];
        && record.enabled == config.isEnabled(candidate.manifest.id, candidate.defaultEnabled)
        && record.status == (if record.enabled then Status.Discovered else Disabled)
        && record.defaultEnabled == candidate.defaultEnabled
        && record.lastStage == None && record.lastError == None && !record.hooksRegistered
    {
      var id := candidate.manifest.id;
      var enabled := config.isEnabled(id, candidate.defaultEnabled);
      runtime := runtime[id := RuntimeRecord(
        if enabled then Status.Discovered else Disabled, enabled, candidate.defaultEnabled, None, None, false)];
      discovered := discovered[id := candidate];
    }

    /** Records that a stage begins, or that it succeeded. */
    method MarkStage(id: PluginId, status: Status, stage: Stage)
      requires id in runtime
      modifies this`runtime
      ensures runtime == old(runtime)[id := Begun(old(runtime)[id], status, stage)]
    {
      runtime := runtime[id := runtime[id].(status := status, lastStage := Some(stage.Label()), lastError := None)];
    }

    method FailStage(id: PluginId, stage: Stage, error: string)
      requires id in runtime
      modifies this`runtime
      ensures runtime == old(runtime)[id := FailedAt(old(runtime)[id], stage, error)]
    {
      runtime := runtime[id :=
        runtime[id].(status := Failed, lastStage := Some(stage.Label()), lastError := Some(error))];
    }

    method RegisterHooksOnce(id: PluginId)
      requires Valid() && id in discovered
      modifies this`runtime, this`hooks
      ensures Now() == WithHooks(Set(), old(Now()), id)
    {
      if runtime[id].hooksRegistered {
        return;
      }
      var points := discovered[id].manifest.hooks;
      for k := 0 to |points|
        invariant hooks == old(hooks) + Registrations(discovered[id].manifest.id, points)[..k]
        invariant runtime == old(runtime)
      {
        hooks := hooks + [HookRegistration(discovered[id].manifest.id, points[k])];
      }
      runtime := runtime[id := runtime[id].(hooksRegistered := true)];
    }

    /** A stage begins; its first effect, when it is Load, is the registration of hooks. */
    method BeginStage(id: PluginId, stage: Stage)
      requires Valid() && id in discovered
      modifies this`runtime, this`hooks, this`trace
      ensures Valid() && Now() == StageBegun(Set(), old(Now()), id, stage)
      ensures IsNamed(stage, runtime[id].lastStage) && runtime[id].lastError == None
      ensures runtime[id].status == match stage case Load => Loading case Startup => Starting case Shutdown => Stopping
    {
      hide Statuses;
      trace := trace + [StageStart(id, stage, Statuses(runtime))];
      MarkStage(id, stage.Status(), stage);
      if stage == Load {
        RegisterHooksOnce(id);
      }
    }

    method RunStage(id: PluginId, stage: Stage) returns (failure: Option<string>)
      requires Valid() && id in discovered
      modifies this`runtime, this`hooks, this`callbacksRun, this`trace
      ensures Valid() && (Now(), failure) == StageRun(Set(), old(Now()), id, stage)
    {
      hide StageBegun, Begun, FailedAt;
      BeginStage(id, stage);
      failure := callbacks(id, stage, callbacksRun);
      callbacksRun := callbacksRun + 1;
      if failure.None? {
        MarkStage(id, stage.SuccessStatus(), stage);
      } else {
        FailStage(id, stage, failure.value);
      }
    }

    method RunLifecycle(id: PluginId, stages: seq<Stage>) returns (r: Result<(), LifecycleError>)
      requires Valid() && id in discovered
      modifies this`runtime, this`hooks, this`callbacksRun, this`trace
      ensures Valid() && (Now(), r) == StagesRun(Set(), old(Now()), id, stages)
    {
      for k := 0 to |stages|
        invariant Valid() && StagesRun(Set(), Now(), id, stages[k..]) == StagesRun(Set(), old(Now()), id, stages)
      {
        assert stages[k..][0] == stages[k] && stages[k..][1..] == stages[k + 1..];
        var failure := RunStage(id, stages[k]);
        if failure.Some? {
          return Err(StageFailed(id, stages[k], failure.value));
        }
      }
      r := Ok(());
    }

    /** The part of Initialize done for one plugin. */
    method StartPlugin(id: PluginId) returns (r: Result<(), LifecycleError>)
      requires Valid() && id in discovered
      modifies this`runtime, this`hooks, this`callbacksRun, this`trace
      ensures Valid() && (Now(), r) == PluginStarted(Set(), old(Now()), id)
    {
      var enabled := config.isEnabled(id, discovered[id].defaultEnabled);
      runtime := runtime[id := runtime[id].(enabled := enabled, defaultEnabled := discovered[id].defaultEnabled)];
      if !runtime[id].enabled {
        runtime := runtime[id := runtime[id].(status := Disabled, lastStage := None, lastError := None)];
        assert runtime == old(runtime)[id := Refreshed(Set(), old(runtime)[id], id)];
        return Ok(());
      }
      r := RunLifecycle(id, [Load, Startup]);
    }

    /** Starts every enabled plugin, dependencies first. order[..done] have been settled; on a
        failure order[done] is the plugin that failed and order[done + 1..] were not touched. */
    method Initialize() returns (r: Result<(), LifecycleError>, ghost order: seq<PluginId>, ghost done: nat)
      requires Valid()
      modifies this`runtime, this`hooks, this`callbacksRun, this`trace
      ensures Valid()
      ensures old(HooksOnce(Set(), Now())) ==> HooksOnce(Set(), Now())
      ensures SafeExtension(Set(), old(Now()), Now())
      ensures (r.Err? && r.error.NoStartOrder?) <==> HasCycle(discovered) || HasDisabledDependency(discovered, config)
      ensures r.Err? && r.error.NoStartOrder? ==> Now() == old(Now())
      ensures !(r.Err? && r.error.NoStartOrder?) ==>
        && IsStartOrder(discovered, config, order) && done <= |order|
        && (Now(), r) == Started(Set(), old(Now()), order)
        && AllSettled(Set(), Now(), order[..done])
        && (forall i :: done < i < |order| ==> runtime[order[i]] == old(runtime)[order[i]])
        && (r.Ok? <==> done == |order|)
        && (r.Err? ==>
             r.error.StageFailed? && r.error.plugin == order[done] && FailureRecorded(Now(), r.error))
      ensures r.Ok? ==> forall p :: p in runtime ==> runtime[p].status == Settled(Set(), p)
      ensures r.Ok? ==> forall p :: p in discovered && Set().On(p) ==> exists n: nat :: StartsWell(Set(), p, n)
      ensures r.Err? && r.error.StageFailed? ==> exists n: nat :: SaidBy(Set(), r.error, n)
    {
      order, done := [], 0;
      var resolved := ResolveStartOrder(discovered, config);
      if resolved.Err? {
        JustifiedErrorsAreFailures(discovered, config, resolved.error);
        return Err(NoStartOrder(resolved.error)), [], 0;
      }
      var ids := resolved.value;
      order := ids;
      StartOrderExcludesFailures(discovered, config, ids);
      assert ids[0..] == ids;
      done := StartedSafely(Set(), Now(), ids, 0);
      StartedAnswers(Set(), Now(), ids);
      if HooksOnce(Set(), Now()) {
        StartedHooks(Set(), Now(), ids);
      }
      r := StartAll(ids);
      assert r.Ok? ==> ids[..done] == ids;
    }

    method StartAll(ids: seq<PluginId>) returns (r: Result<(), LifecycleError>)
      requires Valid() && forall p :: p in ids ==> p in discovered
      modifies this`runtime, this`hooks, this`callbacksRun, this`trace
      ensures Valid() && (Now(), r) == Started(Set(), old(Now()), ids)
    {
      for k := 0 to |ids|
        invariant Valid() && Started(Set(), Now(), ids[k..]) == Started(Set(), old(Now()), ids)
      {
        assert ids[k..][0] == ids[k] && ids[k..][1..] == ids[k + 1..];
        r := StartPlugin(ids[k]);
        if r.Err? {
          return r;
        }
      }
      r := Ok(());
    }

    /** Shuts a plugin down and starts it again, or marks it disabled. */
    method Reload(id: PluginId) returns (r: Result<Status, LifecycleError>)
      requires Valid()
      modifies this`runtime, this`hooks, this`callbacksRun, this`trace
      ensures Valid() && (Now(), r) == Reloaded(Set(), old(Now()), id)
      ensures id !in discovered ==> r == Err(UnknownPlugin(id)) && Now() == old(Now())
    {
      if id !in discovered {
        return Err(UnknownPlugin(id));
      }
      var enabled := config.isEnabled(id, discovered[id].defaultEnabled);
      runtime := runtime[id := runtime[id].(enabled := enabled)];
      if !runtime[id].enabled {
        runtime := runtime[id := runtime[id].(status := Disabled, lastStage := None, lastError := None)];
        assert runtime == old(runtime)[id := Switched(old(runtime)[id], false)];
        return Ok(Disabled);
      }
      var sub := RunLifecycle(id, RELOAD_STAGES);
      if sub.Err? {
        return Err(sub.error);
      }
      r := Ok(runtime[id].status);
    }
  }
}
