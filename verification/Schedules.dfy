/** Scheduled tasks: the stored records, and the executor that scans for due ones and then triggers
    them, while records are changed, deleted and created again around it. */
module Schedules {
  import opened Arithmetic
  import opened Wrappers
  import Order

  /** Points in time are nanoseconds. */
  const SECOND: int := 1_000_000_000

  datatype Trigger = Interval(seconds: nat) | Cron(expression: string) | OnEvent(eventType: string) | Manual

  datatype Schedule = Schedule(id: string, name: string, trigger: Trigger, enabled: bool)

  datatype Record = Record(
    schedule: Schedule,
    nextRunAt: Option<int>,
    lastRunAt: Option<int>,
    lastTaskId: Option<string>,
    runCount: nat)

  type Records = map<string, Record>

  function NextRunAt(schedule: Schedule, lastRunAt: Option<int>, now: int): Option<int>
  {
    if !schedule.enabled then None
    else if schedule.trigger.Interval? then Some(lastRunAt.GetOr(now) + schedule.trigger.seconds * SECOND)
    else None
  }

  // ---- The store, record by record ----

  function Upserted(existing: Option<Record>, schedule: Schedule, now: int): Record
  {
    var record := existing.GetOr(Record(schedule, NextRunAt(schedule, None, now), None, None, 0));
    var updated := record.(schedule := schedule);
    if !schedule.enabled then updated.(nextRunAt := None)
    else if updated.nextRunAt.None? then updated.(nextRunAt := NextRunAt(schedule, updated.lastRunAt, now))
    else updated
  }

  function Marked(record: Record, taskId: Option<string>, at: int): Record
  {
    Record(record.schedule, NextRunAt(record.schedule, Some(at), at), Some(at), taskId,
           if record.runCount < U64_MAX then record.runCount + 1 else U64_MAX)
  }

  /** What a trigger leaves of a record: an enabled interval schedule runs again one interval later,
      any other does not; the count of runs goes up as far as it can. */
  ghost predicate Triggered(before: Record, after: Record, taskId: Option<string>, at: int)
  {
    && after.schedule == before.schedule && after.lastRunAt == Some(at) && after.lastTaskId == taskId
    && after.runCount == (if before.runCount < U64_MAX then before.runCount + 1 else U64_MAX)
    && after.nextRunAt == if before.schedule.enabled && before.schedule.trigger.Interval?
                          then Some(at + before.schedule.trigger.seconds * SECOND) else None
  }

  lemma MarkedIsTriggered(record: Record, taskId: Option<string>, at: int)
    ensures Triggered(record, Marked(record, taskId, at), taskId, at)
  {
  }

  predicate IsDue(record: Record, now: int)
  {
    record.schedule.enabled && record.nextRunAt.Some? && record.nextRunAt.value <= now
  }

  function Lookup(records: Records, id: string): Option<Record>
  {
    if id in records then Some(records[id]) else None
  }

  function DueAmong(records: Records, ids: seq<string>, now: int): seq<string>
    requires forall id :: id in ids ==> id in records
  {
    if ids == [] then []
    else (if IsDue(records[ids[0]], now) then [ids[0]] else []) + DueAmong(records, ids[1..], now)
  }

  /** The due schedules, in id order. */
  function Due(records: Records, now: int): seq<string>
  {
    DueAmong(records, Order.Ascending(records.Keys), now)
  }

  ghost predicate Distinct(ids: seq<string>)
  {
    forall i, j :: 0 <= i < j < |ids| ==> ids[i] != ids[j]
  }

  lemma {:induction false} DueAmongMeaning(records: Records, ids: seq<string>, now: int)
    requires (forall id :: id in ids ==> id in records) && Distinct(ids)
    ensures forall id :: id in DueAmong(records, ids, now) <==> id in ids && IsDue(records[id], now)
    ensures Distinct(DueAmong(records, ids, now))
  {
    if ids != [] {
      var rest := ids[1..];
      assert forall i :: 0 <= i < |rest| ==> rest[i] == ids[i + 1];
      DueAmongMeaning(records, rest, now);
      assert ids == [ids[0]] + rest;
      assert ids[0] !in rest;
    }
  }

  ghost predicate IsAscending(ids: seq<string>)
  {
    forall i, j :: 0 <= i < j < |ids| ==> Order.AtMost(ids[i], ids[j])
  }

  lemma {:induction false} DueAmongAscending(records: Records, ids: seq<string>, now: int)
    requires (forall id :: id in ids ==> id in records) && IsAscending(ids)
    ensures IsAscending(DueAmong(records, ids, now))
    ensures forall id :: id in DueAmong(records, ids, now) ==> id in ids
  {
    hide Order.AtMost;
    if ids != [] {
      var rest := ids[1..];
      assert ids == [ids[0]] + rest;
      DueAmongAscending(records, rest, now);
      forall id | id in rest ensures Order.AtMost(ids[0], id) {
        var i :| 0 <= i < |rest| && rest[i] == id;
        assert ids[i + 1] == id;
      }
    }
  }

  /** A scan finds exactly the enabled records whose next run has come, each once, in id order. */
  lemma DueMeaning(records: Records, now: int)
    ensures forall id :: id in Due(records, now) <==> id in records && IsDue(records[id], now)
    ensures Distinct(Due(records, now)) && IsAscending(Due(records, now))
  {
    DueAmongAscending(records, Order.Ascending(records.Keys), now);
    DueAmongMeaning(records, Order.Ascending(records.Keys), now);
  }

  class ScheduleStore {
    var records: Records

    ghost predicate Valid()
      reads this
    {
      forall id :: id in records ==>
        records[id].schedule.id == id && (!records[id].schedule.enabled ==> records[id].nextRunAt.None?)
    }

    constructor ()
      ensures Valid() && records == map[]
    {
      records := map[];
    }

    method Upsert(schedule: Schedule, now: int) returns (record: Record)
      requires Valid()
      modifies this
      ensures Valid()
      ensures record == Upserted(Lookup(old(records), schedule.id), schedule, now)
      ensures records == old(records)[schedule.id := record]
      ensures record.schedule == schedule
      ensures if schedule.id in old(records) then
          var before := old(records)[schedule.id];
          && record.lastRunAt == before.lastRunAt && record.lastTaskId == before.lastTaskId && record.runCount == before.runCount
        else record.lastRunAt == None && record.lastTaskId == None && record.runCount == 0
      ensures !schedule.enabled ==> record.nextRunAt == None
      ensures schedule.enabled && schedule.id in old(records) && old(records)[schedule.id].nextRunAt.Some? ==>
        record.nextRunAt == old(records)[schedule.id].nextRunAt
      ensures schedule.enabled && (schedule.id !in old(records) || old(records)[schedule.id].nextRunAt.None?) ==>
        record.nextRunAt == match schedule.trigger
                            case Interval(seconds) => Some(record.lastRunAt.GetOr(now) + seconds * SECOND)
                            case _ => None
    {
      if schedule.id in records {
        record := records[schedule.id];
      } else {
        record := Record(schedule, NextRunAt(schedule, None, now), None, None, 0);
      }
      record := record.(schedule := schedule);
      if !record.schedule.enabled {
        record := record.(nextRunAt := None);
      } else if record.nextRunAt.None? {
        record := record.(nextRunAt := NextRunAt(record.schedule, record.lastRunAt, now));
      }
      records := records[schedule.id := record];
    }

    method Delete(id: string) returns (existing: Option<Record>)
      requires Valid()
      modifies this
      ensures Valid() && existing == Lookup(old(records), id) && records == old(records) - {id}
    {
      existing := Lookup(records, id);
      records := records - {id};
    }

    method MarkTriggered(id: string, taskId: Option<string>, at: int) returns (marked: Option<Record>)
      requires Valid()
      modifies this
      ensures Valid()
      ensures id !in old(records) ==> marked == None && records == old(records)
      ensures id in old(records) ==>
        marked == Some(Marked(old(records)[id], taskId, at)) && records == old(records)[id := marked.value]
      ensures id in old(records) ==> Triggered(old(records)[id], marked.value, taskId, at)
    {
      if id !in records {
        return None;
      }
      var record := records[id];
      record := record.(lastRunAt := Some(at), lastTaskId := taskId,
                        runCount := if record.runCount < U64_MAX then record.runCount + 1 else U64_MAX);
      record := record.(nextRunAt := NextRunAt(record.schedule, Some(at), at));
      records := records[id := record];
      marked := Some(record);
    }

    /** One round of the executor with nothing else going on: scan, then trigger each due schedule. */
    method RunDueSchedules(now: int, taskIds: nat -> string) returns (triggered: seq<string>)
      requires Valid()
      modifies this
      ensures Valid() && triggered == Due(old(records), now)
      ensures records == AllMarked(old(records), triggered, taskIds, now)
    {
      hide Due, Marked, NextRunAt;
      triggered := Due(records, now);
      assert triggered[..0] == [];
      for k := 0 to |triggered|
        invariant Valid() && records == AllMarked(old(records), triggered[..k], taskIds, now)
      {
        assert triggered[..k + 1][..k] == triggered[..k];
        var marked := MarkTriggered(triggered[k], Some(taskIds(k)), now);
      }
      assert triggered[..|triggered|] == triggered;
    }
  }

  function AllMarked(records: Records, ids: seq<string>, taskIds: nat -> string, now: int): Records
  {
    if ids == [] then records
    else
      var n := |ids| - 1;
      var before := AllMarked(records, ids[..n], taskIds, now);
      if ids[n] in before then before[ids[n] := Marked(before[ids[n]], Some(taskIds(n)), now)] else before
  }

  // ---- The executor and everybody else, interleaved ----

  /** pending are the schedules of the current scan that are still to be triggered, all of them at
      the time of the scan; triggers is the history of what ran when. */
  datatype System = System(
    records: Records,
    clock: int,
    pending: seq<string>,
    scannedAt: int,
    triggers: seq<(string, int)>)

  datatype Step =
    | DoUpsert(schedule: Schedule, now: int)
    | DoDelete(id: string)
    | DoScan(now: int)
    | DoTrigger(taskId: string)

  /** Time does not run backwards, and the executor finishes a round before it scans again. */
  predicate Enabled(st: System, step: Step)
  {
    match step
    case DoUpsert(_, now) => now >= st.clock
    case DoDelete(_) => true
    case DoScan(now) => now >= st.clock && st.pending == []
    case DoTrigger(_) => st.pending != []
  }

  function After(st: System, step: Step): System
    requires Enabled(st, step)
  {
    match step
    case DoUpsert(schedule, now) =>
      st.(records := st.records[schedule.id := Upserted(Lookup(st.records, schedule.id), schedule, now)], clock := now)
    case DoDelete(id) =>
      st.(records := st.records - {id})
    case DoScan(now) =>
      st.(clock := now, scannedAt := now, pending := Due(st.records, now))
    case DoTrigger(taskId) =>
      var id := st.pending[0];
      var rest := st.(pending := st.pending[1..]);
      if id !in st.records then rest
      else rest.(records := st.records[id := Marked(st.records[id], Some(taskId), st.scannedAt)],
                 triggers := st.triggers + [(id, st.scannedAt)])
  }

  /** The states of a run from an empty store, one per step taken. */
  ghost predicate IsRun(states: seq<System>, steps: seq<Step>)
  {
    && |states| == |steps| + 1
    && states[0].records == map[] && states[0].pending == [] && states[0].triggers == []
    && forall i :: 0 <= i < |steps| ==> Enabled(states[i], steps[i]) && states[i + 1] == After(states[i], steps[i])
  }

  /** When the given schedule was triggered, in order. */
  function TimesOf(triggers: seq<(string, int)>, id: string): seq<int>
  {
    if triggers == [] then []
    else
      var (who, at) := triggers[|triggers| - 1];
      TimesOf(triggers[..|triggers| - 1], id) + if who == id then [at] else []
  }

  predicate Spaced(times: seq<int>, gap: int)
  {
    forall i :: 0 < i < |times| ==> times[i] - times[i - 1] >= gap
  }

  function LastTime(times: seq<int>): Option<int>
  {
    if times == [] then None else Some(times[|times| - 1])
  }

  /** What holds of one schedule in every reachable state, if its intervals are at least gap. */
  ghost predicate Paced(st: System, id: string, gap: int)
  {
    var last := LastTime(TimesOf(st.triggers, id));
    && Spaced(TimesOf(st.triggers, id), gap)
    && (last.Some? ==> last.value <= st.clock)
    && (st.pending != [] ==> st.scannedAt <= st.clock)
    && Distinct(st.pending)
    && (id in st.pending && last.Some? ==> st.scannedAt >= last.value + gap)
    && (id in st.records ==> RecordPaced(st.records[id], last, gap))
  }

  ghost predicate RecordPaced(record: Record, last: Option<int>, gap: int)
  {
    && (record.schedule.trigger.Interval? ==> record.schedule.trigger.seconds * SECOND >= gap)
    && (record.lastRunAt.Some? ==> record.lastRunAt == last)
    && (record.nextRunAt.Some? && last.Some? ==> record.nextRunAt.value >= last.value + gap)
    && (!record.schedule.enabled ==> record.nextRunAt.None?)
  }

  predicate RespectsGap(step: Step, id: string, gap: int)
  {
    step.DoUpsert? && step.schedule.id == id && step.schedule.trigger.Interval? ==>
      step.schedule.trigger.seconds * SECOND >= gap
  }

  lemma UpsertKeepsPace(existing: Option<Record>, schedule: Schedule, now: int, last: Option<int>, gap: int)
    requires schedule.trigger.Interval? ==> schedule.trigger.seconds * SECOND >= gap
    requires existing.Some? ==> RecordPaced(existing.value, last, gap)
    requires last.Some? ==> last.value <= now
    ensures RecordPaced(Upserted(existing, schedule, now), last, gap)
  {
  }

  lemma TimesOfAppend(triggers: seq<(string, int)>, who: string, at: int, id: string)
    ensures TimesOf(triggers + [(who, at)], id) == TimesOf(triggers, id) + if who == id then [at] else []
  {
    assert (triggers + [(who, at)])[..|triggers|] == triggers;
  }

  lemma StepKeepsPace(st: System, step: Step, id: string, gap: int)
    requires Enabled(st, step) && Paced(st, id, gap) && RespectsGap(step, id, gap)
    ensures Paced(After(st, step), id, gap)
  {
    hide TimesOf;
    var last := LastTime(TimesOf(st.triggers, id));
    match step
    case DoUpsert(schedule, now) =>
      if schedule.id == id {
        UpsertKeepsPace(Lookup(st.records, id), schedule, now, last, gap);
      }
    case DoDelete(_) =>
    case DoScan(now) =>
      DueMeaning(st.records, now);
    case DoTrigger(_) =>
      var who := st.pending[0];
      TimesOfAppend(st.triggers, who, st.scannedAt, id);
      assert forall i :: 0 <= i < |st.pending| - 1 ==> st.pending[1..][i] == st.pending[i + 1];
  }

  lemma {:induction false} RunKeepsPace(states: seq<System>, steps: seq<Step>, id: string, gap: int)
    requires IsRun(states, steps) && forall i :: 0 <= i < |steps| ==> RespectsGap(steps[i], id, gap)
    ensures Paced(states[|steps|], id, gap)
    decreases |steps|
  {
    if steps != [] {
      var n := |steps| - 1;
      RunKeepsPace(states[..n + 1], steps[..n], id, gap);
      StepKeepsPace(states[n], steps[n], id, gap);
    }
  }

  /** In every run, however records are edited, deleted and created again between and during scans,
      two triggers of a schedule are at least its interval apart. */
  lemma TriggersAreSpaced(states: seq<System>, steps: seq<Step>, id: string, gap: int, i: nat, j: nat)
    requires IsRun(states, steps) && forall k :: 0 <= k < |steps| ==> RespectsGap(steps[k], id, gap)
    requires i <= j < |TimesOf(states[|steps|].triggers, id)|
    ensures var times := TimesOf(states[|steps|].triggers, id); times[j] - times[i] >= (j - i) * gap
  {
    RunKeepsPace(states, steps, id, gap);
    SpacedSums(TimesOf(states[|steps|].triggers, id), gap, i, j);
  }

  lemma {:induction false} SpacedSums(times: seq<int>, gap: int, i: nat, j: nat)
    requires Spaced(times, gap) && i <= j < |times|
    ensures times[j] - times[i] >= (j - i) * gap
    decreases j
  {
    if i < j {
      SpacedSums(times, gap, i, j - 1);
      assert (j - i) * gap == (j - 1 - i) * gap + gap;
    }
  }

  function CountIn(times: seq<int>, from: int, to: int): nat
  {
    if times == [] then 0
    else
      var n := |times| - 1;
      CountIn(times[..n], from, to) + if from <= times[n] <= to then 1 else 0
  }

  lemma {:induction false} CountOfEarlier(times: seq<int>, from: int, to: int, bound: int)
    requires (forall i :: 0 <= i < |times| ==> times[i] <= bound) && bound <= to
    ensures CountIn(times, from, to) == CountIn(times, from, bound)
  {
    if times != [] { CountOfEarlier(times[..|times| - 1], from, to, bound); }
  }

  lemma {:induction false} EarlierThanLast(times: seq<int>, gap: int)
    requires gap > 0 && Spaced(times, gap) && times != []
    ensures forall i :: 0 <= i < |times| - 1 ==> times[i] <= times[|times| - 1] - gap
  {
    if |times| > 1 {
      EarlierThanLast(times[..|times| - 1], gap);
    }
  }

  lemma {:induction false} CountIsSpread(times: seq<int>, gap: int, from: int, to: int)
    requires gap > 0 && Spaced(times, gap) && from <= to
    ensures (CountIn(times, from, to) - 1) * gap <= to - from
    decreases |times|
  {
    if times != [] {
      var n := |times| - 1;
      var before, last := times[..n], times[n];
      if from <= last <= to {
        EarlierThanLast(times, gap);
        CountOfEarlier(before, from, to, last - gap);
        var c := CountIn(before, from, last - gap);
        OneMore(c, gap);
        if last - gap >= from {
          CountIsSpread(before, gap, from, last - gap);
        } else {
          NoneInEmptyWindow(before, from, last - gap);
        }
      } else {
        CountIsSpread(before, gap, from, to);
      }
    }
  }

  lemma {:induction false} NoneInEmptyWindow(times: seq<int>, from: int, to: int)
    requires to < from
    ensures CountIn(times, from, to) == 0
  {
    if times != [] { NoneInEmptyWindow(times[..|times| - 1], from, to); }
  }

  /** A window of a given width holds at most width / interval + 1 triggers of a schedule. */
  lemma WindowBound(states: seq<System>, steps: seq<Step>, id: string, gap: int, from: int, width: nat)
    requires gap > 0 && IsRun(states, steps) && forall k :: 0 <= k < |steps| ==> RespectsGap(steps[k], id, gap)
    ensures CountIn(TimesOf(states[|steps|].triggers, id), from, from + width) <= width / gap + 1
  {
    hide CountIn;
    RunKeepsPace(states, steps, id, gap);
    var c := CountIn(TimesOf(states[|steps|].triggers, id), from, from + width);
    CountIsSpread(TimesOf(states[|steps|].triggers, id), gap, from, from + width);
    QuotientBound(c, gap, width);
  }

  // ---- Interval schedules keep running ----

  /** Every enabled schedule with an interval carries a next run. */
  ghost predicate AllArmed(st: System)
  {
    forall id :: id in st.records && st.records[id].schedule.enabled && st.records[id].schedule.trigger.Interval? ==>
      st.records[id].nextRunAt.Some?
  }

  lemma {:induction false} RunStaysArmed(states: seq<System>, steps: seq<Step>, k: nat)
    requires IsRun(states, steps) && k <= |steps|
    ensures AllArmed(states[k])
  {
    if k > 0 {
      hide Due;
      RunStaysArmed(states, steps, k - 1);
    }
  }

  /** The schedule is stored as given, runs next at the given time, and does not wait to be triggered. */
  ghost predicate ArmedFor(st: System, schedule: Schedule, at: int)
  {
    && schedule.id in st.records && st.records[schedule.id].schedule == schedule
    && st.records[schedule.id].nextRunAt == Some(at) && schedule.id !in st.pending
  }

  predicate IntervalSchedule(schedule: Schedule)
  {
    schedule.enabled && schedule.trigger.Interval?
  }

  /** A trigger arms an interval schedule for one interval later. */
  lemma TriggerArms(st: System, taskId: string, schedule: Schedule)
    requires Sound(st) && Enabled(st, DoTrigger(taskId)) && st.pending[0] == schedule.id
    requires IntervalSchedule(schedule) && schedule.id in st.records && st.records[schedule.id].schedule == schedule
    ensures ArmedFor(After(st, DoTrigger(taskId)), schedule, st.scannedAt + schedule.trigger.seconds * SECOND)
    ensures After(st, DoTrigger(taskId)).triggers == st.triggers + [(schedule.id, st.scannedAt)]
  {
    assert forall i :: 0 <= i < |st.pending| - 1 ==> st.pending[1..][i] == st.pending[i + 1];
  }

  /** So does its creation. */
  lemma CreationArms(st: System, schedule: Schedule, now: int)
    requires Enabled(st, DoUpsert(schedule, now))
    requires IntervalSchedule(schedule) && schedule.id !in st.records && schedule.id !in st.pending
    ensures ArmedFor(After(st, DoUpsert(schedule, now)), schedule, now + schedule.trigger.seconds * SECOND)
  {
  }

  predicate Edits(step: Step, id: string)
  {
    (step.DoUpsert? && step.schedule.id == id) || (step.DoDelete? && step.id == id)
  }

  ghost predicate Unedited(steps: seq<Step>, id: string, from: nat, to: nat)
    requires from <= to <= |steps|
  {
    forall k :: from <= k < to ==> !Edits(steps[k], id)
  }

  /** Until a scan at or after its next run, nothing happens to an armed schedule. */
  lemma {:induction false} StaysArmed(states: seq<System>, steps: seq<Step>, schedule: Schedule, at: int, m: nat, n: nat)
    requires IsRun(states, steps) && m <= n <= |steps| && ArmedFor(states[m], schedule, at)
    requires Unedited(steps, schedule.id, m, n)
    requires forall k :: m <= k < n && steps[k].DoScan? ==> steps[k].now < at
    ensures ArmedFor(states[n], schedule, at)
    ensures TimesOf(states[n].triggers, schedule.id) == TimesOf(states[m].triggers, schedule.id)
    decreases n
  {
    hide TimesOf, Due, Upserted, Marked;
    if m < n {
      StaysArmed(states, steps, schedule, at, m, n - 1);
      ArmedStep(states[n - 1], steps[n - 1], schedule, at);
    }
  }

  lemma ArmedStep(st: System, step: Step, schedule: Schedule, at: int)
    requires Enabled(st, step) && ArmedFor(st, schedule, at) && !Edits(step, schedule.id)
    requires step.DoScan? ==> step.now < at
    ensures ArmedFor(After(st, step), schedule, at)
    ensures TimesOf(After(st, step).triggers, schedule.id) == TimesOf(st.triggers, schedule.id)
  {
    hide TimesOf, Due, Upserted, Marked;
    match step
    case DoUpsert(_, _) =>
    case DoDelete(_) =>
    case DoScan(now) => DueMeaning(st.records, now);
    case DoTrigger(_) =>
      TimesOfAppend(st.triggers, st.pending[0], st.scannedAt, schedule.id);
      assert st.pending == [st.pending[0]] + st.pending[1..];
  }

  /** What a scan has found is still waiting, or was triggered with the time of the scan. */
  lemma {:induction false} WaitsOrRan(states: seq<System>, steps: seq<Step>, id: string, n: nat, e: nat)
    requires IsRun(states, steps) && n <= e <= |steps| && Unedited(steps, id, n, e)
    requires id in states[n].pending && id in states[n].records
    ensures (id in states[e].pending && id in states[e].records && states[e].scannedAt == states[n].scannedAt)
      || (id, states[n].scannedAt) in states[e].triggers
    decreases e
  {
    hide Due, Upserted, Marked;
    if n < e {
      WaitsOrRan(states, steps, id, n, e - 1);
      var st := states[e - 1];
      assert steps[e - 1].DoTrigger? ==> st.pending == [st.pending[0]] + st.pending[1..];
    }
  }

  /** In every run, a schedule with an interval that stays stored and unedited runs again: the first
      scan at or after its next run, which is one interval after its last trigger or its creation,
      finds it due, no scan before does, and by the end of that round it has been triggered. */
  lemma IntervalKeepsRunning(states: seq<System>, steps: seq<Step>, schedule: Schedule, at: int, m: nat, n: nat, e: nat)
    requires IsRun(states, steps) && m <= n < e <= |steps|
    requires IntervalSchedule(schedule) && ArmedFor(states[m], schedule, at) && Unedited(steps, schedule.id, m, e)
    requires (forall k :: m <= k < n && steps[k].DoScan? ==> steps[k].now < at) && steps[n].DoScan? && steps[n].now >= at
    requires states[e].pending == []
    ensures TimesOf(states[n].triggers, schedule.id) == TimesOf(states[m].triggers, schedule.id)
    ensures schedule.id in states[n + 1].pending
    ensures (schedule.id, steps[n].now) in states[e].triggers
  {
    hide TimesOf, Due, Upserted, Marked;
    StaysArmed(states, steps, schedule, at, m, n);
    DueMeaning(states[n].records, steps[n].now);
    WaitsOrRan(states, steps, schedule.id, n + 1, e);
  }

  // ---- A schedule that no longer runs at intervals ----

  /** The step does not give the schedule an interval. */
  predicate GivesNoInterval(step: Step, id: string)
  {
    step.DoUpsert? && step.schedule.id == id ==> !step.schedule.trigger.Interval?
  }

  /** The schedule is stored without an interval, or not at all. */
  predicate WithoutInterval(st: System, id: string)
  {
    id in st.records ==> !st.records[id].schedule.trigger.Interval?
  }

  /** The schedule waits to be triggered, or still carries a next run from when it had an interval. */
  predicate Charged(st: System, id: string)
  {
    id in st.pending || (id in st.records && st.records[id].nextRunAt.Some?)
  }

  function Charge(st: System, id: string): nat
  {
    if Charged(st, id) then 1 else 0
  }

  /** What every reachable state keeps, whatever the steps. */
  ghost predicate Sound(st: System)
  {
    && Distinct(st.pending)
    && forall id :: id in st.records ==>
         st.records[id].schedule.id == id && (!st.records[id].schedule.enabled ==> st.records[id].nextRunAt.None?)
  }

  lemma StepKeepsSound(st: System, step: Step)
    requires Enabled(st, step) && Sound(st)
    ensures Sound(After(st, step))
  {
    hide Due;
    match step
    case DoUpsert(_, _) =>
    case DoDelete(_) =>
    case DoScan(now) => DueMeaning(st.records, now);
    case DoTrigger(_) =>
      assert forall i :: 0 <= i < |st.pending| - 1 ==> st.pending[1..][i] == st.pending[i + 1];
  }

  function TriggerCount(st: System, id: string): nat
  {
    |TimesOf(st.triggers, id)|
  }

  /** A step can only use the charge up: every trigger costs one. */
  lemma StepSpendsCharge(st: System, step: Step, id: string)
    requires Enabled(st, step) && Sound(st) && WithoutInterval(st, id) && GivesNoInterval(step, id)
    ensures WithoutInterval(After(st, step), id)
    ensures TriggerCount(st, id) <= TriggerCount(After(st, step), id)
    ensures TriggerCount(After(st, step), id) + Charge(After(st, step), id) <= TriggerCount(st, id) + Charge(st, id)
  {
    hide TimesOf;
    match step
    case DoUpsert(_, _) =>
    case DoDelete(_) =>
    case DoScan(now) => DueMeaning(st.records, now);
    case DoTrigger(_) =>
      var who := st.pending[0];
      TimesOfAppend(st.triggers, who, st.scannedAt, id);
      assert forall i :: 0 <= i < |st.pending| - 1 ==> st.pending[1..][i] == st.pending[i + 1];
      assert st.pending == [who] + st.pending[1..];
  }

  /** From some state of a run on, no upsert gives the schedule an interval. */
  ghost predicate IntervalGone(states: seq<System>, steps: seq<Step>, id: string, m: nat)
    requires |states| == |steps| + 1
  {
    m <= |steps| && WithoutInterval(states[m], id) && forall k :: m <= k < |steps| ==> GivesNoInterval(steps[k], id)
  }

  lemma {:induction false} RunKeepsSound(states: seq<System>, steps: seq<Step>, k: nat)
    requires IsRun(states, steps) && k <= |steps|
    ensures Sound(states[k])
  {
    if k > 0 {
      RunKeepsSound(states, steps, k - 1);
      StepKeepsSound(states[k - 1], steps[k - 1]);
    }
  }

  /** Once a schedule has lost its interval it is triggered at most once more, and not at all unless
      it was waiting to be triggered or still carried a next run. */
  lemma {:induction false} AtMostOneMoreTrigger(states: seq<System>, steps: seq<Step>, id: string, m: nat, n: nat)
    requires IsRun(states, steps) && IntervalGone(states, steps, id, m) && m <= n <= |steps|
    ensures WithoutInterval(states[n], id) && TriggerCount(states[m], id) <= TriggerCount(states[n], id)
    ensures TriggerCount(states[n], id) + Charge(states[n], id) <= TriggerCount(states[m], id) + Charge(states[m], id)
    decreases n
  {
    hide After, Enabled, Charge, WithoutInterval, GivesNoInterval, TriggerCount, Sound;
    if m < n {
      AtMostOneMoreTrigger(states, steps, id, m, n - 1);
      RunKeepsSound(states, steps, n - 1);
      StepSpendsCharge(states[n - 1], steps[n - 1], id);
    }
  }

  /** steps can follow on st, and none of them gives the schedule an interval. */
  ghost predicate CanFollow(st: System, steps: seq<Step>, id: string)
    decreases |steps|
  {
    steps == [] || (Enabled(st, steps[0]) && GivesNoInterval(steps[0], id) && CanFollow(After(st, steps[0]), steps[1..], id))
  }

  ghost function Reached(st: System, steps: seq<Step>, id: string): System
    requires CanFollow(st, steps, id)
    decreases |steps|
  {
    if steps == [] then st else Reached(After(st, steps[0]), steps[1..], id)
  }

  lemma {:induction false} ReachedSpendsCharge(st: System, steps: seq<Step>, id: string)
    requires Sound(st) && WithoutInterval(st, id) && CanFollow(st, steps, id)
    ensures TriggerCount(Reached(st, steps, id), id) <= TriggerCount(st, id) + Charge(st, id)
    decreases |steps|
  {
    hide After, Enabled, Charge, WithoutInterval, GivesNoInterval, TriggerCount, Sound;
    if steps != [] {
      StepKeepsSound(st, steps[0]);
      StepSpendsCharge(st, steps[0], id);
      ReachedSpendsCharge(After(st, steps[0]), steps[1..], id);
    }
  }

  lemma StepFirst(st: System, step: Step, more: seq<Step>, id: string)
    requires Enabled(st, step) && GivesNoInterval(step, id) && CanFollow(After(st, step), more, id)
    ensures CanFollow(st, [step] + more, id)
    ensures Reached(st, [step] + more, id) == Reached(After(st, step), more, id)
  {
    assert ([step] + more)[1..] == more;
  }

  /** What triggers a charged schedule: the executor works off what is pending, scans once the
      left-over next run has come, and reaches it. */
  lemma {:induction false} ChargedCanFire(st: System, id: string) returns (steps: seq<Step>)
    requires Sound(st) && WithoutInterval(st, id) && Charged(st, id)
    ensures CanFollow(st, steps, id) && TriggerCount(Reached(st, steps, id), id) > TriggerCount(st, id)
    decreases id !in st.pending, |st.pending|, id !in st.records
  {
    hide TimesOf, Sound;
    var step;
    if st.pending == [] {
      step := DoScan(if st.clock < st.records[id].nextRunAt.value then st.records[id].nextRunAt.value else st.clock);
      DueMeaning(st.records, step.now);
      assert IsDue(st.records[id], step.now) by { StoredAsEnabled(st, id); }
    } else if st.pending[0] != id || id in st.records {
      step := DoTrigger("");
      assert st.pending == [st.pending[0]] + st.pending[1..];
      TimesOfAppend(st.triggers, st.pending[0], st.scannedAt, id);
    } else {
      step := DoUpsert(Schedule(id, "", Manual, true), st.clock);
    }
    StepKeepsSound(st, step);
    StepSpendsCharge(st, step, id);
    if TriggerCount(After(st, step), id) > TriggerCount(st, id) {
      steps := [];
    } else {
      steps := ChargedCanFire(After(st, step), id);
    }
    StepFirst(st, step, steps, id);
    steps := [step] + steps;
  }

  lemma StoredAsEnabled(st: System, id: string)
    requires Sound(st) && id in st.records && st.records[id].nextRunAt.Some?
    ensures st.records[id].schedule.enabled
  {
  }

  /** A schedule without an interval can be triggered again if and only if it waits to be triggered
      or carries a next run, left over from when it had an interval. */
  lemma FiresAgainExactlyWhen(states: seq<System>, steps: seq<Step>, id: string)
    requires IsRun(states, steps) && WithoutInterval(states[|steps|], id)
    ensures var st := states[|steps|];
      (exists more :: CanFollow(st, more, id) && TriggerCount(Reached(st, more, id), id) > TriggerCount(st, id))
        <==> Charged(st, id)
  {
    hide CanFollow, Reached, TriggerCount, Charged;
    RunKeepsSound(states, steps, |steps|);
    var st := states[|steps|];
    if Charged(st, id) {
      var more := ChargedCanFire(st, id);
    } else {
      forall more | CanFollow(st, more, id) ensures TriggerCount(Reached(st, more, id), id) <= TriggerCount(st, id) {
        ReachedSpendsCharge(st, more, id);
      }
    }
  }

  /** An upserted schedule without an interval carries a next run exactly when it is enabled and the
      record it replaces carried one. */
  lemma LeftOverExactlyWhen(existing: Option<Record>, schedule: Schedule, now: int)
    requires !schedule.trigger.Interval?
    ensures Upserted(existing, schedule, now).nextRunAt ==
      if schedule.enabled && existing.Some? then existing.value.nextRunAt else None
  {
  }

  /** A schedule created with an interval, switched to manual before its first run, and then run by
      the executor all the same. */
  lemma SwitchedScheduleFires(id: string, seconds: nat, start: int) returns (states: seq<System>, steps: seq<Step>)
    ensures steps == [DoUpsert(Schedule(id, "", Interval(seconds), true), start),
                      DoUpsert(Schedule(id, "", Manual, true), start),
                      DoScan(start + seconds * SECOND), DoTrigger("task_1")]
    ensures IsRun(states, steps) && IntervalGone(states, steps, id, 2)
    ensures TimesOf(states[4].triggers, id) == [start + seconds * SECOND]
  {
    hide Due, TimesOf;
    var due := start + seconds * SECOND;
    var interval, manual := Schedule(id, "", Interval(seconds), true), Schedule(id, "", Manual, true);
    SwitchedRecord(interval, manual, start);
    steps := [DoUpsert(interval, start), DoUpsert(manual, start), DoScan(due), DoTrigger("task_1")];
    var waiting := Record(manual, Some(due), None, None, 0);
    var s0 := System(map[], start, [], start, []);
    var s1 := System(map[id := waiting.(schedule := interval)], start, [], start, []);
    var s2 := System(map[id := waiting], start, [], start, []);
    var s3 := System(map[id := waiting], due, [id], due, []);
    var s4 := System(map[id := Marked(waiting, Some("task_1"), due)], due, [], due, [(id, due)]);
    OnlyOneDue(s2.records, id, due);
    TimesOfAppend([], id, due, id);
    assert [] + [(id, due)] == [(id, due)] && [id][1..] == [];
    states := [s0, s1, s2, s3, s4];
    assert IsRun(states, steps);
    NoTimes(id);
  }

  lemma NoTimes(id: string)
    ensures TimesOf([], id) == []
  {
  }

  lemma SwitchedRecord(interval: Schedule, manual: Schedule, start: int)
    requires interval.trigger.Interval? && interval.enabled && !manual.trigger.Interval? && manual.enabled
    ensures var due := Some(start + interval.trigger.seconds * SECOND);
      && Upserted(None, interval, start) == Record(interval, due, None, None, 0)
      && Upserted(Some(Record(interval, due, None, None, 0)), manual, start) == Record(manual, due, None, None, 0)
    ensures interval.trigger.seconds * SECOND >= 0
  {
  }

  lemma OnlyOneDue(records: Records, id: string, now: int)
    requires records.Keys == {id} && IsDue(records[id], now)
    ensures Due(records, now) == [id]
  {
    var ids := Order.Ascending(records.Keys);
    assert ids[0] in ids;
    assert ids == [id] && ids[1..] == [];
    assert DueAmong(records, ids, now) == [id] + DueAmong(records, [], now);
  }

  // ---- A round of the executor is a scan followed by its triggers ----

  /** Triggering everything that is pending, with nothing in between. */
  function Drained(st: System, taskIds: nat -> string, k: nat): System
    decreases |st.pending|
  {
    if st.pending == [] then st else Drained(After(st, DoTrigger(taskIds(k))), taskIds, k + 1)
  }

  lemma {:induction false} DrainedRecords(st: System, scanned: Records, ids: seq<string>, taskIds: nat -> string, k: nat)
    requires k <= |ids| && st.pending == ids[k..]
    requires st.records == AllMarked(scanned, ids[..k], taskIds, st.scannedAt)
    ensures Drained(st, taskIds, k).records == AllMarked(scanned, ids, taskIds, st.scannedAt)
    decreases |ids| - k
  {
    if k < |ids| {
      assert ids[..k + 1][..k] == ids[..k];
      assert ids[k..][1..] == ids[k + 1..];
      DrainedRecords(After(st, DoTrigger(taskIds(k))), scanned, ids, taskIds, k + 1);
    } else {
      assert ids[..k] == ids;
    }
  }

  /** What RunDueSchedules does to the store is what the interleaved system does when nobody
      interferes. */
  lemma RoundIsScanThenTriggers(st: System, now: int, taskIds: nat -> string)
    requires Enabled(st, DoScan(now))
    ensures Drained(After(st, DoScan(now)), taskIds, 0).records
      == AllMarked(st.records, Due(st.records, now), taskIds, now)
  {
    var due := Due(st.records, now);
    assert due[0..] == due && due[..0] == [];
    DrainedRecords(After(st, DoScan(now)), st.records, due, taskIds, 0);
  }
}
