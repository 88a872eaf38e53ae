/** Numbered identifiers across restarts: the counters that issue them, and the scan of everything
    persisted that sets the counters when the daemon starts. */
module Identity {
  import opened Decimal
  import opened Wrappers
  import Text

  // ---- One identifier ----

  function NumberedId(prefix: string, n: nat): string
  {
    prefix + Print(n)
  }

  function LeadingDigits(s: string): (digits: string)
    ensures AllDigits(digits)
  {
    if s == "" || !IsDigit(s[0]) then "" else [s[0]] + LeadingDigits(s[1..])
  }

  /** The first number after the one in the identifier, as far as it holds one. */
  function NextCounterValue(id: string, prefix: string): (next: nat)
    ensures 1 <= next <= U64_MAX
  {
    if !(prefix <= id) then 1
    else
      var digits := LeadingDigits(id[|prefix|..]);
      if digits == "" || Value(digits) > U64_MAX then 1
      else if Value(digits) < U64_MAX then Value(digits) + 1
      else U64_MAX
  }

  lemma {:induction false} AllLeadingDigits(s: string)
    requires AllDigits(s)
    ensures LeadingDigits(s) == s
  {
    if s != "" {
      AllLeadingDigits(s[1..]);
    }
  }

  /** A persisted number is passed, except the largest, and except those too large to parse. */
  lemma NextAfterNumbered(prefix: string, n: nat)
    ensures NextCounterValue(NumberedId(prefix, n), prefix)
      == if n < U64_MAX then n + 1 else if n == U64_MAX then U64_MAX else 1
  {
    assert NumberedId(prefix, n)[|prefix|..] == Print(n);
    AllLeadingDigits(Print(n));
    ValueOfPrint(n);
  }

  /** What any identifier asks for: one more than the digits right after the prefix say, whatever
      follows them; one where there is no prefix, no digit or too large a number. */
  lemma NextCounterValueMeaning(prefix: string, digits: string, rest: string)
    requires AllDigits(digits) && (rest == "" || !IsDigit(rest[0]))
    ensures NextCounterValue(prefix + digits + rest, prefix) ==
      if digits == "" || Value(digits) > U64_MAX then 1 else if Value(digits) == U64_MAX then U64_MAX else Value(digits) + 1
    ensures forall id :: !(prefix <= id) ==> NextCounterValue(id, prefix) == 1
  {
    assert (prefix + digits + rest)[|prefix|..] == digits + rest;
    LeadingDigitsStop(digits, rest);
  }

  lemma {:induction false} LeadingDigitsStop(digits: string, rest: string)
    requires AllDigits(digits) && (rest == "" || !IsDigit(rest[0]))
    ensures LeadingDigits(digits + rest) == digits
  {
    if digits == "" {
      assert digits + rest == rest;
    } else {
      assert (digits + rest)[1..] == digits[1..] + rest;
      LeadingDigitsStop(digits[1..], rest);
    }
  }

  lemma NumberedInjective(prefix: string, m: nat, n: nat)
    requires NumberedId(prefix, m) == NumberedId(prefix, n)
    ensures m == n
  {
    assert NumberedId(prefix, m)[|prefix|..] == Print(m);
    assert NumberedId(prefix, n)[|prefix|..] == Print(n);
    PrintInjective(m, n);
  }

  // ---- A counter over many identifiers ----

  function Max(a: nat, b: nat): nat
  {
    if a >= b then a else b
  }

  /** A counter raised past each of the identifiers. */
  function Raised(start: nat, ids: seq<string>, prefix: string): nat
  {
    if ids == [] then start
    else Max(Raised(start, ids[..|ids| - 1], prefix), NextCounterValue(ids[|ids| - 1], prefix))
  }

  /** The least value that is not below the start nor below what any of the identifiers asks for. */
  lemma {:induction false} RaisedIsLeastBound(start: nat, ids: seq<string>, prefix: string)
    ensures start <= Raised(start, ids, prefix)
    ensures forall i :: 0 <= i < |ids| ==> NextCounterValue(ids[i], prefix) <= Raised(start, ids, prefix)
    ensures Raised(start, ids, prefix) == start
      || exists i :: 0 <= i < |ids| && Raised(start, ids, prefix) == NextCounterValue(ids[i], prefix)
  {
    if ids != [] {
      var n := |ids| - 1;
      RaisedIsLeastBound(start, ids[..n], prefix);
      assert forall i :: 0 <= i < n ==> ids[..n][i] == ids[i];
      if Raised(start, ids, prefix) != start && Raised(start, ids, prefix) == Raised(start, ids[..n], prefix) {
        var i :| 0 <= i < n && Raised(start, ids[..n], prefix) == NextCounterValue(ids[..n][i], prefix);
        assert Raised(start, ids, prefix) == NextCounterValue(ids[i], prefix);
      }
    }
  }

  lemma {:induction false} RaisedConcat(start: nat, first: seq<string>, second: seq<string>, prefix: string)
    ensures Raised(start, first + second, prefix) == Raised(Raised(start, first, prefix), second, prefix)
  {
    if second == [] {
      assert first + second == first;
    } else {
      var n := |second| - 1;
      assert (first + second)[..|first| + n] == first + second[..n];
      RaisedConcat(start, first, second[..n], prefix);
    }
  }

  /** The k-th identifier issued by a counter; the counter wraps around at the end of its range. */
  function Issued(start: nat, prefix: string, k: nat): string
  {
    NumberedId(prefix, (start + k) % (U64_MAX + 1))
  }

  /** The identifiers that a freshly seeded counter issues before it wraps around are all different.
      They also differ from everything persisted exactly when the identifier with the largest number
      is not persisted: its successor cannot be expressed, so the counter starts on it again. */
  lemma IssuedFreshExactlyWhen(ids: seq<string>, prefix: string, count: nat)
    requires count >= 1 && Raised(1, ids, prefix) + count - 1 <= U64_MAX
    ensures var seed := Raised(1, ids, prefix);
      && (forall j, k :: 0 <= j < k < count ==> Issued(seed, prefix, j) != Issued(seed, prefix, k))
      && ((forall k :: 0 <= k < count ==> Issued(seed, prefix, k) !in ids) <==> NumberedId(prefix, U64_MAX) !in ids)
  {
    hide NextCounterValue, NumberedId, Raised, Issued;
    var seed := Raised(1, ids, prefix);
    IssuedInOrder(seed, prefix, count);
    SeedInRange(ids, prefix);
    RaisedIsLeastBound(1, ids, prefix);
    forall k: nat | k < count && Issued(seed, prefix, k) in ids ensures seed + k == U64_MAX {
      NextAfterNumbered(prefix, seed + k);
    }
    if NumberedId(prefix, U64_MAX) in ids {
      NextAfterNumbered(prefix, U64_MAX);
      assert Issued(seed, prefix, 0) == NumberedId(prefix, U64_MAX);
    }
  }

  lemma IssuedInOrder(start: nat, prefix: string, count: nat)
    requires start + count <= U64_MAX + 1
    ensures forall k: nat :: k < count ==> Issued(start, prefix, k) == NumberedId(prefix, start + k)
    ensures forall j: nat, k: nat :: j < k < count ==> Issued(start, prefix, j) != Issued(start, prefix, k)
  {
    hide NumberedId;
    forall j: nat, k: nat | j < k < count ensures Issued(start, prefix, j) != Issued(start, prefix, k) {
      if Issued(start, prefix, j) == Issued(start, prefix, k) {
        NumberedInjective(prefix, start + j, start + k);
      }
    }
  }

  /** What an atomic fetch-and-add leaves behind. */
  function Bumped(counter: nat): nat
  {
    (counter + 1) % (U64_MAX + 1)
  }

  lemma NumberedTrimmed(prefix: string, n: nat)
    requires prefix != "" && !Text.IsWhitespace(prefix[0])
    ensures NumberedId(prefix, n) != "" && Text.Trim(NumberedId(prefix, n)) == NumberedId(prefix, n)
  {
    var id := NumberedId(prefix, n);
    assert id[|id| - 1] == Print(n)[|Print(n)| - 1];
    assert IsDigit(id[|id| - 1]);
  }

  lemma SeedInRange(ids: seq<string>, prefix: string)
    ensures 1 <= Raised(1, ids, prefix) <= U64_MAX
  {
    RaisedIsLeastBound(1, ids, prefix);
  }

  // ---- What is persisted ----

  datatype EventRef = EventRef(eventId: string, turnId: Option<string>)

  datatype SessionRecord = SessionRecord(
    sessionId: string,
    lastTurnId: Option<string>,
    messageIds: seq<Option<string>>,
    events: seq<EventRef>)

  datatype TimelineEntry = TimelineEntry(turnId: Option<string>, eventId: Option<string>)

  datatype Checkpoint = Checkpoint(checkpointId: string, turnId: Option<string>)

  datatype TaskRecord = TaskRecord(
    taskId: string,
    checkpointRef: Option<string>,
    timeline: seq<TimelineEntry>,
    checkpoints: seq<Checkpoint>)

  function Collect<T>(items: seq<T>, ids: T -> seq<string>): seq<string>
  {
    if items == [] then [] else Collect(items[..|items| - 1], ids) + ids(items[|items| - 1])
  }

  /** Nothing is left out and nothing is made up. */
  lemma {:induction false} CollectMeaning<T>(items: seq<T>, ids: T -> seq<string>, id: string)
    ensures id in Collect(items, ids) <==> exists i :: 0 <= i < |items| && id in ids(items[i])
  {
    if items != [] {
      var n := |items| - 1;
      CollectMeaning(items[..n], ids, id);
      if i :| 0 <= i < |items| && id in ids(items[i]) {
        assert i < n ==> items[..n][i] == items[i];
      }
    }
  }

  function Listed(id: Option<string>): seq<string>
  {
    match id
    case Some(value) => [value]
    case None => []
  }

  function EventIdOf(event: EventRef): seq<string> { [event.eventId] }
  function TurnOfEvent(event: EventRef): seq<string> { Listed(event.turnId) }
  function TurnOfEntry(entry: TimelineEntry): seq<string> { Listed(entry.turnId) }
  function EventOfEntry(entry: TimelineEntry): seq<string> { Listed(entry.eventId) }
  function CheckpointIdOf(checkpoint: Checkpoint): seq<string> { [checkpoint.checkpointId] }
  function TurnOfCheckpoint(checkpoint: Checkpoint): seq<string> { Listed(checkpoint.turnId) }

  function SessionIdOf(record: SessionRecord): seq<string> { [record.sessionId] }
  function MessagesOfSession(record: SessionRecord): seq<string> { Collect(record.messageIds, Listed) }
  function EventsOfSession(record: SessionRecord): seq<string> { Collect(record.events, EventIdOf) }
  function TurnsOfSession(record: SessionRecord): seq<string>
  {
    Listed(record.lastTurnId) + Collect(record.events, TurnOfEvent)
  }

  function TaskIdOf(record: TaskRecord): seq<string> { [record.taskId] }
  function TurnsOfTask(record: TaskRecord): seq<string>
  {
    Collect(record.timeline, TurnOfEntry) + Collect(record.checkpoints, TurnOfCheckpoint)
  }
  function EventsOfTask(record: TaskRecord): seq<string> { Collect(record.timeline, EventOfEntry) }
  function CheckpointsOfTask(record: TaskRecord): seq<string>
  {
    Listed(record.checkpointRef) + Collect(record.checkpoints, CheckpointIdOf)
  }

  lemma RaisedByOne<T>(start: nat, items: seq<T>, ids: T -> seq<string>, i: nat, prefix: string)
    requires i < |items|
    ensures Raised(start, Collect(items[..i + 1], ids), prefix)
      == Raised(Raised(start, Collect(items[..i], ids), prefix), ids(items[i]), prefix)
  {
    assert items[..i + 1][..i] == items[..i];
    RaisedConcat(start, Collect(items[..i], ids), ids(items[i]), prefix);
  }

  lemma RaisedByAtMostOne(start: nat, id: Option<string>, prefix: string)
    ensures Raised(start, Listed(id), prefix)
      == if id.Some? then Max(start, NextCounterValue(id.value, prefix)) else start
  {
    if id.Some? {
      assert Listed(id)[..0] == [];
    }
  }

  lemma RaisedBySingle(start: nat, id: string, prefix: string)
    ensures Raised(start, [id], prefix) == Max(start, NextCounterValue(id, prefix))
  {
    assert [id][..0] == [];
  }

  // ---- One kind of identifier over many starts of the daemon ----

  /** issued are the numbers handed out since the last start, in order. outside are the identifiers
      that since then were saved without having been issued, such as session names that clients chose,
      and are still there. wrapped says whether the counter has run through its whole range. */
  datatype Ids = Ids(saved: set<string>, counter: nat, issued: seq<string>, outside: set<string>, wrapped: bool)

  datatype Step =
    | Issue
    | SaveIssued(id: string)
    | SaveOutside(id: string)
    | Remove(id: string)
    | Restart(listing: seq<string>)

  ghost predicate Enabled(st: Ids, step: Step)
  {
    match step
    case SaveIssued(id) => id in st.issued
    case Restart(listing) => forall id :: id in listing <==> id in st.saved
    case _ => true
  }

  function After(st: Ids, step: Step, prefix: string): Ids
  {
    match step
    case Issue =>
      st.(issued := st.issued + [NumberedId(prefix, st.counter)], counter := Bumped(st.counter),
          wrapped := st.wrapped || st.counter == U64_MAX)
    case SaveIssued(id) => st.(saved := st.saved + {id})
    case SaveOutside(id) => st.(saved := st.saved + {id}, outside := st.outside + {id})
    case Remove(id) => st.(saved := st.saved - {id}, outside := st.outside - {id})
    case Restart(listing) => Ids(st.saved, Raised(1, listing, prefix), [], {}, false)
  }

  ghost predicate IsRun(states: seq<Ids>, steps: seq<Step>, prefix: string)
  {
    && |states| == |steps| + 1
    && states[0] == Ids({}, 1, [], {}, false)
    && forall i :: 0 <= i < |steps| ==> Enabled(states[i], steps[i]) && states[i + 1] == After(states[i], steps[i], prefix)
  }

  /** What some run ends with. */
  ghost predicate Reachable(st: Ids, prefix: string)
  {
    exists states, steps :: IsRun(states, steps, prefix) && states[|steps|] == st
  }

  lemma ReachableStep(st: Ids, step: Step, prefix: string)
    requires Reachable(st, prefix) && Enabled(st, step)
    ensures Reachable(After(st, step, prefix), prefix)
  {
    hide After, Enabled;
    var states, steps :| IsRun(states, steps, prefix) && states[|steps|] == st;
    var states', steps' := states + [After(st, step, prefix)], steps + [step];
    forall i | 0 <= i < |steps'|
      ensures Enabled(states'[i], steps'[i]) && states'[i + 1] == After(states'[i], steps'[i], prefix)
    {
      if i < |steps| { assert states'[i] == states[i] && states'[i + 1] == states[i + 1] && steps'[i] == steps[i]; }
    }
    assert IsRun(states', steps', prefix);
  }

  /** A start of the daemon on whatever is persisted is reachable. */
  lemma StartReachable(saved: set<string>, listing: seq<string>, prefix: string)
    requires forall id :: id in listing <==> id in saved
    ensures Reachable(Ids(saved, Raised(1, listing, prefix), [], {}, false), prefix)
  {
    var st := Ids(saved, 1, [], saved, false);
    SavedReachable(saved, prefix);
    ReachableStep(st, Restart(listing), prefix);
  }

  lemma {:induction false} SavedReachable(saved: set<string>, prefix: string)
    ensures Reachable(Ids(saved, 1, [], saved, false), prefix)
  {
    if saved == {} {
      assert IsRun([Ids({}, 1, [], {}, false)], [], prefix);
    } else {
      var id :| id in saved;
      SavedReachable(saved - {id}, prefix);
      ReachableStep(Ids(saved - {id}, 1, [], saved - {id}, false), SaveOutside(id), prefix);
      assert saved - {id} + {id} == saved;
    }
  }

  /** Everything saved is behind the counter, apart from what came from outside. */
  ghost predicate Ahead(st: Ids, prefix: string)
  {
    && |st.issued| < st.counter <= U64_MAX
    && (forall i: nat :: i < |st.issued| ==> st.issued[i] == NumberedId(prefix, st.counter - |st.issued| + i))
    && (forall n: nat :: st.counter <= n < U64_MAX && NumberedId(prefix, n) in st.saved ==> NumberedId(prefix, n) in st.outside)
    && st.outside <= st.saved
  }

  lemma StepStaysAhead(st: Ids, step: Step, prefix: string)
    requires Enabled(st, step) && (st.wrapped || Ahead(st, prefix))
    ensures After(st, step, prefix).wrapped || Ahead(After(st, step, prefix), prefix)
  {
    hide NumberedId, Raised, NextCounterValue;
    match step
    case SaveIssued(id) =>
      if !st.wrapped {
        var i :| 0 <= i < |st.issued| && st.issued[i] == id;
        forall n: nat | st.counter <= n < U64_MAX && NumberedId(prefix, n) == id ensures false {
          NumberedInjective(prefix, n, st.counter - |st.issued| + i);
        }
      }
    case Restart(listing) =>
      RaisedIsLeastBound(1, listing, prefix);
      forall n: nat | n < U64_MAX && NumberedId(prefix, n) in st.saved ensures n < Raised(1, listing, prefix) {
        NextAfterNumbered(prefix, n);
      }
    case _ =>
  }

  lemma {:induction false} RunStaysAhead(states: seq<Ids>, steps: seq<Step>, prefix: string)
    requires IsRun(states, steps, prefix)
    ensures states[|steps|].wrapped || Ahead(states[|steps|], prefix)
    decreases |steps|
  {
    if steps != [] {
      var n := |steps| - 1;
      RunStaysAhead(states[..n + 1], steps[..n], prefix);
      StepStaysAhead(states[n], steps[n], prefix);
    }
  }

  lemma ReachableIsAhead(st: Ids, prefix: string)
    requires Reachable(st, prefix)
    ensures st.wrapped || Ahead(st, prefix)
  {
    hide Ahead;
    var states, steps :| IsRun(states, steps, prefix) && states[|steps|] == st;
    RunStaysAhead(states, steps, prefix);
  }

  /** After any number of restarts, the next identifier differs from all that were issued since the
      last one, and it is persisted already exactly when somebody saved it from outside since then. */
  lemma NextIsFreshExactlyWhen(st: Ids, prefix: string)
    requires Reachable(st, prefix) && !st.wrapped && st.counter < U64_MAX
    ensures NumberedId(prefix, st.counter) !in st.issued
    ensures forall i, j :: 0 <= i < j < |st.issued| ==> st.issued[i] != st.issued[j]
    ensures NumberedId(prefix, st.counter) !in st.saved <==> NumberedId(prefix, st.counter) !in st.outside
  {
    hide NumberedId, Reachable;
    ReachableIsAhead(st, prefix);
    var start := st.counter - |st.issued|;
    forall i: nat | i < |st.issued| ensures st.issued[i] != NumberedId(prefix, st.counter) {
      if st.issued[i] == NumberedId(prefix, st.counter) { NumberedInjective(prefix, start + i, st.counter); }
    }
    forall i: nat, j: nat | i < j < |st.issued| ensures st.issued[i] != st.issued[j] {
      if st.issued[i] == st.issued[j] { NumberedInjective(prefix, start + i, start + j); }
    }
  }

  /** Where every record carries an identifier that was issued for it, no identifier is issued that
      is persisted already. */
  lemma {:induction false} NothingFromOutside(states: seq<Ids>, steps: seq<Step>, prefix: string)
    requires IsRun(states, steps, prefix) && forall i :: 0 <= i < |steps| ==> !steps[i].SaveOutside?
    ensures states[|steps|].outside == {}
    decreases |steps|
  {
    if steps != [] {
      var n := |steps| - 1;
      NothingFromOutside(states[..n + 1], steps[..n], prefix);
    }
  }

  lemma AlwaysFresh(states: seq<Ids>, steps: seq<Step>, prefix: string)
    requires IsRun(states, steps, prefix) && forall i :: 0 <= i < |steps| ==> !steps[i].SaveOutside?
    requires var st := states[|steps|]; !st.wrapped && st.counter < U64_MAX
    ensures NumberedId(prefix, states[|steps|].counter) !in states[|steps|].saved
  {
    NothingFromOutside(states, steps, prefix);
    NextIsFreshExactlyWhen(states[|steps|], prefix);
  }

  function Block(prefix: string, from: nat, count: nat): set<string>
  {
    if count == 0 then {} else Block(prefix, from, count - 1) + {NumberedId(prefix, from + count - 1)}
  }

  lemma {:induction false} BlockMembers(prefix: string, from: nat, count: nat)
    ensures forall id :: id in Block(prefix, from, count) <==> exists n: nat :: from <= n < from + count && id == NumberedId(prefix, n)
  {
    hide NumberedId;
    if count > 0 {
      BlockMembers(prefix, from, count - 1);
      var last := from + count - 1;
      forall id ensures id in Block(prefix, from, count)
        <==> exists n: nat :: from <= n < from + count && id == NumberedId(prefix, n)
      {
        assert id in Block(prefix, from, count) <==> id in Block(prefix, from, count - 1) || id == NumberedId(prefix, last);
      }
    }
  }

  lemma {:induction false} BlockSize(prefix: string, from: nat, count: nat)
    ensures |Block(prefix, from, count)| == count
  {
    hide NumberedId;
    if count > 0 {
      var earlier, last := Block(prefix, from, count - 1), from + count - 1;
      BlockSize(prefix, from, count - 1);
      BlockMembers(prefix, from, count - 1);
      if NumberedId(prefix, last) in earlier {
        var n: nat :| from <= n < last && NumberedId(prefix, last) == NumberedId(prefix, n);
        NumberedInjective(prefix, last, n);
        assert false;
      }
    }
  }

  lemma {:induction false} SubsetSize<T>(small: set<T>, large: set<T>)
    requires small <= large
    ensures |small| <= |large|
  {
    if small != {} {
      var x :| x in small;
      SubsetSize(small - {x}, large - {x});
    }
  }

  // ---- Sessions, whose identifiers clients may choose ----

  /** What the creation of a session does to the identifiers: a name of the client's is saved from
      outside unless it is empty or taken; without one a number is issued, and saved unless taken. */
  function CreationSteps(st: Ids, requested: Option<string>, prefix: string): seq<Step>
  {
    match requested
    case Some(name) =>
      var id := Text.Trim(name);
      if id == "" || id in st.saved then [] else [SaveOutside(id)]
    case None =>
      var id := NumberedId(prefix, st.counter);
      if id in st.saved then [Issue] else [Issue, SaveIssued(id)]
  }

  function AfterAll(st: Ids, steps: seq<Step>, prefix: string): Ids
    decreases |steps|
  {
    if steps == [] then st else AfterAll(After(st, steps[0], prefix), steps[1..], prefix)
  }

  lemma AfterFew(st: Ids, first: Step, second: Step, prefix: string)
    ensures AfterAll(st, [], prefix) == st
    ensures AfterAll(st, [first], prefix) == After(st, first, prefix)
    ensures AfterAll(st, [first, second], prefix) == After(After(st, first, prefix), second, prefix)
  {
    hide After;
    assert [first, second][1..] == [second] && [first][1..] == [] && [second][1..] == [];
    var st' := After(st, first, prefix);
    assert AfterAll(st, [first, second], prefix) == AfterAll(st', [second], prefix);
    assert AfterAll(st', [second], prefix) == AfterAll(After(st', second, prefix), [], prefix);
  }

  /** The state after each of so many refusals: a number is used up, and nothing else happens. */
  function AfterRefusals(st: Ids, count: nat, prefix: string): Ids
  {
    if count == 0 then st else After(AfterRefusals(st, count - 1, prefix), Issue, prefix)
  }

  lemma {:induction false} RefusalsMoveTheCounter(st: Ids, count: nat, prefix: string)
    requires st.counter + count <= U64_MAX
    ensures var later := AfterRefusals(st, count, prefix);
      later.saved == st.saved && later.counter == st.counter + count
  {
    hide NumberedId;
    if count > 0 { RefusalsMoveTheCounter(st, count - 1, prefix); }
  }

  /** How often in a row a client that leaves the choice to the daemon can be refused: once for each
      identifier that others chose since the last start. */
  lemma RefusalsAreBounded(st: Ids, prefix: string, refused: nat)
    requires Reachable(st, prefix) && !st.wrapped && st.counter + refused <= U64_MAX
    requires forall k: nat :: k < refused ==> CreationSteps(AfterRefusals(st, k, prefix), None, prefix) == [Issue]
    ensures refused <= |st.outside|
  {
    hide NumberedId, Reachable, AfterRefusals;
    ReachableIsAhead(st, prefix);
    BlockSize(prefix, st.counter, refused);
    BlockMembers(prefix, st.counter, refused);
    forall n: nat | st.counter <= n < st.counter + refused ensures NumberedId(prefix, n) in st.saved {
      var k: nat := n - st.counter;
      RefusalsMoveTheCounter(st, k, prefix);
      assert CreationSteps(AfterRefusals(st, k, prefix), None, prefix) == [Issue];
    }
    SubsetSize(Block(prefix, st.counter, refused), st.outside);
  }

  // ---- All kinds of identifiers, and where the scan finds them ----

  datatype Kind = SessionKind | MessageKind | TurnKind | EventKind | TaskKind | CheckpointKind | UsageKind | BillingKind

  function Prefix(kind: Kind): string
  {
    match kind
    case SessionKind => "session_"
    case MessageKind => "msg_"
    case TurnKind => "turn_"
    case EventKind => "evt_"
    case TaskKind => "task_"
    case CheckpointKind => "checkpoint_"
    case UsageKind => "usage_"
    case BillingKind => "billing_"
  }

  /** Everything that outlives the daemon, as far as it is scanned. */
  datatype Persisted = Persisted(
    sessions: seq<SessionRecord>,
    tasks: seq<TaskRecord>,
    usageIds: seq<string>,
    billingIds: seq<string>)

  /** The identifier stands in a field that the scan looks at for its kind. */
  ghost predicate Mentioned(kind: Kind, data: Persisted, id: string)
  {
    match kind
    case SessionKind => exists r :: r in data.sessions && r.sessionId == id
    case MessageKind => exists r :: r in data.sessions && Some(id) in r.messageIds
    case TurnKind =>
      || (exists r :: r in data.sessions && r.lastTurnId == Some(id))
      || (exists r, e :: r in data.sessions && e in r.events && e.turnId == Some(id))
      || (exists t, e :: t in data.tasks && e in t.timeline && e.turnId == Some(id))
      || (exists t, c :: t in data.tasks && c in t.checkpoints && c.turnId == Some(id))
    case EventKind =>
      || (exists r, e :: r in data.sessions && e in r.events && e.eventId == id)
      || (exists t, e :: t in data.tasks && e in t.timeline && e.eventId == Some(id))
    case TaskKind => exists t :: t in data.tasks && t.taskId == id
    case CheckpointKind =>
      || (exists t :: t in data.tasks && t.checkpointRef == Some(id))
      || (exists t, c :: t in data.tasks && c in t.checkpoints && c.checkpointId == id)
    case UsageKind => id in data.usageIds
    case BillingKind => id in data.billingIds
  }

  function Listing(kind: Kind, data: Persisted): seq<string>
  {
    match kind
    case SessionKind => Collect(data.sessions, SessionIdOf)
    case MessageKind => Collect(data.sessions, MessagesOfSession)
    case TurnKind => Collect(data.sessions, TurnsOfSession) + Collect(data.tasks, TurnsOfTask)
    case EventKind => Collect(data.sessions, EventsOfSession) + Collect(data.tasks, EventsOfTask)
    case TaskKind => Collect(data.tasks, TaskIdOf)
    case CheckpointKind => Collect(data.tasks, CheckpointsOfTask)
    case UsageKind => data.usageIds
    case BillingKind => data.billingIds
  }

  lemma CollectedFrom<T>(items: seq<T>, ids: T -> seq<string>, id: string)
    ensures id in Collect(items, ids) <==> exists x :: x in items && id in ids(x)
  {
    CollectMeaning(items, ids, id);
    if i :| 0 <= i < |items| && id in ids(items[i]) {
      assert items[i] in items;
    }
    if x :| x in items && id in ids(x) {
      var i :| 0 <= i < |items| && items[i] == x;
    }
  }

  lemma MessagesMentioned(record: SessionRecord, id: string)
    ensures id in MessagesOfSession(record) <==> Some(id) in record.messageIds
  {
    CollectedFrom(record.messageIds, Listed, id);
  }

  lemma TurnsMentioned(record: SessionRecord, id: string)
    ensures id in TurnsOfSession(record) <==> record.lastTurnId == Some(id) || exists e :: e in record.events && e.turnId == Some(id)
  {
    CollectedFrom(record.events, TurnOfEvent, id);
  }

  lemma EventsMentioned(record: SessionRecord, id: string)
    ensures id in EventsOfSession(record) <==> exists e :: e in record.events && e.eventId == id
  {
    CollectedFrom(record.events, EventIdOf, id);
  }

  lemma TaskTurnsMentioned(record: TaskRecord, id: string)
    ensures id in TurnsOfTask(record) <==>
      (exists e :: e in record.timeline && e.turnId == Some(id)) || exists c :: c in record.checkpoints && c.turnId == Some(id)
  {
    CollectedFrom(record.timeline, TurnOfEntry, id);
    CollectedFrom(record.checkpoints, TurnOfCheckpoint, id);
  }

  lemma TaskEventsMentioned(record: TaskRecord, id: string)
    ensures id in EventsOfTask(record) <==> exists e :: e in record.timeline && e.eventId == Some(id)
  {
    CollectedFrom(record.timeline, EventOfEntry, id);
  }

  lemma CheckpointsMentioned(record: TaskRecord, id: string)
    ensures id in CheckpointsOfTask(record) <==>
      record.checkpointRef == Some(id) || exists c :: c in record.checkpoints && c.checkpointId == id
  {
    CollectedFrom(record.checkpoints, CheckpointIdOf, id);
  }

  /** The scan considers exactly the identifiers in those fields. */
  lemma ListingExactlyWhen(kind: Kind, data: Persisted, id: string)
    ensures id in Listing(kind, data) <==> Mentioned(kind, data, id)
  {
    match kind
    case SessionKind => CollectedFrom(data.sessions, SessionIdOf, id);
    case MessageKind => MessagesListed(data, id);
    case TurnKind => TurnsListed(data, id);
    case EventKind => EventsListed(data, id);
    case TaskKind => CollectedFrom(data.tasks, TaskIdOf, id);
    case CheckpointKind => CheckpointsListed(data, id);
    case UsageKind =>
    case BillingKind =>
  }

  lemma MessagesListed(data: Persisted, id: string)
    ensures id in Listing(MessageKind, data) <==> Mentioned(MessageKind, data, id)
  {
    hide MessagesOfSession, Collect;
    CollectedFrom(data.sessions, MessagesOfSession, id);
    forall r | r in data.sessions ensures id in MessagesOfSession(r) <==> Some(id) in r.messageIds {
      MessagesMentioned(r, id);
    }
  }

  lemma TurnsListed(data: Persisted, id: string)
    ensures id in Listing(TurnKind, data) <==> Mentioned(TurnKind, data, id)
  {
    hide TurnsOfSession, TurnsOfTask, Collect;
    CollectedFrom(data.sessions, TurnsOfSession, id);
    CollectedFrom(data.tasks, TurnsOfTask, id);
    forall r | r in data.sessions
      ensures id in TurnsOfSession(r) <==> r.lastTurnId == Some(id) || exists e :: e in r.events && e.turnId == Some(id)
    {
      TurnsMentioned(r, id);
    }
    forall t | t in data.tasks
      ensures id in TurnsOfTask(t) <==>
        (exists e :: e in t.timeline && e.turnId == Some(id)) || exists c :: c in t.checkpoints && c.turnId == Some(id)
    {
      TaskTurnsMentioned(t, id);
    }
  }

  lemma EventsListed(data: Persisted, id: string)
    ensures id in Listing(EventKind, data) <==> Mentioned(EventKind, data, id)
  {
    hide EventsOfSession, EventsOfTask, Collect;
    CollectedFrom(data.sessions, EventsOfSession, id);
    CollectedFrom(data.tasks, EventsOfTask, id);
    forall r | r in data.sessions ensures id in EventsOfSession(r) <==> exists e :: e in r.events && e.eventId == id {
      EventsMentioned(r, id);
    }
    forall t | t in data.tasks ensures id in EventsOfTask(t) <==> exists e :: e in t.timeline && e.eventId == Some(id) {
      TaskEventsMentioned(t, id);
    }
  }

  lemma CheckpointsListed(data: Persisted, id: string)
    ensures id in Listing(CheckpointKind, data) <==> Mentioned(CheckpointKind, data, id)
  {
    hide CheckpointsOfTask, Collect;
    CollectedFrom(data.tasks, CheckpointsOfTask, id);
    forall t | t in data.tasks
      ensures id in CheckpointsOfTask(t) <==> t.checkpointRef == Some(id) || exists c :: c in t.checkpoints && c.checkpointId == id
    {
      CheckpointsMentioned(t, id);
    }
  }

  /** A seeded counter lies beyond every number that the scan has met. */
  ghost predicate Behind(kind: Kind, data: Persisted, counter: nat)
  {
    forall n: nat :: n < U64_MAX && Mentioned(kind, data, NumberedId(Prefix(kind), n)) ==> n < counter
  }

  lemma SeedIsBeyond(kind: Kind, data: Persisted)
    ensures Behind(kind, data, Raised(1, Listing(kind, data), Prefix(kind)))
  {
    hide Mentioned, Listing, NumberedId, NextCounterValue, Raised;
    var listing, prefix := Listing(kind, data), Prefix(kind);
    RaisedIsLeastBound(1, listing, prefix);
    forall n: nat | n < U64_MAX && Mentioned(kind, data, NumberedId(prefix, n)) ensures n < Raised(1, listing, prefix) {
      ListingExactlyWhen(kind, data, NumberedId(prefix, n));
      NextAfterNumbered(prefix, n);
    }
  }

  /** A history of identifiers of a kind that fits what is persisted and the counter; all that is
      persisted was issued for it, or was there at the start. */
  ghost predicate Follows(st: Ids, kind: Kind, data: Persisted, counter: nat)
  {
    && st.counter == counter && st.outside == {} && Reachable(st, Prefix(kind))
    && forall id :: id in st.saved <==> Mentioned(kind, data, id)
  }

  function StartIds(kind: Kind, data: Persisted): Ids
  {
    Ids((set id | id in Listing(kind, data)), Raised(1, Listing(kind, data), Prefix(kind)), [], {}, false)
  }

  lemma StartFollows(kind: Kind, data: Persisted)
    ensures Follows(StartIds(kind, data), kind, data, Raised(1, Listing(kind, data), Prefix(kind)))
  {
    hide Mentioned, Listing, Raised, Reachable;
    var listing := Listing(kind, data);
    StartReachable((set id | id in listing), listing, Prefix(kind));
    forall id ensures id in listing <==> Mentioned(kind, data, id) {
      ListingExactlyWhen(kind, data, id);
    }
  }

  /** The identifier stands in none of the fields, and was not issued before since the start. */
  ghost predicate IsNew(id: string, st: Ids, kind: Kind, data: Persisted)
  {
    !Mentioned(kind, data, id) && id !in st.issued
  }

  lemma IssueFollows(st: Ids, kind: Kind, data: Persisted, counter: nat)
    requires Follows(st, kind, data, counter)
    ensures Follows(After(st, Issue, Prefix(kind)), kind, data, Bumped(counter))
    ensures !st.wrapped && counter < U64_MAX ==> IsNew(NumberedId(Prefix(kind), counter), st, kind, data)
    ensures After(st, Issue, Prefix(kind)).issued == st.issued + [NumberedId(Prefix(kind), counter)]
  {
    hide Mentioned, NumberedId, Reachable;
    ReachableStep(st, Issue, Prefix(kind));
    if !st.wrapped && counter < U64_MAX {
      NextIsFreshExactlyWhen(st, Prefix(kind));
    }
  }

  const DEFAULT_SESSION := "session.default"

  function NewSession(id: string): SessionRecord
  {
    SessionRecord(id, None, [], [])
  }

  /** The session identifier is the key of the table. */
  ghost predicate AllDistinct(sessions: seq<SessionRecord>)
  {
    forall i, j :: 0 <= i < j < |sessions| ==> sessions[i].sessionId != sessions[j].sessionId
  }

  function SavedIds(sessions: seq<SessionRecord>): set<string>
  {
    set i | 0 <= i < |sessions| :: sessions[i].sessionId
  }

  function WithDefault(sessions: seq<SessionRecord>): seq<SessionRecord>
  {
    if DEFAULT_SESSION in SavedIds(sessions) then sessions else sessions + [NewSession(DEFAULT_SESSION)]
  }

  lemma DefaultKeepsDistinct(sessions: seq<SessionRecord>)
    requires AllDistinct(sessions)
    ensures AllDistinct(WithDefault(sessions))
  {
  }

  lemma ListingIsSaved(sessions: seq<SessionRecord>)
    ensures forall id :: id in Collect(sessions, SessionIdOf) <==> id in SavedIds(sessions)
  {
    forall id ensures id in Collect(sessions, SessionIdOf) <==> id in SavedIds(sessions) {
      CollectMeaning(sessions, SessionIdOf, id);
      if id in SavedIds(sessions) {
        var i :| 0 <= i < |sessions| && sessions[i].sessionId == id;
        assert id in SessionIdOf(sessions[i]);
      }
    }
  }

  lemma NotSaved(sessions: seq<SessionRecord>, id: string)
    requires id !in SavedIds(sessions)
    ensures forall i :: 0 <= i < |sessions| ==> sessions[i].sessionId != id
  {
  }

  lemma SavedOneMore(sessions: seq<SessionRecord>, id: string, st: Ids)
    requires st.saved == SavedIds(sessions)
    ensures SavedIds(sessions + [NewSession(id)]) == st.saved + {id}
    ensures After(st, SaveOutside(id), "session_").saved == st.saved + {id}
    ensures After(st, SaveOutside(id), "session_").counter == st.counter
  {
    var more := sessions + [NewSession(id)];
    forall x ensures x in SavedIds(more) <==> x in SavedIds(sessions) + {id} {
      if x in SavedIds(sessions) {
        var i :| 0 <= i < |sessions| && sessions[i].sessionId == x;
        assert more[i].sessionId == x;
      }
      if x == id { assert more[|sessions|].sessionId == x; }
    }
  }

  /** The name of the default session carries no number, and a new session mentions nothing else. */
  lemma DefaultSessionSeedsNothing(sessions: seq<SessionRecord>)
    ensures var more := sessions + [NewSession(DEFAULT_SESSION)];
      && Raised(1, Collect(more, SessionIdOf), "session_") == Raised(1, Collect(sessions, SessionIdOf), "session_")
      && Collect(more, MessagesOfSession) == Collect(sessions, MessagesOfSession)
      && Collect(more, TurnsOfSession) == Collect(sessions, TurnsOfSession)
      && Collect(more, EventsOfSession) == Collect(sessions, EventsOfSession)
  {
    var more := sessions + [NewSession(DEFAULT_SESSION)];
    assert more[..|sessions|] == sessions;
    assert DEFAULT_SESSION[7] != "session_"[7];
    RaisedByOne(1, more, SessionIdOf, |sessions|, "session_");
    assert more[..|sessions| + 1] == more;
    RaisedBySingle(Raised(1, Collect(sessions, SessionIdOf), "session_"), DEFAULT_SESSION, "session_");
    SeedInRange(Collect(sessions, SessionIdOf), "session_");
  }

  lemma NewSessionMentionsNothingElse(kind: Kind, data: Persisted, id: string)
    requires kind != SessionKind
    ensures forall x :: Mentioned(kind, data.(sessions := data.sessions + [NewSession(id)]), x) <==> Mentioned(kind, data, x)
  {
    var created := NewSession(id);
    var more := data.(sessions := data.sessions + [created]);
    assert forall r :: r in more.sessions <==> r in data.sessions || r == created;
    assert created.messageIds == [] && created.events == [] && created.lastTurnId == None;
  }

  lemma NewSessionFollows(st: Ids, kind: Kind, data: Persisted, counter: nat, id: string)
    requires kind != SessionKind && Follows(st, kind, data, counter)
    ensures Follows(st, kind, data.(sessions := data.sessions + [NewSession(id)]), counter)
  {
    hide Mentioned, Reachable;
    NewSessionMentionsNothingElse(kind, data, id);
  }

  datatype CreateError = EmptyId | Conflict(id: string)

  class DaemonStore {
    var sessions: seq<SessionRecord>
    var tasks: seq<TaskRecord>
    var usageIds: seq<string>
    var billingIds: seq<string>
    var nextSession: nat
    var nextMessage: nat
    var nextTurn: nat
    var nextEvent: nat
    var nextTask: nat
    var nextCheckpoint: nat
    var nextUsage: nat
    var nextBilling: nat
    /** What has become of session identifiers since the start. */
    ghost var ids: Ids
    /** And of those of every other kind. */
    ghost var others: map<Kind, Ids>

    ghost function Data(): Persisted
      reads this
    {
      Persisted(sessions, tasks, usageIds, billingIds)
    }

    ghost function Counter(kind: Kind): nat
      reads this
    {
      match kind
      case SessionKind => nextSession
      case MessageKind => nextMessage
      case TurnKind => nextTurn
      case EventKind => nextEvent
      case TaskKind => nextTask
      case CheckpointKind => nextCheckpoint
      case UsageKind => nextUsage
      case BillingKind => nextBilling
    }

    /** The histories of identifiers fit what is persisted and the counters. */
    ghost predicate Tracked()
      reads this
    {
      && ids.saved == SavedIds(sessions) && ids.counter == nextSession && Reachable(ids, "session_")
      && forall kind :: kind != SessionKind ==> kind in others && Follows(others[kind], kind, Data(), Counter(kind))
    }

    /** Every number in a scanned field is behind the counter of its kind. */
    ghost predicate AllBehind()
      reads this
    {
      forall kind :: Behind(kind, Data(), Counter(kind))
    }

    /** A start of the daemon on what an earlier one left behind. */
    constructor (sessions: seq<SessionRecord>, tasks: seq<TaskRecord>, usageIds: seq<string>, billingIds: seq<string>)
      ensures this.sessions == WithDefault(sessions) && this.tasks == tasks
      ensures this.usageIds == usageIds && this.billingIds == billingIds
      ensures Reseeded() && Tracked() && Started(sessions) && AllBehind()
      ensures AllDistinct(sessions) ==> SessionsDistinct()
    {
      this.sessions, this.tasks, this.usageIds, this.billingIds := sessions, tasks, usageIds, billingIds;
      nextSession, nextMessage, nextTurn, nextEvent := 1, 1, 1, 1;
      nextTask, nextCheckpoint, nextUsage, nextBilling := 1, 1, 1, 1;
      new;
      hide AllDistinct, SavedIds, WithDefault, DaemonStore.Reseeded, DaemonStore.Tracked, DaemonStore.Started;
      Start();
      if AllDistinct(sessions) { DefaultKeepsDistinct(sessions); }
    }

    method Start()
      modifies `nextSession, `nextMessage, `nextTurn, `nextEvent, `nextTask, `nextCheckpoint, `nextUsage, `nextBilling
      modifies `sessions, `ids, `others
      ensures Reseeded() && Tracked() && sessions == WithDefault(old(sessions)) && Started(old(sessions)) && AllBehind()
    {
      hide Collect, Raised, Reachable, SavedIds, WithDefault, After, DaemonStore.Reseeded, DaemonStore.Tracked, DaemonStore.AllBehind;
      ReseedIdentityCounters();
      StartTracking();
      EnsureDefaultSession();
      ReseededIsBehind();
    }

    /** Since the start nothing was issued, and at most the default session was added. */
    ghost predicate Started(found: seq<SessionRecord>)
      reads this
    {
      var start := Ids(SavedIds(found), nextSession, [], {}, false);
      && ids == (if DEFAULT_SESSION in start.saved then start else After(start, SaveOutside(DEFAULT_SESSION), "session_"))
      && forall kind :: kind in others ==> others[kind].issued == [] && !others[kind].wrapped
    }

    lemma ReseededIsBehind()
      requires Reseeded()
      ensures AllBehind()
    {
      hide Behind, Raised, Collect, NextCounterValue;
      forall kind ensures Behind(kind, Data(), Counter(kind)) {
        SeedIsBeyond(kind, Data());
      }
    }

    /** Nothing has been issued yet, and nothing has come from outside. */
    ghost method StartTracking()
      requires Reseeded()
      modifies `ids, `others
      ensures Reseeded() && Tracked()
      ensures ids == Ids(SavedIds(sessions), nextSession, [], {}, false)
      ensures forall kind :: kind in others ==> others[kind].issued == [] && !others[kind].wrapped
    {
      hide Collect, Raised, NextCounterValue, Reachable, SavedIds, Follows;
      ids := Ids(SavedIds(sessions), nextSession, [], {}, false);
      ListingIsSaved(sessions);
      StartReachable(SavedIds(sessions), Collect(sessions, SessionIdOf), "session_");
      var data := Data();
      others := map kind: Kind | kind in {MessageKind, TurnKind, EventKind, TaskKind, CheckpointKind, UsageKind, BillingKind}
        :: StartIds(kind, data);
      forall kind: Kind | kind != SessionKind ensures kind in others && Follows(others[kind], kind, data, Counter(kind)) {
        StartFollows(kind, data);
      }
    }

    method EnsureDefaultSession()
      requires Reseeded() && Tracked()
      modifies `sessions, `ids
      ensures Reseeded() && Tracked() && sessions == WithDefault(old(sessions))
      ensures ids == if DEFAULT_SESSION in old(ids).saved then old(ids) else After(old(ids), SaveOutside(DEFAULT_SESSION), "session_")
    {
      hide Collect, Raised, NextCounterValue, Reachable, After, SavedIds, Follows;
      var present := IsTaken(DEFAULT_SESSION);
      if present {
        return;
      }
      DefaultSessionSeedsNothing(sessions);
      SavedOneMore(sessions, DEFAULT_SESSION, ids);
      ReachableStep(ids, SaveOutside(DEFAULT_SESSION), "session_");
      OthersFollow(DEFAULT_SESSION);
      ids := After(ids, SaveOutside(DEFAULT_SESSION), "session_");
      sessions := sessions + [NewSession(DEFAULT_SESSION)];
    }

    /** A new session mentions no identifier of another kind. */
    lemma OthersFollow(id: string)
      requires Tracked()
      ensures var more := Data().(sessions := sessions + [NewSession(id)]);
        forall kind :: kind != SessionKind ==> kind in others && Follows(others[kind], kind, more, Counter(kind))
    {
      hide Follows, Reachable, NewSession;
      forall kind: Kind | kind != SessionKind
        ensures kind in others && Follows(others[kind], kind, Data().(sessions := sessions + [NewSession(id)]), Counter(kind))
      {
        NewSessionFollows(others[kind], kind, Data(), Counter(kind), id);
      }
    }

    /** Each counter is what the scanned identifiers of its kind ask for. */
    ghost predicate Reseeded()
      reads this
    {
      && nextSession == Raised(1, Collect(sessions, SessionIdOf), "session_")
      && nextMessage == Raised(1, Collect(sessions, MessagesOfSession), "msg_")
      && nextTurn == Raised(1, Collect(sessions, TurnsOfSession) + Collect(tasks, TurnsOfTask), "turn_")
      && nextEvent == Raised(1, Collect(sessions, EventsOfSession) + Collect(tasks, EventsOfTask), "evt_")
      && nextTask == Raised(1, Collect(tasks, TaskIdOf), "task_")
      && nextCheckpoint == Raised(1, Collect(tasks, CheckpointsOfTask), "checkpoint_")
      && nextUsage == Raised(1, usageIds, "usage_")
      && nextBilling == Raised(1, billingIds, "billing_")
    }

    method ReseedIdentityCounters()
      modifies `nextSession, `nextMessage, `nextTurn, `nextEvent, `nextTask, `nextCheckpoint, `nextUsage, `nextBilling
      ensures Reseeded()
    {
      hide Collect, Raised, NextCounterValue;
      var session, message, turn, event := ScanSessions(sessions);
      var task, checkpoint, turnInTasks, eventInTasks := ScanTasks(tasks, turn, event);
      RaisedConcat(1, Collect(sessions, TurnsOfSession), Collect(tasks, TurnsOfTask), "turn_");
      RaisedConcat(1, Collect(sessions, EventsOfSession), Collect(tasks, EventsOfTask), "evt_");
      var usage := ScanLedger(usageIds, "usage_");
      var billing := ScanLedger(billingIds, "billing_");
      nextSession, nextMessage, nextTurn, nextEvent := session, message, turnInTasks, eventInTasks;
      nextTask, nextCheckpoint, nextUsage, nextBilling := task, checkpoint, usage, billing;
    }

    method NextSessionId() returns (id: string)
      modifies `nextSession
      ensures id == NumberedId("session_", old(nextSession)) && nextSession == Bumped(old(nextSession))
    {
      id := NumberedId("session_", nextSession);
      nextSession := Bumped(nextSession);
    }

    method NextMessageId() returns (id: string)
      requires Tracked()
      modifies `nextMessage, `others
      ensures Tracked() && id == NumberedId("msg_", old(nextMessage)) && nextMessage == Bumped(old(nextMessage))
      ensures others == old(others)[MessageKind := After(old(others)[MessageKind], Issue, "msg_")]
      ensures !old(others)[MessageKind].wrapped && old(nextMessage) < U64_MAX ==> IsNew(id, old(others)[MessageKind], MessageKind, Data())
    {
      hide Follows, After, IsNew, Reachable, NumberedId;
      IssueFollows(others[MessageKind], MessageKind, Data(), nextMessage);
      others := others[MessageKind := After(others[MessageKind], Issue, "msg_")];
      id := NumberedId("msg_", nextMessage);
      nextMessage := Bumped(nextMessage);
    }

    method NextTurnId() returns (id: string)
      requires Tracked()
      modifies `nextTurn, `others
      ensures Tracked() && id == NumberedId("turn_", old(nextTurn)) && nextTurn == Bumped(old(nextTurn))
      ensures others == old(others)[TurnKind := After(old(others)[TurnKind], Issue, "turn_")]
      ensures !old(others)[TurnKind].wrapped && old(nextTurn) < U64_MAX ==> IsNew(id, old(others)[TurnKind], TurnKind, Data())
    {
      hide Follows, After, IsNew, Reachable, NumberedId;
      IssueFollows(others[TurnKind], TurnKind, Data(), nextTurn);
      others := others[TurnKind := After(others[TurnKind], Issue, "turn_")];
      id := NumberedId("turn_", nextTurn);
      nextTurn := Bumped(nextTurn);
    }

    method NextEventId() returns (id: string)
      requires Tracked()
      modifies `nextEvent, `others
      ensures Tracked() && id == NumberedId("evt_", old(nextEvent)) && nextEvent == Bumped(old(nextEvent))
      ensures others == old(others)[EventKind := After(old(others)[EventKind], Issue, "evt_")]
      ensures !old(others)[EventKind].wrapped && old(nextEvent) < U64_MAX ==> IsNew(id, old(others)[EventKind], EventKind, Data())
    {
      hide Follows, After, IsNew, Reachable, NumberedId;
      IssueFollows(others[EventKind], EventKind, Data(), nextEvent);
      others := others[EventKind := After(others[EventKind], Issue, "evt_")];
      id := NumberedId("evt_", nextEvent);
      nextEvent := Bumped(nextEvent);
    }

    method NextTaskId() returns (id: string)
      requires Tracked()
      modifies `nextTask, `others
      ensures Tracked() && id == NumberedId("task_", old(nextTask)) && nextTask == Bumped(old(nextTask))
      ensures others == old(others)[TaskKind := After(old(others)[TaskKind], Issue, "task_")]
      ensures !old(others)[TaskKind].wrapped && old(nextTask) < U64_MAX ==> IsNew(id, old(others)[TaskKind], TaskKind, Data())
    {
      hide Follows, After, IsNew, Reachable, NumberedId;
      IssueFollows(others[TaskKind], TaskKind, Data(), nextTask);
      others := others[TaskKind := After(others[TaskKind], Issue, "task_")];
      id := NumberedId("task_", nextTask);
      nextTask := Bumped(nextTask);
    }

    method NextCheckpointId() returns (id: string)
      requires Tracked()
      modifies `nextCheckpoint, `others
      ensures Tracked() && id == NumberedId("checkpoint_", old(nextCheckpoint)) && nextCheckpoint == Bumped(old(nextCheckpoint))
      ensures others == old(others)[CheckpointKind := After(old(others)[CheckpointKind], Issue, "checkpoint_")]
      ensures !old(others)[CheckpointKind].wrapped && old(nextCheckpoint) < U64_MAX ==> IsNew(id, old(others)[CheckpointKind], CheckpointKind, Data())
    {
      hide Follows, After, IsNew, Reachable, NumberedId;
      IssueFollows(others[CheckpointKind], CheckpointKind, Data(), nextCheckpoint);
      others := others[CheckpointKind := After(others[CheckpointKind], Issue, "checkpoint_")];
      id := NumberedId("checkpoint_", nextCheckpoint);
      nextCheckpoint := Bumped(nextCheckpoint);
    }

    method NextUsageId() returns (id: string)
      requires Tracked()
      modifies `nextUsage, `others
      ensures Tracked() && id == NumberedId("usage_", old(nextUsage)) && nextUsage == Bumped(old(nextUsage))
      ensures others == old(others)[UsageKind := After(old(others)[UsageKind], Issue, "usage_")]
      ensures !old(others)[UsageKind].wrapped && old(nextUsage) < U64_MAX ==> IsNew(id, old(others)[UsageKind], UsageKind, Data())
    {
      hide Follows, After, IsNew, Reachable, NumberedId;
      IssueFollows(others[UsageKind], UsageKind, Data(), nextUsage);
      others := others[UsageKind := After(others[UsageKind], Issue, "usage_")];
      id := NumberedId("usage_", nextUsage);
      nextUsage := Bumped(nextUsage);
    }

    method NextBillingId() returns (id: string)
      requires Tracked()
      modifies `nextBilling, `others
      ensures Tracked() && id == NumberedId("billing_", old(nextBilling)) && nextBilling == Bumped(old(nextBilling))
      ensures others == old(others)[BillingKind := After(old(others)[BillingKind], Issue, "billing_")]
      ensures !old(others)[BillingKind].wrapped && old(nextBilling) < U64_MAX ==> IsNew(id, old(others)[BillingKind], BillingKind, Data())
    {
      hide Follows, After, IsNew, Reachable, NumberedId;
      IssueFollows(others[BillingKind], BillingKind, Data(), nextBilling);
      others := others[BillingKind := After(others[BillingKind], Issue, "billing_")];
      id := NumberedId("billing_", nextBilling);
      nextBilling := Bumped(nextBilling);
    }

    ghost predicate SessionsDistinct()
      reads this
    {
      AllDistinct(sessions)
    }

    /** A new session under the identifier that the client asks for, or else under the next number.
        Nobody's session is ever replaced: an identifier that is taken is refused. A number is taken
        only if somebody chose it since the start. */
    method CreateSession(requested: Option<string>) returns (created: Result<string, CreateError>)
      requires SessionsDistinct() && Tracked()
      modifies `sessions, `nextSession, `ids
      ensures SessionsDistinct() && Tracked()
      ensures nextSession == if requested.Some? then old(nextSession) else Bumped(old(nextSession))
      ensures ids == AfterAll(old(ids), CreationSteps(old(ids), requested, "session_"), "session_")
      ensures var id := if requested.Some? then Text.Trim(requested.value) else NumberedId("session_", old(nextSession));
        && created == (if id == "" then Err(EmptyId) else if id in SavedIds(old(sessions)) then Err(Conflict(id)) else Ok(id))
        && sessions == old(sessions) + if created.Ok? then [NewSession(id)] else []
      ensures requested.None? && !old(ids).wrapped && old(nextSession) < U64_MAX ==>
        (created.Err? <==> NumberedId("session_", old(nextSession)) in old(ids).outside)
    {
      hide NumberedId, Reachable, SavedIds, AfterAll, Follows;
      var id;
      ghost var before := ids;
      AfterFew(before, Issue, SaveIssued(NumberedId("session_", nextSession)), "session_");
      if requested.Some? { AfterFew(before, SaveOutside(Text.Trim(requested.value)), Issue, "session_"); }
      if requested.Some? {
        id := requested.value;
      } else {
        id := NextSessionId();
        NumberedTrimmed("session_", old(nextSession));
        ReachableStep(ids, Issue, "session_");
        ids := After(ids, Issue, "session_");
        if !before.wrapped && old(nextSession) < U64_MAX { NextIsFreshExactlyWhen(before, "session_"); }
      }
      id := Text.Trim(id);
      if id == "" {
        return Err(EmptyId);
      }
      var taken := IsTaken(id);
      if taken {
        return Err(Conflict(id));
      }
      AddSession(id, if requested.Some? then SaveOutside(id) else SaveIssued(id));
      created := Ok(id);
    }

    method AddSession(id: string, ghost step: Step)
      requires SessionsDistinct() && Tracked() && id !in SavedIds(sessions)
      requires step == SaveOutside(id) || (step == SaveIssued(id) && id in ids.issued)
      modifies `sessions, `ids
      ensures SessionsDistinct() && Tracked()
      ensures sessions == old(sessions) + [NewSession(id)] && ids == After(old(ids), step, "session_")
    {
      hide NumberedId, Reachable, SavedIds, Follows;
      NotSaved(sessions, id);
      SavedOneMore(sessions, id, ids);
      ReachableStep(ids, step, "session_");
      OthersFollow(id);
      ids := After(ids, step, "session_");
      sessions := sessions + [NewSession(id)];
    }

    method IsTaken(id: string) returns (taken: bool)
      ensures taken <==> id in SavedIds(sessions)
    {
      taken := false;
      for i := 0 to |sessions|
        invariant taken <==> exists j :: 0 <= j < i && sessions[j].sessionId == id
      {
        if sessions[i].sessionId == id {
          taken := true;
        }
      }
    }
  }

  method ScanSessions(sessions: seq<SessionRecord>) returns (session: nat, message: nat, turn: nat, event: nat)
    ensures session == Raised(1, Collect(sessions, SessionIdOf), "session_")
    ensures message == Raised(1, Collect(sessions, MessagesOfSession), "msg_")
    ensures turn == Raised(1, Collect(sessions, TurnsOfSession), "turn_")
    ensures event == Raised(1, Collect(sessions, EventsOfSession), "evt_")
  {
    session, message, turn, event := 1, 1, 1, 1;
    for i := 0 to |sessions|
      invariant session == Raised(1, Collect(sessions[..i], SessionIdOf), "session_")
      invariant message == Raised(1, Collect(sessions[..i], MessagesOfSession), "msg_")
      invariant turn == Raised(1, Collect(sessions[..i], TurnsOfSession), "turn_")
      invariant event == Raised(1, Collect(sessions[..i], EventsOfSession), "evt_")
    {
      hide Collect, Raised, NextCounterValue;
      RaisedByOne(1, sessions, SessionIdOf, i, "session_");
      RaisedBySingle(session, sessions[i].sessionId, "session_");
      session := Max(session, NextCounterValue(sessions[i].sessionId, "session_"));
      RaisedByOne(1, sessions, MessagesOfSession, i, "msg_");
      message := ScanMessages(sessions[i].messageIds, message);
      RaisedByOne(1, sessions, TurnsOfSession, i, "turn_");
      RaisedByOne(1, sessions, EventsOfSession, i, "evt_");
      turn, event := ScanEvents(sessions[i], turn, event);
    }
    assert sessions[..|sessions|] == sessions;
  }

  method ScanMessages(messageIds: seq<Option<string>>, start: nat) returns (message: nat)
    ensures message == Raised(start, Collect(messageIds, Listed), "msg_")
  {
    message := start;
    for i := 0 to |messageIds|
      invariant message == Raised(start, Collect(messageIds[..i], Listed), "msg_")
    {
      hide Collect, Raised, NextCounterValue;
      RaisedByOne(start, messageIds, Listed, i, "msg_");
      RaisedByAtMostOne(message, messageIds[i], "msg_");
      if messageIds[i].Some? {
        message := Max(message, NextCounterValue(messageIds[i].value, "msg_"));
      }
    }
    assert messageIds[..|messageIds|] == messageIds;
  }

  method ScanEvents(record: SessionRecord, startTurn: nat, startEvent: nat) returns (turn: nat, event: nat)
    ensures turn == Raised(startTurn, TurnsOfSession(record), "turn_")
    ensures event == Raised(startEvent, EventsOfSession(record), "evt_")
  {
    turn, event := startTurn, startEvent;
    RaisedByAtMostOne(turn, record.lastTurnId, "turn_");
    if record.lastTurnId.Some? {
      turn := Max(turn, NextCounterValue(record.lastTurnId.value, "turn_"));
    }
    ghost var afterLast := turn;
    for i := 0 to |record.events|
      invariant turn == Raised(afterLast, Collect(record.events[..i], TurnOfEvent), "turn_")
      invariant event == Raised(startEvent, Collect(record.events[..i], EventIdOf), "evt_")
    {
      hide Collect, Raised, NextCounterValue;
      RaisedByOne(startEvent, record.events, EventIdOf, i, "evt_");
      RaisedBySingle(event, record.events[i].eventId, "evt_");
      event := Max(event, NextCounterValue(record.events[i].eventId, "evt_"));
      RaisedByOne(afterLast, record.events, TurnOfEvent, i, "turn_");
      RaisedByAtMostOne(turn, record.events[i].turnId, "turn_");
      if record.events[i].turnId.Some? {
        turn := Max(turn, NextCounterValue(record.events[i].turnId.value, "turn_"));
      }
    }
    assert record.events[..|record.events|] == record.events;
    RaisedConcat(startTurn, Listed(record.lastTurnId), Collect(record.events, TurnOfEvent), "turn_");
  }

  method ScanTasks(tasks: seq<TaskRecord>, startTurn: nat, startEvent: nat)
    returns (task: nat, checkpoint: nat, turn: nat, event: nat)
    ensures task == Raised(1, Collect(tasks, TaskIdOf), "task_")
    ensures checkpoint == Raised(1, Collect(tasks, CheckpointsOfTask), "checkpoint_")
    ensures turn == Raised(startTurn, Collect(tasks, TurnsOfTask), "turn_")
    ensures event == Raised(startEvent, Collect(tasks, EventsOfTask), "evt_")
  {
    task, checkpoint, turn, event := 1, 1, startTurn, startEvent;
    for i := 0 to |tasks|
      invariant task == Raised(1, Collect(tasks[..i], TaskIdOf), "task_")
      invariant checkpoint == Raised(1, Collect(tasks[..i], CheckpointsOfTask), "checkpoint_")
      invariant turn == Raised(startTurn, Collect(tasks[..i], TurnsOfTask), "turn_")
      invariant event == Raised(startEvent, Collect(tasks[..i], EventsOfTask), "evt_")
    {
      hide Collect, Raised, NextCounterValue;
      var record := tasks[i];
      RaisedByOne(1, tasks, TaskIdOf, i, "task_");
      RaisedBySingle(task, record.taskId, "task_");
      task := Max(task, NextCounterValue(record.taskId, "task_"));

      RaisedByOne(1, tasks, CheckpointsOfTask, i, "checkpoint_");
      RaisedConcat(checkpoint, Listed(record.checkpointRef), Collect(record.checkpoints, CheckpointIdOf), "checkpoint_");
      RaisedByAtMostOne(checkpoint, record.checkpointRef, "checkpoint_");
      if record.checkpointRef.Some? {
        checkpoint := Max(checkpoint, NextCounterValue(record.checkpointRef.value, "checkpoint_"));
      }

      RaisedByOne(startTurn, tasks, TurnsOfTask, i, "turn_");
      RaisedConcat(turn, Collect(record.timeline, TurnOfEntry), Collect(record.checkpoints, TurnOfCheckpoint), "turn_");
      RaisedByOne(startEvent, tasks, EventsOfTask, i, "evt_");
      turn, event := ScanTimeline(record.timeline, turn, event);
      checkpoint, turn := ScanCheckpoints(record.checkpoints, checkpoint, turn);
    }
    assert tasks[..|tasks|] == tasks;
  }

  method ScanTimeline(timeline: seq<TimelineEntry>, startTurn: nat, startEvent: nat) returns (turn: nat, event: nat)
    ensures turn == Raised(startTurn, Collect(timeline, TurnOfEntry), "turn_")
    ensures event == Raised(startEvent, Collect(timeline, EventOfEntry), "evt_")
  {
    turn, event := startTurn, startEvent;
    for i := 0 to |timeline|
      invariant turn == Raised(startTurn, Collect(timeline[..i], TurnOfEntry), "turn_")
      invariant event == Raised(startEvent, Collect(timeline[..i], EventOfEntry), "evt_")
    {
      hide Collect, Raised, NextCounterValue;
      RaisedByOne(startTurn, timeline, TurnOfEntry, i, "turn_");
      RaisedByAtMostOne(turn, timeline[i].turnId, "turn_");
      if timeline[i].turnId.Some? {
        turn := Max(turn, NextCounterValue(timeline[i].turnId.value, "turn_"));
      }
      RaisedByOne(startEvent, timeline, EventOfEntry, i, "evt_");
      RaisedByAtMostOne(event, timeline[i].eventId, "evt_");
      if timeline[i].eventId.Some? {
        event := Max(event, NextCounterValue(timeline[i].eventId.value, "evt_"));
      }
    }
    assert timeline[..|timeline|] == timeline;
  }

  method ScanCheckpoints(checkpoints: seq<Checkpoint>, startCheckpoint: nat, startTurn: nat)
    returns (checkpoint: nat, turn: nat)
    ensures checkpoint == Raised(startCheckpoint, Collect(checkpoints, CheckpointIdOf), "checkpoint_")
    ensures turn == Raised(startTurn, Collect(checkpoints, TurnOfCheckpoint), "turn_")
  {
    checkpoint, turn := startCheckpoint, startTurn;
    for i := 0 to |checkpoints|
      invariant checkpoint == Raised(startCheckpoint, Collect(checkpoints[..i], CheckpointIdOf), "checkpoint_")
      invariant turn == Raised(startTurn, Collect(checkpoints[..i], TurnOfCheckpoint), "turn_")
    {
      hide Collect, Raised, NextCounterValue;
      RaisedByOne(startCheckpoint, checkpoints, CheckpointIdOf, i, "checkpoint_");
      RaisedBySingle(checkpoint, checkpoints[i].checkpointId, "checkpoint_");
      checkpoint := Max(checkpoint, NextCounterValue(checkpoints[i].checkpointId, "checkpoint_"));
      RaisedByOne(startTurn, checkpoints, TurnOfCheckpoint, i, "turn_");
      RaisedByAtMostOne(turn, checkpoints[i].turnId, "turn_");
      if checkpoints[i].turnId.Some? {
        turn := Max(turn, NextCounterValue(checkpoints[i].turnId.value, "turn_"));
      }
    }
    assert checkpoints[..|checkpoints|] == checkpoints;
  }

  method ScanLedger(ids: seq<string>, prefix: string) returns (next: nat)
    ensures next == Raised(1, ids, prefix)
  {
    next := 1;
    for i := 0 to |ids|
      invariant next == Raised(1, ids[..i], prefix)
    {
      assert ids[..i + 1][..i] == ids[..i];
      next := Max(next, NextCounterValue(ids[i], prefix));
    }
    assert ids[..|ids|] == ids;
  }
}
