/** The append-only event log and the views taken of it. */
module EventLog {
  import opened Wrappers
  import opened Text

  datatype Json = Null | Bool(b: bool) | Number(literal: string) | Str(s: string) | Arr(items: seq<Json>) | Obj(fields: map<string, Json>)
  {
    function Get(key: string): Option<Json> {
      if Obj? && key in fields then Some(fields[key]) else None
    }

    function AsStr(): Option<string> {
      if Str? then Some(s) else None
    }

    /** The string under a key, if there is one. */
    function GetStr(key: string): Option<string> {
      match Get(key)
      case Some(value) => value.AsStr()
      case None => None
    }
  }

  datatype EventType =
    | MessageReceived | TurnSucceeded
    | TaskStarted | TaskWaiting | TaskResumed | TaskCheckpointed | TaskSucceeded | TaskFailed | TaskCancelled
    | ArtifactCreated | SummaryInvalidated | SummaryRecomputed
    | OtherEvent(name: string)

  datatype Event = Event(
    eventId: string,
    eventType: EventType,
    sessionId: Option<string>,
    taskId: Option<string>,
    payload: Json)

  datatype Scope = Scope(sessionId: Option<string>, taskId: Option<string>) {
    /** A scope without a session (or task) does not restrict it. */
    predicate Covers(e: Event) {
      && (sessionId.Some? ==> e.sessionId == sessionId)
      && (taskId.Some? ==> e.taskId == taskId)
    }
  }

  datatype Message = Message(eventId: string, role: string, content: string)

  function RoleOf(message: Json, default: string): string
  {
    match message.GetStr("role")
    case Some(role) => role
    case None => message.GetStr("kind").GetOr(default)
  }

  function BodyOf(event: Event, message: Json, expectedRole: string): Option<Message>
  {
    if RoleOf(message, expectedRole) != expectedRole then None
    else
      match message.GetStr("content")
      case Some(content) => Some(Message(event.eventId, expectedRole, Trim(content)))
      case None => None
  }

  /** The message an event carries: a user's, or the assistant's reply; never an empty one. */
  function ExtractMessage(event: Event): Option<Message>
  {
    var extracted :=
      match event.eventType
      case MessageReceived =>
        (match event.payload.Get("message")
         case Some(message) => BodyOf(event, message, "user")
         case None => None)
      case TurnSucceeded =>
        (match event.payload.Get("assistant_message")
         case Some(Str(text)) => Some(Message(event.eventId, "assistant", Trim(text)))
         case Some(message) => BodyOf(event, message, "assistant")
         case None => None)
      case _ => None;
    if extracted.Some? && extracted.value.content == "" then None else extracted
  }

  function Scoped(log: seq<Event>, scope: Scope): seq<Event>
  {
    if log == [] then []
    else (if scope.Covers(log[0]) then [log[0]] else []) + Scoped(log[1..], scope)
  }

  function Bodies(events: seq<Event>): seq<Message>
  {
    if events == [] then []
    else (match ExtractMessage(events[0]) case Some(m) => [m] case None => []) + Bodies(events[1..])
  }

  /** The transcript of a scope. */
  function Messages(log: seq<Event>, scope: Scope): seq<Message>
  {
    Bodies(Scoped(log, scope))
  }

  lemma {:induction false} ScopedConcat(a: seq<Event>, b: seq<Event>, scope: Scope)
    ensures Scoped(a + b, scope) == Scoped(a, scope) + Scoped(b, scope)
  {
    if a == [] {
      assert a + b == b;
    } else {
      assert (a + b)[1..] == a[1..] + b;
      ScopedConcat(a[1..], b, scope);
    }
  }

  lemma {:induction false} BodiesConcat(a: seq<Event>, b: seq<Event>)
    ensures Bodies(a + b) == Bodies(a) + Bodies(b)
  {
    hide ExtractMessage;
    if a == [] {
      assert a + b == b;
    } else {
      assert (a + b)[1..] == a[1..] + b;
      BodiesConcat(a[1..], b);
    }
  }

  /** What a scope lets through: the events of its session and of its task, as far as it names them. */
  lemma ScopedExactlyWhen(e: Event, scope: Scope)
    ensures Scoped([e], scope) ==
      if (scope.sessionId == None || e.sessionId == scope.sessionId) && (scope.taskId == None || e.taskId == scope.taskId)
      then [e] else []
    ensures Scoped([], scope) == []
  {
    assert [e][1..] == [];
  }

  /** The role that a message object names, under one key or else another, or does not name. */
  predicate SpeaksAs(message: Json, role: string)
  {
    match message.GetStr("role")
    case Some(named) => named == role
    case None => match message.GetStr("kind") case Some(named) => named == role case None => true
  }

  /** The event carries this text, of a user or of the assistant. */
  ghost predicate CarriesText(e: Event, role: string, text: string)
  {
    || (&& role == "user" && e.eventType == MessageReceived && e.payload.Get("message").Some?
        && SpeaksAs(e.payload.Get("message").value, "user") && e.payload.Get("message").value.GetStr("content") == Some(text))
    || (&& role == "assistant" && e.eventType == TurnSucceeded && e.payload.Get("assistant_message").Some?
        && var message := e.payload.Get("assistant_message").value;
           message == Str(text) || (!message.Str? && SpeaksAs(message, "assistant") && message.GetStr("content") == Some(text)))
  }

  /** The message of an event is the text it carries, trimmed, unless that leaves nothing. */
  lemma BodiesExactlyWhen(e: Event)
    ensures forall role, text :: CarriesText(e, role, text) ==>
      Bodies([e]) == if Trim(text) == "" then [] else [Message(e.eventId, role, Trim(text))]
    ensures (forall role, text :: !CarriesText(e, role, text)) ==> Bodies([e]) == []
    ensures Bodies([]) == []
  {
    hide Trim;
    assert [e][1..] == [];
    var m := ExtractMessage(e);
    if e.eventType == MessageReceived && e.payload.Get("message").Some? {
      var content := e.payload.Get("message").value.GetStr("content");
      assert content.Some? ==> (CarriesText(e, "user", content.value) <==> SpeaksAs(e.payload.Get("message").value, "user"));
    } else if e.eventType == TurnSucceeded && e.payload.Get("assistant_message").Some? {
      var message := e.payload.Get("assistant_message").value;
      var content := if message.Str? then Some(message.s) else message.GetStr("content");
      assert content.Some? ==>
        (CarriesText(e, "assistant", content.value) <==> message.Str? || SpeaksAs(message, "assistant"));
    }
  }

  /** Appending to the log only ever extends a scope's transcript. */
  lemma TranscriptGrows(log: seq<Event>, more: seq<Event>, scope: Scope)
    ensures Messages(log + more, scope) == Messages(log, scope) + Messages(more, scope)
  {
    ScopedConcat(log, more, scope);
    BodiesConcat(Scoped(log, scope), Scoped(more, scope));
  }

  /** Distinct event ids stay distinct in every transcript. */
  lemma {:induction false} BodiesDistinct(events: seq<Event>)
    requires forall i, j :: 0 <= i < j < |events| ==> events[i].eventId != events[j].eventId
    ensures forall m :: m in Bodies(events) ==> exists e :: e in events && e.eventId == m.eventId
    ensures forall i, j :: 0 <= i < j < |Bodies(events)| ==> Bodies(events)[i].eventId != Bodies(events)[j].eventId
  {
    if events != [] {
      BodiesDistinct(events[1..]);
      assert events == [events[0]] + events[1..];
    }
  }

  lemma {:induction false} ScopedDistinct(log: seq<Event>, scope: Scope)
    requires forall i, j :: 0 <= i < j < |log| ==> log[i].eventId != log[j].eventId
    ensures forall e :: e in Scoped(log, scope) ==> e in log
    ensures forall i, j :: 0 <= i < j < |Scoped(log, scope)| ==>
      Scoped(log, scope)[i].eventId != Scoped(log, scope)[j].eventId
  {
    if log != [] {
      var rest := log[1..];
      ScopedDistinct(rest, scope);
      forall e | e in rest ensures e in log && e.eventId != log[0].eventId {
        var i :| 0 <= i < |rest| && rest[i] == e;
        assert log[i + 1] == e;
      }
    }
  }

  class EventStore {
    var events: seq<Event>

    constructor ()
      ensures events == []
    {
      events := [];
    }

    method Append(event: Event)
      modifies this
      ensures events == old(events) + [event]
      ensures forall scope: Scope :: Messages(old(events), scope) <= Messages(events, scope)
    {
      forall scope: Scope ensures Messages(events, scope) <= Messages(events + [event], scope) {
        TranscriptGrows(events, [event], scope);
      }
      events := events + [event];
    }

    method MessageBodyRecords(scope: Scope) returns (messages: seq<Message>)
      ensures messages == Messages(events, scope)
    {
      messages := Bodies(Scoped(events, scope));
    }
  }
}
