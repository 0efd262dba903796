/** The `/webhook` handler (webhook.py:31-56): it walks the `events` of a
    decoded payload in order, turns every text message into one `Message`
    row, commits each row before it looks at the next event, and on any
    exception rolls back the uncommitted work and answers with an error.
    Rows committed for earlier events of the batch stay. */
module Webhook {
  import opened Options
  import opened PyValues
  import opened Store

  /** The whole seconds `datetime.fromtimestamp` accepts on the platform;
      outside them it raises. */
  datatype TimeRange = TimeRange(lo: int, hi: int)

  /** The JSON answer's `status` and the HTTP status code. The error answer's
      `message` (the exception text) is not modelled. */
  datatype Reply = Reply(status: string, code: int)

  const OK_REPLY := Reply("ok", 200)
  const ERROR_REPLY := Reply("error", 500)

  /** `datetime.fromtimestamp(secs)`, with the date kept as whole seconds.
      Outside the platform's range Python raises ValueError, OSError or
      OverflowError depending on the platform and on which limit is passed;
      the model raises `DateError` for all three. */
  function FromTimestamp(secs: int, range: TimeRange): (r: Result<int>)
    ensures r.Ok? <==> range.lo <= secs <= range.hi
    ensures r.Ok? ==> r.value == secs
    ensures r.Fault? ==> r.exc == DateError
  {
    if range.lo <= secs <= range.hi then Ok(secs) else Fault(DateError)
  }

  /** The guard of webhook.py:42: the event's `type` is the string "message"
      and its `message` is an object with a `text` member. */
  predicate IsTextMessage(event: Json) {
    && Index(event, "type") == Ok(JStr("message"))
    && Index(event, "message").Ok?
    && Index(event, "message").value.JObject?
    && HasKey(Index(event, "message").value.fields, "text")
  }

  /** One event, webhook.py:42-47: no row (`Ok(None)`) for an event that is
      not a text message, the row to store, or the exception raised while
      looking at the event. Python's `and` means `message` is only looked at
      when `type` is "message". */
  function ExtractRow(event: Json, range: TimeRange): (r: Result<Option<Message>>)
    ensures r.Ok? && r.value.Some? ==> range.lo <= r.value.value.date <= range.hi
    ensures !event.JObject? ==> r == Fault(TypeError)
    ensures r.Fault? ==> r.exc != DatabaseError
  {
    var kind :- Index(event, "type");
    if kind != JStr("message") then Ok(None)
    else
      var msg :- Index(event, "message");
      var hasText :- Contains(msg, "text");
      if !hasText then Ok(None)
      else
        var source :- Index(event, "source");
        var userId :- Index(source, "userId");
        var text :- Index(msg, "text");
        var raw :- Index(event, "timestamp");
        var ms :- ToInt(raw);
        var date :- FromTimestamp(FloorDivMillis(ms), range);
        Ok(Some(Message(date, text, userId)))
  }

  /** What one turn of the loop does to the session. */
  datatype Step = Skipped | Stored(row: Message) | Raised(exc: Exc)

  /** One turn of the loop, webhook.py:42-49: extract, then add and commit. */
  function StepOf(event: Json, range: TimeRange, accepts: Verdict): (s: Step)
    ensures s.Stored? ==> Committable(s.row, accepts) && range.lo <= s.row.date <= range.hi
  {
    match ExtractRow(event, range)
    case Fault(e) => Raised(e)
    case Ok(None) => Skipped
    case Ok(Some(row)) => if Committable(row, accepts) then Stored(row) else Raised(DatabaseError)
  }

  predicate Passes(event: Json, range: TimeRange, accepts: Verdict) {
    !StepOf(event, range, accepts).Raised?
  }

  /** The rows of the text messages among `events`, in batch order: the
      reference the loop is measured against. */
  function KeptRows(events: seq<Json>, range: TimeRange): seq<Message>
    decreases |events|
  {
    if |events| == 0 then []
    else
      var rest := KeptRows(events[1..], range);
      match ExtractRow(events[0], range)
      case Ok(Some(row)) => [row] + rest
      case _ => rest
  }

  /** The rows the loop committed, and the exception that stopped it. */
  datatype Run = Run(committed: seq<Message>, fault: Option<Exc>)

  /** The loop of webhook.py:40-50, as a function of the events. */
  function Ingest(events: seq<Json>, range: TimeRange, accepts: Verdict): (r: Run)
    decreases |events|
  {
    if |events| == 0 then Run([], None)
    else
      match StepOf(events[0], range, accepts)
      case Raised(e) => Run([], Some(e))
      case Skipped => Ingest(events[1..], range, accepts)
      case Stored(row) =>
        var rest := Ingest(events[1..], range, accepts);
        Run([row] + rest.committed, rest.fault)
  }

  /** webhook.py:38-40: `None` when the payload has no "events", otherwise
      what the loop iterates, or the exception raised on the way to it. */
  function EventsOf(data: Json): (r: Result<Option<seq<Json>>>)
    ensures r == Ok(None) <==> Contains(data, "events") == Ok(false)
    ensures r.Ok? && r.value.Some? ==> data.JObject? && HasKey(data.fields, "events")
    ensures !(data.JObject? || data.JArray? || data.JStr?) ==> r == Fault(TypeError)
  {
    var found :- Contains(data, "events");
    if !found then Ok(None)
    else
      var list :- Index(data, "events");
      var events :- Iterate(list);
      Ok(Some(events))
  }

  /** The rows a request commits and the answer it gets. */
  datatype Outcome = Outcome(committed: seq<Message>, reply: Reply)

  /** The whole handler. `None` stands for a body `request.get_json()`
      could not decode: it raises, and the error answer follows. */
  function Handle(body: Option<Json>, range: TimeRange, accepts: Verdict): (r: Outcome)
    ensures r.reply == OK_REPLY || r.reply == ERROR_REPLY
    ensures r.committed != [] ==> body.Some? && body.value.JObject?
  {
    match body
    case None => Outcome([], ERROR_REPLY)
    case Some(data) =>
      match EventsOf(data)
      case Fault(_) => Outcome([], ERROR_REPLY)
      case Ok(None) => Outcome([], OK_REPLY)
      case Ok(Some(events)) =>
        var run := Ingest(events, range, accepts);
        Outcome(run.committed, if run.fault.None? then OK_REPLY else ERROR_REPLY)
  }

  /** One turn of the loop, read off `Ingest`: what the batch from `i` on
      commits is what event `i` does followed by what the batch from `i + 1`
      on commits. */
  lemma IngestUnfold(events: seq<Json>, i: nat, range: TimeRange, accepts: Verdict)
    requires i < |events|
    ensures var rest := Ingest(events[i + 1..], range, accepts);
            Ingest(events[i..], range, accepts) ==
              match ExtractRow(events[i], range)
              case Fault(e) => Run([], Some(e))
              case Ok(None) => rest
              case Ok(Some(row)) =>
                if Committable(row, accepts) then Run([row] + rest.committed, rest.fault)
                else Run([], Some(DatabaseError))
  {
    assert events[i..][0] == events[i] && events[i..][1..] == events[i + 1..];
  }

  /** What is known after event `i`: if the batch so far committed `done`,
      each kind of turn either ends the loop with `done` and the turn's
      exception, or leaves the same relation for the batch from `i + 1` on. */
  lemma IngestAdvance(events: seq<Json>, i: nat, done: seq<Message>, range: TimeRange, accepts: Verdict)
    requires i < |events|
    requires Ingest(events, range, accepts) ==
             Run(done + Ingest(events[i..], range, accepts).committed, Ingest(events[i..], range, accepts).fault)
    ensures var x := ExtractRow(events[i], range);
            x.Fault? ==> Ingest(events, range, accepts) == Run(done, Some(x.exc))
    ensures var x := ExtractRow(events[i], range);
            x == Ok(None) ==>
            Ingest(events, range, accepts) ==
            Run(done + Ingest(events[i + 1..], range, accepts).committed, Ingest(events[i + 1..], range, accepts).fault)
    ensures var x := ExtractRow(events[i], range);
            x.Ok? && x.value.Some? && !Committable(x.value.value, accepts) ==>
            Ingest(events, range, accepts) == Run(done, Some(DatabaseError))
    ensures var x := ExtractRow(events[i], range);
            x.Ok? && x.value.Some? && Committable(x.value.value, accepts) ==>
            Ingest(events, range, accepts) ==
            Run((done + [x.value.value]) + Ingest(events[i + 1..], range, accepts).committed,
                Ingest(events[i + 1..], range, accepts).fault)
  {
    IngestUnfold(events, i, range, accepts);
    var x := ExtractRow(events[i], range);
    var rest := Ingest(events[i + 1..], range, accepts);
    if x.Ok? && x.value.Some? {
      var row := x.value.value;
      assert done + ([row] + rest.committed) == (done + [row]) + rest.committed;
    }
  }

  /** The loop of webhook.py:40-50 on the session: it commits the rows
      `Ingest` gives, one commit per row, and reports whether it got through
      the batch without an exception. On an exception it rolls back. */
  method IngestEvents(session: Session, events: seq<Json>, range: TimeRange, accepts: Verdict)
    returns (ok: bool)
    requires session.pending == []
    modifies session
    ensures session.pending == []
    ensures session.committed == old(session.committed) + Ingest(events, range, accepts).committed
    ensures ok <==> Ingest(events, range, accepts).fault.None?
  {
    ghost var start := session.committed;
    ghost var done: seq<Message> := [];
    var i := 0;
    while i < |events|
      invariant 0 <= i <= |events|
      invariant session.pending == []
      invariant session.committed == start + done
      invariant Ingest(events, range, accepts) ==
                Run(done + Ingest(events[i..], range, accepts).committed,
                    Ingest(events[i..], range, accepts).fault)
    {
      IngestAdvance(events, i, done, range, accepts);
      var extracted := ExtractRow(events[i], range);
      if extracted.Fault? {
        session.Rollback();
        return false;
      }
      if extracted.value.Some? {
        var row := extracted.value.value;
        session.Add(row);
        var committed := session.Commit(accepts);
        if !committed {
          assert !Committable(row, accepts);
          session.Rollback();
          return false;
        }
        done := done + [row];
      }
      i := i + 1;
    }
    return true;
  }

  /** `webhook()` on the module-wide session. Between requests the session
      holds no pending rows; every request leaves it so. */
  method HandleWebhook(session: Session, body: Option<Json>, range: TimeRange, accepts: Verdict)
    returns (reply: Reply)
    requires session.pending == []
    modifies session
    ensures session.pending == []
    ensures session.committed == old(session.committed) + Handle(body, range, accepts).committed
    ensures reply == Handle(body, range, accepts).reply
  {
    if body.None? {
      session.Rollback();
      return ERROR_REPLY;
    }
    var data := body.value;
    var found := Contains(data, "events");
    if found.Fault? {
      session.Rollback();
      return ERROR_REPLY;
    }
    if !found.value {
      return OK_REPLY;
    }
    var list := Index(data, "events");
    if list.Fault? {
      session.Rollback();
      return ERROR_REPLY;
    }
    var iterated := Iterate(list.value);
    if iterated.Fault? {
      session.Rollback();
      return ERROR_REPLY;
    }
    assert EventsOf(data) == Ok(Some(iterated.value));
    var ok := IngestEvents(session, iterated.value, range, accepts);
    reply := if ok then OK_REPLY else ERROR_REPLY;
  }
}
