/** What the handler promises, proved about the functions of module Webhook:
    which events become rows and with what content, the order of the rows,
    the prefix that survives a failure, and the answer of every request. */
module WebhookProperties {
  import opened Options
  import opened PyValues
  import IntParse
  import opened Store
  import opened Webhook

  // ---------------------------------------------------------------------
  // One event (webhook.py:42-47)
  // ---------------------------------------------------------------------

  /** A row is produced only for a text message, and it carries the event's
      `source.userId`, its `message.text`, and its timestamp floored to whole
      seconds. */
  lemma RowComesFromTextMessage(event: Json, range: TimeRange, row: Message)
    requires ExtractRow(event, range) == Ok(Some(row))
    ensures IsTextMessage(event)
    ensures Index(Index(event, "message").value, "text") == Ok(row.text)
    ensures Index(event, "source").Ok? && Index(Index(event, "source").value, "userId") == Ok(row.userId)
    ensures Index(event, "timestamp").Ok? && ToInt(Index(event, "timestamp").value).Ok?
    ensures var ms := ToInt(Index(event, "timestamp").value).value;
            row.date * 1000 <= ms < row.date * 1000 + 1000
    ensures range.lo <= row.date <= range.hi
  {
  }

  /** Conversely, a text message whose fields are all there and whose date the
      platform can represent yields exactly that row. */
  lemma TextMessageGivesRow(event: Json, range: TimeRange, userId: Json, ms: int)
    requires IsTextMessage(event)
    requires Index(event, "source").Ok? && Index(Index(event, "source").value, "userId") == Ok(userId)
    requires Index(event, "timestamp").Ok? && ToInt(Index(event, "timestamp").value) == Ok(ms)
    requires range.lo <= FloorDivMillis(ms) <= range.hi
    ensures ExtractRow(event, range) ==
            Ok(Some(Message(FloorDivMillis(ms), Index(Index(event, "message").value, "text").value, userId)))
  {
  }

  /** An event whose `type` is anything but "message" is skipped without any
      error, whatever its other members are or whether they exist: the
      `message` member is never looked at. */
  lemma OtherTypesSkipped(event: Json, other: Json, range: TimeRange)
    requires Index(event, "type").Ok? && Index(event, "type").value != JStr("message")
    requires Index(other, "type") == Index(event, "type")
    ensures ExtractRow(event, range) == Ok(None)
    ensures ExtractRow(other, range) == ExtractRow(event, range)
  {
  }

  /** An event is skipped exactly when its type is not "message", or it is a
      message whose `message` member has no "text" in it. */
  lemma SkippedIff(event: Json, range: TimeRange)
    ensures ExtractRow(event, range) == Ok(None) <==>
            Index(event, "type").Ok? &&
            (Index(event, "type").value != JStr("message") ||
             (Index(event, "message").Ok? && Contains(Index(event, "message").value, "text") == Ok(false)))
  {
  }

  /** A missing `type`, or an event that is not an object, raises. */
  lemma MissingTypeRaises(event: Json, range: TimeRange)
    requires Index(event, "type").Fault?
    ensures ExtractRow(event, range) == Fault(if event.JObject? then KeyError else TypeError)
  {
  }

  /** A message event without a `message` member raises KeyError. */
  lemma MissingMessageRaises(fields: seq<(string, Json)>, range: TimeRange)
    requires Lookup(fields, "type") == Some(JStr("message")) && !HasKey(fields, "message")
    ensures ExtractRow(JObject(fields), range) == Fault(KeyError)
  {
  }

  /** A text message without a `source`, or whose `source` has no `userId`,
      raises KeyError; a `source` that is not an object raises TypeError. */
  lemma MissingSourceRaises(event: Json, range: TimeRange)
    requires IsTextMessage(event)
    requires Index(event, "source").Fault? ||
             Index(Index(event, "source").value, "userId").Fault?
    ensures ExtractRow(event, range).Fault?
    ensures !HasKey(event.fields, "source") ==> ExtractRow(event, range) == Fault(KeyError)
    ensures Index(event, "source").Ok? && Index(event, "source").value.JObject? ==>
            ExtractRow(event, range) == Fault(KeyError)
    ensures Index(event, "source").Ok? && !Index(event, "source").value.JObject? ==>
            ExtractRow(event, range) == Fault(TypeError)
  {
  }

  /** A `message` that is a string or a list containing "text" passes the
      `in` test, and then `message["text"]` raises TypeError (after the
      `source.userId` lookup, which raises first if it fails). */
  lemma TextInNonObjectRaises(event: Json, range: TimeRange)
    requires Index(event, "type") == Ok(JStr("message"))
    requires Index(event, "message").Ok? && !Index(event, "message").value.JObject?
    requires Contains(Index(event, "message").value, "text") == Ok(true)
    ensures ExtractRow(event, range).Fault?
    ensures Index(event, "source").Ok? && Index(Index(event, "source").value, "userId").Ok? ==>
            ExtractRow(event, range) == Fault(TypeError)
  {
  }

  /** For a text message whose `source.userId` is present: a missing
      `timestamp` raises KeyError, a string timestamp that is not an integer
      literal raises ValueError, a timestamp `int()` cannot convert raises
      what `int()` raises (TypeError for null, a list or an object), and a
      date outside the platform's range raises DateError. */
  lemma TimestampFaults(event: Json, range: TimeRange)
    requires IsTextMessage(event)
    requires Index(event, "source").Ok? && Index(Index(event, "source").value, "userId").Ok?
    ensures !HasKey(event.fields, "timestamp") ==> ExtractRow(event, range) == Fault(KeyError)
    ensures Index(event, "timestamp").Ok? && Index(event, "timestamp").value.JStr? &&
            IntParse.Parse(Index(event, "timestamp").value.s).None? ==>
            ExtractRow(event, range) == Fault(ValueError)
    ensures Index(event, "timestamp").Ok? && ToInt(Index(event, "timestamp").value).Ok? &&
            !(range.lo <= FloorDivMillis(ToInt(Index(event, "timestamp").value).value) <= range.hi) ==>
            ExtractRow(event, range) == Fault(DateError)
    ensures Index(event, "timestamp").Ok? && ToInt(Index(event, "timestamp").value).Fault? ==>
            ExtractRow(event, range) == Fault(ToInt(Index(event, "timestamp").value).exc)
  {
  }

  /** A timestamp sent as the decimal string of `ms` is read as the number
      `ms`: `int()` reads back what `str()` writes, so the row is the one the
      number would give. */
  lemma StringTimestampAsNumber(event: Json, range: TimeRange, userId: Json, ms: int)
    requires IsTextMessage(event)
    requires Index(event, "source").Ok? && Index(Index(event, "source").value, "userId") == Ok(userId)
    requires Index(event, "timestamp") == Ok(JStr(IntParse.Show(ms)))
    requires |IntParse.ShowNat(if ms < 0 then -ms else ms)| <= IntParse.MAX_STR_DIGITS
    requires range.lo <= FloorDivMillis(ms) <= range.hi
    ensures ExtractRow(event, range) ==
            Ok(Some(Message(FloorDivMillis(ms), Index(Index(event, "message").value, "text").value, userId)))
  {
    ToIntShow(ms);
    TextMessageGivesRow(event, range, userId, ms);
  }

  /** A timestamp with a decimal point, such as "1700000000000.5", raises. */
  lemma FractionalStringTimestampRaises(event: Json, range: TimeRange, s: string, i: nat)
    requires IsTextMessage(event)
    requires Index(event, "source").Ok? && Index(Index(event, "source").value, "userId").Ok?
    requires Index(event, "timestamp") == Ok(JStr(s))
    requires i < |s| && s[i] == '.'
    ensures ExtractRow(event, range) == Fault(ValueError)
  {
    IntParse.ParseRejectsForeignChar(s, i);
  }

  /** The sub-second part of the timestamp is dropped: every millisecond of
      one second gives the same date. */
  lemma SubSecondDropped(secs: int, millis: int)
    requires 0 <= millis < 1000
    ensures FloorDivMillis(secs * 1000 + millis) == secs
  {
  }

  // ---------------------------------------------------------------------
  // The batch (webhook.py:40-50)
  // ---------------------------------------------------------------------

  /** The reference rows of a batch are those of its parts, in order. */
  lemma {:induction false} KeptRowsAppend(a: seq<Json>, b: seq<Json>, range: TimeRange)
    ensures KeptRows(a + b, range) == KeptRows(a, range) + KeptRows(b, range)
    decreases |a|
  {
    if |a| == 0 {
      assert a + b == b;
    } else {
      assert (a + b)[0] == a[0] && (a + b)[1..] == a[1..] + b;
      KeptRowsAppend(a[1..], b, range);
      var rest := KeptRows(a[1..], range);
      var extracted := ExtractRow(a[0], range);
      if extracted.Ok? && extracted.value.Some? {
        var row := extracted.value.value;
        assert [row] + (rest + KeptRows(b, range)) == ([row] + rest) + KeptRows(b, range);
      }
    }
  }

  /** A row is among the reference rows exactly when some event of the batch
      extracts to it. */
  lemma {:induction false} KeptRowsFromEvents(events: seq<Json>, range: TimeRange, row: Message)
    ensures row in KeptRows(events, range) <==>
            exists i :: 0 <= i < |events| && ExtractRow(events[i], range) == Ok(Some(row))
    decreases |events|
  {
    if |events| > 0 {
      KeptRowsFromEvents(events[1..], range, row);
      assert forall i :: 0 < i < |events| ==> events[1..][i - 1] == events[i];
      if exists i :: 0 <= i < |events| && ExtractRow(events[i], range) == Ok(Some(row)) {
        var i :| 0 <= i < |events| && ExtractRow(events[i], range) == Ok(Some(row));
        if i > 0 {
          assert ExtractRow(events[1..][i - 1], range) == Ok(Some(row));
        }
      }
    }
  }

  /** There are never more rows than events. */
  lemma {:induction false} KeptRowsBounded(events: seq<Json>, range: TimeRange)
    ensures |KeptRows(events, range)| <= |events|
    decreases |events|
  {
    if |events| > 0 {
      KeptRowsBounded(events[1..], range);
    }
  }

  /** When no event raises, the loop commits the reference rows in batch
      order and ends without a fault. */
  lemma {:induction false} IngestCompletes(events: seq<Json>, range: TimeRange, accepts: Verdict)
    requires forall i :: 0 <= i < |events| ==> Passes(events[i], range, accepts)
    ensures Ingest(events, range, accepts) == Run(KeptRows(events, range), None)
    decreases |events|
  {
    if |events| > 0 {
      assert Passes(events[0], range, accepts);
      assert forall i :: 0 <= i < |events| - 1 ==> events[1..][i] == events[i + 1];
      IngestCompletes(events[1..], range, accepts);
    }
  }

  /** When event `k` is the first to raise, the rows of the events before it
      stay committed, nothing of event `k` or later is stored, and the fault
      is event `k`'s. */
  lemma {:induction false} IngestFailsAt(events: seq<Json>, range: TimeRange, accepts: Verdict, k: nat)
    requires k < |events|
    requires forall i :: 0 <= i < k ==> Passes(events[i], range, accepts)
    requires !Passes(events[k], range, accepts)
    ensures Ingest(events, range, accepts) ==
            Run(KeptRows(events[..k], range), Some(StepOf(events[k], range, accepts).exc))
    decreases k
  {
    if k > 0 {
      var tail := events[1..];
      assert Passes(events[0], range, accepts);
      assert forall i :: 0 <= i < k - 1 ==> tail[i] == events[i + 1];
      assert tail[k - 1] == events[k];
      IngestFailsAt(tail, range, accepts, k - 1);
      assert events[..k][0] == events[0] && events[..k][1..] == tail[..k - 1];
    }
  }

  /** The loop ends without a fault exactly when no event raises. */
  lemma {:induction false} IngestFaultFreeIff(events: seq<Json>, range: TimeRange, accepts: Verdict)
    ensures Ingest(events, range, accepts).fault.None? <==>
            forall i :: 0 <= i < |events| ==> Passes(events[i], range, accepts)
    decreases |events|
  {
    if |events| > 0 {
      IngestFaultFreeIff(events[1..], range, accepts);
      assert forall i :: 0 < i < |events| ==> events[1..][i - 1] == events[i];
    }
  }

  /** Whatever happens, the committed rows are a prefix of the reference
      rows: no row is reordered, invented or stored past a failure. */
  lemma {:induction false} IngestCommitsPrefix(events: seq<Json>, range: TimeRange, accepts: Verdict)
    ensures Ingest(events, range, accepts).committed <= KeptRows(events, range)
    decreases |events|
  {
    if |events| > 0 {
      IngestCommitsPrefix(events[1..], range, accepts);
      var rest := Ingest(events[1..], range, accepts);
      var kept := KeptRows(events[1..], range);
      var extracted := ExtractRow(events[0], range);
      if extracted.Ok? && extracted.value.Some? && Committable(extracted.value.value, accepts) {
        var row := extracted.value.value;
        assert Ingest(events, range, accepts).committed == [row] + rest.committed;
        assert KeptRows(events, range) == [row] + kept;
      }
    }
  }

  /** Every row the loop commits came through the table's NOT NULL columns
      and the database's verdict. */
  lemma {:induction false} IngestCommitsOnlyCommittable(events: seq<Json>, range: TimeRange, accepts: Verdict)
    ensures forall row :: row in Ingest(events, range, accepts).committed ==> Committable(row, accepts)
    decreases |events|
  {
    if |events| > 0 {
      IngestCommitsOnlyCommittable(events[1..], range, accepts);
    }
  }

  // ---------------------------------------------------------------------
  // The request (webhook.py:31-56)
  // ---------------------------------------------------------------------

  /** A payload without "events" writes nothing and is answered "ok", 200. */
  lemma NoEventsKey(fields: seq<(string, Json)>, range: TimeRange, accepts: Verdict)
    requires !HasKey(fields, "events")
    ensures Handle(Some(JObject(fields)), range, accepts) == Outcome([], OK_REPLY)
  {
  }

  /** A body that is not decoded, or a top-level value that is neither an
      object, a list nor a string, writes nothing and is answered "error", 500. */
  lemma UndecodableOrScalarBody(body: Option<Json>, range: TimeRange, accepts: Verdict)
    requires body.None? || !(body.value.JObject? || body.value.JArray? || body.value.JStr?)
    ensures Handle(body, range, accepts) == Outcome([], ERROR_REPLY)
  {
  }

  /** A payload whose "events" is a list hands that list to the loop. */
  lemma EventsList(fields: seq<(string, Json)>, events: seq<Json>)
    requires Lookup(fields, "events") == Some(JArray(events))
    ensures EventsOf(JObject(fields)) == Ok(Some(events))
  {
  }

  /** "events" given as a non-empty object: the loop meets a key, a string,
      subscripts it, and the request fails before any row is stored. */
  lemma EventsObjectRaises(fields: seq<(string, Json)>, inner: seq<(string, Json)>,
                           range: TimeRange, accepts: Verdict)
    requires Lookup(fields, "events") == Some(JObject(inner)) && |inner| > 0
    ensures Handle(Some(JObject(fields)), range, accepts) == Outcome([], ERROR_REPLY)
  {
    var events := Iterate(JObject(inner)).value;
    assert EventsOf(JObject(fields)) == Ok(Some(events));
    assert events[0] in events;
    assert ExtractRow(events[0], range) == Fault(TypeError);
  }

  /** Every request is answered either "ok", 200 or "error", 500, and "ok"
      exactly when the payload has no "events", or its events were reached
      and none of them raised. */
  lemma ReplyIsOkIff(data: Json, range: TimeRange, accepts: Verdict)
    ensures var r := Handle(Some(data), range, accepts).reply;
            r == OK_REPLY || r == ERROR_REPLY
    ensures Handle(Some(data), range, accepts).reply == OK_REPLY <==>
            EventsOf(data) == Ok(None) ||
            (EventsOf(data).Ok? && EventsOf(data).value.Some? &&
             forall i :: 0 <= i < |EventsOf(data).value.value| ==>
               Passes(EventsOf(data).value.value[i], range, accepts))
  {
    if EventsOf(data).Ok? && EventsOf(data).value.Some? {
      IngestFaultFreeIff(EventsOf(data).value.value, range, accepts);
    }
  }

  /** A request whose events all go through commits the rows of its text
      messages, in batch order, and is answered "ok", 200, also when every
      event was skipped. */
  lemma SuccessfulRequest(data: Json, events: seq<Json>, range: TimeRange, accepts: Verdict)
    requires EventsOf(data) == Ok(Some(events))
    requires forall i :: 0 <= i < |events| ==> Passes(events[i], range, accepts)
    ensures Handle(Some(data), range, accepts) == Outcome(KeptRows(events, range), OK_REPLY)
  {
    IngestCompletes(events, range, accepts);
  }

  /** A batch whose events are all skipped stores nothing and is "ok", 200. */
  lemma {:induction false} AllSkipped(data: Json, events: seq<Json>, range: TimeRange, accepts: Verdict)
    requires EventsOf(data) == Ok(Some(events))
    requires forall i :: 0 <= i < |events| ==> ExtractRow(events[i], range) == Ok(None)
    ensures Handle(Some(data), range, accepts) == Outcome([], OK_REPLY)
  {
    SuccessfulRequest(data, events, range, accepts);
    if KeptRows(events, range) != [] {
      var row := KeptRows(events, range)[0];
      KeptRowsFromEvents(events, range, row);
    }
  }

  /** A request whose event `k` is the first to raise is answered "error",
      500, and keeps exactly the rows of the text messages before `k`. */
  lemma FailedRequest(data: Json, events: seq<Json>, range: TimeRange, accepts: Verdict, k: nat)
    requires EventsOf(data) == Ok(Some(events))
    requires k < |events|
    requires forall i :: 0 <= i < k ==> Passes(events[i], range, accepts)
    requires !Passes(events[k], range, accepts)
    ensures Handle(Some(data), range, accepts) == Outcome(KeptRows(events[..k], range), ERROR_REPLY)
  {
    IngestFailsAt(events, range, accepts, k);
  }

  /** Whatever the request, what it commits is a prefix of the rows of its
      text messages. */
  lemma CommitsPrefixOfKeptRows(data: Json, events: seq<Json>, range: TimeRange, accepts: Verdict)
    requires EventsOf(data) == Ok(Some(events))
    ensures Handle(Some(data), range, accepts).committed <= KeptRows(events, range)
  {
    IngestCommitsPrefix(events, range, accepts);
  }

  /** No request commits a row with a null `text` or `user_id`, or one the
      database refuses. */
  lemma HandleCommitsOnlyCommittable(body: Option<Json>, range: TimeRange, accepts: Verdict)
    ensures forall row :: row in Handle(body, range, accepts).committed ==> Committable(row, accepts)
  {
    if body.Some? && EventsOf(body.value).Ok? && EventsOf(body.value).value.Some? {
      IngestCommitsOnlyCommittable(EventsOf(body.value).value.value, range, accepts);
    }
  }
}
