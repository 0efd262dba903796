# Webhook message ingestion, modelled in Dafny

The service receives chat-platform webhooks on `POST /webhook`
(`webhook.py`). The handler decodes the JSON body and walks its `events`
list in order. Each event whose `type` is `"message"` and whose `message`
object has a `text` member becomes one `Message` row with the sender's
`userId`, the text, and the event timestamp floored from milliseconds to
seconds. The handler adds the row to the module-wide database session and
commits it before it looks at the next event. Any exception stops the batch:
the handler rolls back what is uncommitted and answers `{"status": "error"}`
with code 500. Rows committed for earlier events stay. A payload without
`events` writes nothing and is answered `{"status": "ok"}` with 200. So is a
batch that completes, even when every event was skipped.

The project:

- `options.dfy` — `Option`.
- `python_values.dfy` (module `PyValues`) — the decoded JSON value and the
  Python operations the handler applies to it: `k in v`, `v[k]`,
  `for x in v`, `int(v)` and `// 1000`. Each raises where Python raises, as a
  `Fault` naming the exception class.
- `int_parse.dfy` (module `IntParse`) — `int(s)` for strings: surrounding
  whitespace, an optional sign, and digits grouped by single underscores,
  within a digit limit. It proves that `int(str(n)) == n`, gives the value of
  every such literal, and proves the converse: every string `int()` accepts
  has that shape.
- `store.dfy` (module `Store`) — the `Message` row and the session as a
  class. The class holds the committed rows and the pending rows, with
  `Add`, `Commit` and `Rollback`.
- `webhook.dfy` (module `Webhook`) — the per-event extraction `ExtractRow`,
  the loop as a function `Ingest`, the whole request as `Handle`. It also has
  the imperative handler `HandleWebhook`, which runs the loop on a `Session`
  and is proved to commit exactly what `Handle` says.
- `webhook_properties.dfy` (module `WebhookProperties`) — what the handler
  promises, proved about those functions.

Inputs that come from outside the program are parameters:

- the decoded body is an `Option<Json>`, where `None` means `request.get_json()` raised;
- the range of seconds `datetime.fromtimestamp` accepts is a `TimeRange`;
- whether the database accepts a row at commit is a `Verdict`, on top of the
  table's NOT NULL columns, which the model checks itself.

## Model

| member | source | states |
|---|---|---|
| `Store.Session.constructor` | webhook.py:28-29 | A new session has committed no rows and holds no pending rows |
| `Store.Session.Add` | webhook.py:48 | The row is appended to the pending rows; committed rows are unchanged |
| `Store.Session.Commit` | webhook.py:49 | Succeeds exactly when every pending row has non-null `text` and `user_id` (the columns are `nullable=False`, lines 23-25) and the database accepts it; on success the pending rows are appended to the committed rows, on failure nothing changes |
| `Store.Session.Rollback` | webhook.py:55 | Pending rows are discarded; committed rows stay |
| `Webhook.HandleWebhook` | webhook.py:31-56 | Run on a session with no pending rows, it leaves no pending rows. It appends to the committed rows exactly the rows `Handle` gives (never modifying or removing an existing row) and returns `Handle`'s reply |
| `Webhook.IngestEvents` | webhook.py:40-50 | Run on a session with no pending rows, the loop leaves no pending rows. It appends exactly the rows `Ingest` commits, and reports success exactly when `Ingest` ends without a fault; on a fault it has rolled back |
| `Webhook.FromTimestamp` | webhook.py:45 | `datetime.fromtimestamp` succeeds exactly inside the platform's range, keeping the seconds, and raises `DateError` outside it (Python's ValueError, OSError or OverflowError, see Left out) |
| `Webhook.ExtractRow` | webhook.py:42-47 | A row is only produced with a date inside the platform's range; an event that is not an object raises TypeError; extraction never raises the commit's DatabaseError. The row's content, and when an event is skipped or raises, are stated by the per-event lemmas of `WebhookProperties` (`RowComesFromTextMessage` to `SubSecondDropped`) |
| `Webhook.StepOf` | webhook.py:42-49 | A stored row passed the NOT NULL columns and the database's verdict, and its date is inside the platform's range |
| `Webhook.Ingest` | webhook.py:40-50 | The loop as a function of the events; what it commits and which fault stops it are stated by `WebhookProperties.IngestCompletes`, `IngestFailsAt`, `IngestFaultFreeIff`, `IngestCommitsPrefix` and `IngestCommitsOnlyCommittable` |
| `Webhook.EventsOf` | webhook.py:38-40 | "No events" exactly when `"events" in data` is false; events are only reached in an object that has the key; a null, number or boolean payload raises TypeError. `WebhookProperties.EventsList` and `EventsObjectRaises` state what is iterated |
| `Webhook.Handle` | webhook.py:31-56 | Every reply is "ok", 200 or "error", 500, and rows are only committed for an object payload. `WebhookProperties.ReplyIsOkIff`, `SuccessfulRequest`, `FailedRequest` and `HandleCommitsOnlyCommittable` state the rest |
| `Store.Committable` | webhook.py:20-25 | The `Message` row (`date`, `text`, `user_id`) can be committed exactly when `text` and `user_id` are not null, the columns being `nullable=False`, and the database accepts it; `Store.Session.Commit` succeeds exactly on committable rows |
| `PyValues.Lookup` | webhook.py:43-44 | Finds a key exactly when the object has it |
| `PyValues.LookupLastBinding` | webhook.py:43-44 | The value found is that of the key's last binding, the one `json.loads` keeps |
| `PyValues.Contains` | webhook.py:42 | `"text" in v` is key membership for an object, and is defined for lists and strings; for null, numbers and booleans it raises TypeError |
| `PyValues.Index` | webhook.py:43-45 | `v[k]` succeeds exactly on an object that has key `k`; a missing key raises KeyError, a non-object TypeError |
| `PyValues.Iterate` | webhook.py:40 | `for event in ...` visits a list's elements, a string's characters as strings, and for an object strings that are exactly its keys (none exactly when the object is empty); any other value raises TypeError |
| `PyValues.DistinctKeys` | webhook.py:40 | Iterating an object yields each of its keys exactly once |
| `PyValues.ToInt` | webhook.py:45 | `int(v)` is the integer itself, 0 or 1 for a boolean, the truncation of a float, and the parse of a string. A string that is no integer literal raises ValueError; null, lists and objects raise TypeError |
| `PyValues.Truncate` | webhook.py:45 | `int()` of a float rounds toward zero: the result is within 1 of the input, on the zero side |
| `PyValues.FloorDivMillis` | webhook.py:45 | `ms // 1000` is the floor: `s * 1000 <= ms < s * 1000 + 1000`, and is non-negative for non-negative input |
| `IntParse.Parse` | webhook.py:45 | A string `int()` accepts ends in a digit once stripped, and only a leading minus makes its value negative. The lemmas below give its value on every literal of whitespace, sign and digit groups, and show that it accepts nothing else |
| `IntParse.ParseAccepts` | webhook.py:45 | `int()` accepts surrounding whitespace, an optional `+` or `-`, and digit groups with single underscores and leading zeros, within the 4300-digit limit; the value is the one the digits spell, negated for `-` |
| `IntParse.ParseShow` | webhook.py:45 | `int()` reads every decimal numeral `str(n)` writes back as `n`, for numerals within the 4300-digit limit |
| `IntParse.ParseShape` | webhook.py:45 | The converse of `ParseAccepts`: every string `int()` accepts is whitespace, an optional sign, digit groups within the 4300-digit limit and whitespace, and its value is the one the digits spell; so "1-2", "1+", "--1" and "+-1" are refused |
| `IntParse.ParseRejectsNoDigit` | webhook.py:45 | A string without a digit, such as "", "  ", "+" or "-", makes `int()` raise ValueError |
| `IntParse.ParseRejectsLongLiteral` | webhook.py:45 | A literal of whitespace, sign and digit groups with more than 4300 digits (underscores not counted) makes `int()` raise ValueError |
| `IntParse.ParseRejectsStrayUnderscore` | webhook.py:45 | An underscore without a digit on both sides, as in "1__2", "_1", "1_" or "+_1", makes `int()` raise ValueError |
| `IntParse.ParseRejectsInnerSpace` | webhook.py:45 | Whitespace between two other characters, as in "- 1" or "1 000", makes `int()` raise ValueError |
| `PyValues.ToIntShow` | webhook.py:45 | `int()` of the JSON string `str(n)` is `n`, within the digit limit |
| `IntParse.ParseRejectsForeignChar` | webhook.py:45 | A string holding any character other than digits, underscores, signs and whitespace makes `int()` raise |
| `WebhookProperties.RowComesFromTextMessage` | webhook.py:42-47 | A row is produced only for an event whose type is "message" and whose `message` object has `text`. The row's `text` is `message.text`, its `user_id` is `source.userId`, and its date is the floor of the timestamp in seconds, inside the platform's range |
| `WebhookProperties.TextMessageGivesRow` | webhook.py:42-47 | Conversely, a text message with `source.userId`, a convertible timestamp and a representable date yields exactly that row |
| `WebhookProperties.OtherTypesSkipped` | webhook.py:42 | An event whose type is not "message" is skipped with no error, and any other event with the same type is treated the same: `message` is never inspected |
| `WebhookProperties.SkippedIff` | webhook.py:42 | An event is skipped exactly when it has a type that is not "message", or its `message` member exists and `"text" in` it is false |
| `WebhookProperties.MissingTypeRaises` | webhook.py:42 | A missing `type` raises KeyError; an event that is not an object raises TypeError |
| `WebhookProperties.MissingMessageRaises` | webhook.py:42 | A message event without a `message` member raises KeyError |
| `WebhookProperties.MissingSourceRaises` | webhook.py:43 | A text message without `source`, or whose `source` object has no `userId`, raises KeyError; a `source` that is not an object raises TypeError |
| `WebhookProperties.TextInNonObjectRaises` | webhook.py:42-44 | A string or list `message` that contains "text" passes the test and then raises when subscripted; once `source.userId` is found, that error is a TypeError |
| `WebhookProperties.TimestampFaults` | webhook.py:45 | For a text message with a sender, a missing timestamp raises KeyError, a string that is no integer literal raises ValueError, a timestamp `int()` cannot convert raises what `int()` raises, and an unrepresentable date raises `DateError` |
| `WebhookProperties.StringTimestampAsNumber` | webhook.py:45 | A timestamp sent as the decimal string of `ms` stores the same row as the number `ms` |
| `WebhookProperties.FractionalStringTimestampRaises` | webhook.py:45 | A string timestamp containing a decimal point raises ValueError |
| `WebhookProperties.SubSecondDropped` | webhook.py:45 | All milliseconds of one second give the same date: the sub-second part is dropped |
| `WebhookProperties.KeptRowsAppend` | webhook.py:40-47 | The rows of a batch are the rows of its first part followed by those of the rest: batch order is kept |
| `WebhookProperties.KeptRowsFromEvents` | webhook.py:40-47 | A row is among a batch's rows exactly when some event of the batch extracts to it |
| `WebhookProperties.KeptRowsBounded` | webhook.py:40-47 | A batch never yields more rows than it has events |
| `WebhookProperties.IngestCompletes` | webhook.py:40-50 | When no event raises, the loop commits exactly the rows of the text messages, in batch order, and ends without a fault |
| `WebhookProperties.IngestFailsAt` | webhook.py:40-56 | When event k is the first to raise (extraction or commit), the rows of the events before k stay committed. Nothing of event k or later is stored, and the fault is event k's |
| `WebhookProperties.IngestFaultFreeIff` | webhook.py:40-50 | The loop ends without a fault exactly when no event raises |
| `WebhookProperties.IngestCommitsPrefix` | webhook.py:40-56 | Whatever happens, the committed rows are a prefix of the text messages' rows |
| `WebhookProperties.IngestCommitsOnlyCommittable` | webhook.py:47-49 | Every row the loop commits has non-null `text` and `user_id` and was accepted by the database |
| `WebhookProperties.NoEventsKey` | webhook.py:38 | A payload object without "events" writes nothing and is answered "ok", 200 |
| `WebhookProperties.UndecodableOrScalarBody` | webhook.py:33-38 | An undecodable body, or a top-level null, number or boolean, writes nothing and is answered "error", 500 |
| `WebhookProperties.EventsList` | webhook.py:38-40 | When "events" holds a list, the loop iterates exactly that list |
| `WebhookProperties.EventsObjectRaises` | webhook.py:40-42 | When "events" holds a non-empty object, the loop meets a string key and fails before storing anything |
| `WebhookProperties.ReplyIsOkIff` | webhook.py:52-56 | Every reply is "ok", 200 or "error", 500. It is "ok" exactly when the payload has no "events", or its events were reached and none raised |
| `WebhookProperties.SuccessfulRequest` | webhook.py:38-52 | A request whose events all go through commits the rows of its text messages in batch order and is answered "ok", 200 |
| `WebhookProperties.AllSkipped` | webhook.py:40-52 | A batch whose events are all skipped stores nothing and is still answered "ok", 200 |
| `WebhookProperties.FailedRequest` | webhook.py:40-56 | A request whose event k is the first to raise is answered "error", 500, and keeps exactly the rows of the text messages before k |
| `WebhookProperties.CommitsPrefixOfKeptRows` | webhook.py:40-56 | What any request commits is a prefix of the rows of its text messages |
| `WebhookProperties.HandleCommitsOnlyCommittable` | webhook.py:31-56 | No request commits a row with a null `text` or `user_id`, or one the database refuses |

Two consequences of the code are worth stating plainly:

- A bad timestamp raises and ends the batch with the error answer; later
  events are not processed.
- A failed request keeps the rows committed before it; only the uncommitted
  row is rolled back.

## Left out

- Flask routing, `jsonify` and `app.run` are HTTP plumbing. `request.get_json()` is replaced by an already-decoded body; a decoding failure is the `None` body.
- The text of the exception in the error answer (`"message": str(e)`) is not modelled; the model keeps the exception class.
- Webhook.FromTimestamp: the three exceptions `datetime.fromtimestamp` raises for an unrepresentable date are merged into one `DateError`. Which one Python raises (ValueError for a year outside 1..9999, OSError when the platform's `localtime` fails, OverflowError when the value does not fit `time_t`) depends on the platform; the reply is the same error answer for all three.
- `print` logging and `load_dotenv` / `DATABASE_URL` are I/O and configuration. A `print` that raises (a UnicodeEncodeError on a stdout whose encoding cannot hold the text, say) is not modelled: at webhook.py:50 it would come after the commit, so the row would stay, the rest of the batch would be skipped and the answer would be the error one; at webhook.py:35-36, :39 or :41 it would end the request before the current event's write, keeping the rows of earlier events. A failing `print` at webhook.py:54 would also skip the rollback.
- Engine creation, `declarative_base` and `create_all` are database plumbing. The session's committed sequence is the rows this session has committed; rows the table held before (`create_all` keeps an existing table) are not modelled.
- The `id` primary key is assigned by the database and is not part of the row.
- Database failures other than the NOT NULL columns (connection loss, type coercion of non-string `text` or `user_id`) are the `Verdict` parameter. This makes them a function of the row alone.
- A `rollback()` that itself raises is not modelled.
- The session is shared by concurrent requests in the process. Concurrency is not modelled: requests are handled one after another.
- `datetime.fromtimestamp` converts to local time. The model keeps the date as whole seconds since the epoch; the platform's range is the `TimeRange` parameter.
- A Dafny `string` holds only Unicode scalar values, so a JSON string with a lone surrogate escape such as `"\ud800"`, which `json.loads` accepts, cannot be represented. Used as `text` or `userId`, such a string makes the commit raise when the driver encodes it, and the answer is the error.
- JSON floats are exact reals. Double rounding, NaN and Infinity are not modelled.
- The model's `int()` of a string strips only the ASCII whitespace space, tab, line feed, vertical tab, form feed and carriage return, and reads ASCII digits only. Python also accepts non-ASCII whitespace and Unicode decimal digits.
- IntParse.Parse: the digit limit is fixed at the default 4300, which Python has applied since 3.11 and the 3.10.7, 3.9.14, 3.8.14 and 3.7.14 security releases. `sys.set_int_max_str_digits` and `PYTHONINTMAXSTRDIGITS` can change it, and earlier releases have no limit.
- Signature verification, admin and forward routing, the retrying AI and push calls, profile lookup and order ingestion are not present in `webhook.py` and are not part of this model.
