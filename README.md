# homework_bot poller, modelled in Dafny

The bot polls the homework-status API of Yandex Practicum every ten minutes.
It takes the latest homework record, turns its status into a notification
text and sends that text to a Telegram chat. It only sends when the text
differs from the last one it delivered. Failures become notification texts
too, and go through the same duplicate check. At startup it refuses to run
without its three credentials.

The model has these parts:

- `Json` (json.dfy): decoded JSON values. It also covers the bits of Python
  the bot applies to them: key tests and lookups, `dict.get`, type names,
  `str()` and `repr()`.
- `Exceptions` (exceptions.dfy): one error datatype. Its constructors are the
  five exception classes of exceptions.py and the built-ins the code can
  raise (`TypeError`, `KeyError`, `AttributeError`, the JSON decoder's
  error). `Error.Text` is `str(error)`. For a `KeyError` that is the quoted
  `repr` of the argument.
- `Tokens` (tokens.dfy): `check_tokens` as a method with the source's loop.
  It is proved against the specification function `Missing`.
- `Homework` (homework.dfy): `HOMEWORK_VERDICTS`, `check_response` and
  `parse_status` as pure functions returning `Result`. `parse_status`
  follows Python on every kind of record: dict, list, string and scalar.
- `Poll` (poller.dfy): one iteration of the `while True` loop of `main` as a
  step function, `Iterate`. Its state is `timestamp`, `current_report` and
  `prev_report`. Its inputs are the outcome of the fetch and the outcome of
  the send. `Run` chains iterations over a finite list of inputs. The class
  `Poller` holds the three loop variables as fields. Its `Step` method (the
  loop body) and `Poll` method (the loop) update them in place and are
  proved equal to `Iterate` and `Run`.

Three behaviours of the code are easy to misread, and the model follows the
code in each:

- A `SendMessageError` from the send inside the `except Exception` handler
  (homework.py:154) is not caught by the sibling handlers, so it leaves
  `main`. It is not swallowed.
- A record without `status` raises the subscript's own `KeyError('status')`
  at line 113. The check at line 117 can never raise.
- The timestamp starts at 0. A non-dict answer fails at `response.get` with
  an `AttributeError` before `check_response` runs.

## Model

| member | source | states |
|---|---|---|
| Tokens.CheckTokens | homework.py:49-60 | returns normally exactly when all three tokens are set and non-empty; otherwise collects the missing names in the order practicum, telegram, chat id and raises `EnvError` with the literal message of line 60, which does not show them |
| Tokens.MissingEmptyIffAllPresent | homework.py:54-58 | no name is collected exactly when every token is present, so `EnvError` is raised exactly when at least one is unset or empty |
| Tokens.MissingNamesExactly | homework.py:55-57 | a name is collected exactly when its token is unset or empty |
| Tokens.EnvErrorMessageAsWrittenHidesNames | homework.py:60 | as written, the message is identical for different missing tokens; the corrected message tells them apart |
| Tokens.EnvErrorMessageNamesEachToken | homework.py:60 | the corrected message quotes the name of every missing token |
| Homework.CheckResponse | homework.py:95-106 | succeeds exactly on a dict whose `homeworks` is a list, and returns that list unchanged (empty included); `EmptyAnswerApiError` exactly for a dict without `homeworks`; every other failure is `TypeError` |
| Homework.CheckResponseExamples | homework.py:95-106 | `{"homeworks": []}` gives `[]`, `{}` the empty-answer error, `{"homeworks": "x"}` and a list the two type errors |
| Homework.ParseStatusOfDocumentedRecord | homework.py:121-124 | a record with name n and a documented status gives exactly the fixed prefix, n in double quotes, and the table's verdict |
| Homework.ParseStatusOkIffDocumented | homework.py:109-124 | `parse_status` returns normally exactly on dicts with a name and a status from the verdict table |
| Homework.ParseStatusKeyErrors | homework.py:111-116 | on a dict, `KeyError` is raised exactly when the name is absent, the status is absent, or the status is outside the table (and hashable); a missing status raises `KeyError('status')` |
| Homework.NoStatusMessageUnreachable | homework.py:117-120 | no record ever raises the message of line 119 |
| Homework.ReportsDistinguishStatuses | homework.py:37-41 | for one homework name, two documented records give the same text exactly when their statuses are equal |
| Poll.FetchError | homework.py:86-92 | a failed fetch raises `Not200Error`, `RequestError` or the decoder's error, never one of the two swallowed kinds |
| Poll.TimestampFollowsCurrentDate | homework.py:136-138 | after a dict answer the timestamp is its `current_date` if present, else unchanged, even when `check_response` then raises; otherwise it is unchanged |
| Poll.NonDictAnswerFailsAtGet | homework.py:136-138 | a non-dict answer is reported as the `AttributeError` of `.get`, never as the `TypeError` of line 98 |
| Poll.OnlyFirstRecordCounts | homework.py:139-142 | two answers that agree on `current_date` and on the first homework record give the same iteration, whatever the later records |
| Poll.ReportIgnoresTimestamp | homework.py:136-142 | for a given fetch outcome, the report text does not depend on the timestamp (the timestamp only shapes the answer through the request, which is an input here) |
| Poll.PrevReportFollowsDelivery | homework.py:143-155 | a message is sent only when it differs from `prev_report`; `prev_report` changes only by becoming the message just delivered |
| Poll.DifferingReportIsSent | homework.py:143-155 | a status or failure report that is not swallowed is delivered by a successful send exactly when it differs from `prev_report`, from the first iteration on |
| Poll.EmptyAnswerOnlyLogged | homework.py:146-147 | on `EmptyAnswerApiError` nothing is sent and both reports keep their values |
| Poll.FailedStatusSendOnlyLogged | homework.py:143-149 | a failed send of a status report is only logged; `prev_report` keeps its value |
| Poll.EscapesOnlyFromFailureHandler | homework.py:150-157 | an exception leaves `main` exactly when a failure report that differs from `prev_report` cannot be sent, and it is that send's `SendMessageError` |
| Poll.CurrentReportNeverRead | homework.py:139-155 | the value of `current_report` from earlier iterations never affects what is sent, what escapes, the timestamp or `prev_report` |
| Poll.RepeatedOutcomeSentOnce | homework.py:143-155 | two consecutive iterations with the same fetch outcome deliver at most one message, for statuses and failures alike |
| Poll.StatusChangeIsSent | homework.py:139-145 | when the last delivered text came from a record, a new status for the same homework is sent |
| Poll.RunNeverRepeatsMessage | homework.py:134-157 | over any run the delivered messages never repeat back to back, the first differs from the starting `prev_report`, and `prev_report` ends as the last message delivered |
| Poll.ReviewingThenApprovedScenario | homework.py:134-157 | `reviewing`, `reviewing`, `approved` for `hw1` delivers the reviewing text once, then the approved text |
| Poll.RepeatedRequestFailureScenario | homework.py:134-157 | the same transport failure on two iterations is notified once |
| Poll.Poller.constructor | homework.py:131-133 | the loop starts with timestamp 0 and both reports empty |
| Poll.Poller.Step | homework.py:135-157 | the loop body updates the three variables in place exactly as `Iterate` prescribes and returns its outcome |
| Poll.Poller.Poll | homework.py:134-157 | the loop, run over finitely many inputs, delivers what `Run` delivers and stops where an exception escapes |

## Findings

| source | as written | input that shows it | evidently intended | confidence | as-written member | corrected member |
|---|---|---|---|---|---|---|
| homework.py:60 | the `EnvError` message is a plain string literal without the `f` prefix, so it holds the placeholder `{token_names}`, not the names | unset `PRACTICUM_TOKEN` and, separately, unset `TELEGRAM_CHAT_ID` give the same message | the message lists the collected names, `Нет значений: ['practicum_token']` | high; not executed | Tokens.EnvErrorMessageAsWrittenHidesNames | Tokens.EnvErrorMessageNamesEachToken |

`Tokens.CheckTokens` raises `EnvError` with the message as written,
`Tokens.EnvErrorMessageAsWritten`. `Tokens.EnvErrorMessage` is the corrected
message.

## Left out

- `get_api_answer` (homework.py:74-92) is not modelled. Its HTTP request and JSON decoding are library calls. Each iteration takes its outcome as an input (`FetchOutcome`): a decoded answer, a non-200 status, a request failure, or a body that is not JSON. So the `from_date` parameter built from the timestamp reaches no model code.
- `send_message` (homework.py:63-71) and the Telegram bot are not modelled. They are reduced to `SendOutcome`: delivered, or `SendMessageError`. Which value is handed to the bot (the dict, not its text) does not matter here.
- Loading the environment and `.env` file, the logger and its handlers, and the `time.sleep(RETRY_PERIOD)` of the `finally` clause are left out. They are I/O and timing; the sleep changes no state.
- The `while True` loop is not modelled as unbounded. Only finite runs are reasoned about, and a run stops when an exception escapes.
- The start of `main` (check_tokens, then building the bot) is not modelled as one member. `CheckTokens` and the loop are modelled apart.
- Floating-point JSON numbers are not modelled. Numbers are integers, so a fractional `current_date` cannot be represented.
- Json.Render: the `repr` of a string nested in a list or dict always uses single quotes and no escapes. Python picks the quote character and escapes special characters. This matters only for a `homework_name` that is a list or a dict.
- Json.Lookup: the decoder merges repeated keys of an object into one dict entry, keeping the last value. The model keeps the members as written and reads the last one. `Render` of such an object would list each repeated key.
- The texts of Python's built-in errors (`'list' object has no attribute 'get'`, `unhashable type: 'list'`, `argument of type 'int' is not iterable`, the index errors) follow CPython 3.11. Other versions word some of them differently.
