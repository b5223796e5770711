/**
  One iteration of the polling loop of `main` (homework.py, lines 131-157) and
  finite runs of it. The HTTP request and the messenger are replaced by their
  outcomes, which every iteration takes as inputs; `time.sleep` does nothing.
*/
module Poll {
  import opened Wrappers
  import opened Json
  import opened Exceptions
  import opened Homework

  /** The report text when the answer lists no homework. */
  const NoNewStatuses := "Нет новых статусов"
  /** The head of the report built from an exception. */
  const FailurePrefix := "Сбой в работе программы: "
  const RequestFailureMessage := "Сбой при запросе к эндпоинту"
  const SendFailureMessage := "Сообщение не отправлено"

  /** What one call of `get_api_answer(timestamp)` ends with. */
  datatype FetchOutcome =
    | Answer(body: Value)           // a 200 answer whose body decoded to `body`
    | Not200(statusCode: int)       // `Not200Error(response)`, not converted; a code of 200 never arises
    | RequestFailed                 // a `requests` failure, raised as `RequestError`
    | BodyNotJson(message: string)  // the decoder failed on a 200 answer

  /** The exception `get_api_answer` raises for a failed fetch. `str()` of a
      `requests` response object is `<Response [code]>`. */
  function FetchError(fetched: FetchOutcome): (e: Error)
    requires !fetched.Answer?
    ensures !e.EmptyAnswerApiError? && !e.SendMessageError?
  {
    match fetched
    case Not200(code) => Not200Error("<Response [" + IntToString(code) + "]>")
    case RequestFailed => RequestError(RequestFailureMessage)
    case BodyNotJson(message) => JSONDecodeError(message)
  }

  /** What one call of `send_message` ends with: delivered, or `SendMessageError`. */
  datatype SendOutcome = SendOk | TelegramFailed

  /** The variables the loop keeps between iterations. `currentReport` and
      `prevReport` are the dicts of the source: `None` is `{}`, `Some(t)` is
      `{'output': t}`; dict equality is equality of these values. */
  datatype PollState = PollState(timestamp: Value, currentReport: Option<string>, prevReport: Option<string>)

  /** The state `main` enters the loop with. */
  const Start := PollState(Int(0), None, None)

  /** How an iteration ends: normally, with the text delivered if any, or with
      an exception that leaves `main`. */
  datatype StepOutcome = Continued(sent: Option<string>) | Escaped(error: Error)

  /** The messages an outcome delivered. */
  function Delivered(outcome: StepOutcome): (ms: seq<string>)
    ensures |ms| <= 1
  {
    if outcome.Continued? && outcome.sent.Some? then [outcome.sent.value] else []
  }

  /** The `AttributeError` of `response.get(...)` on a value that is not a dict. */
  function NoGetError(v: Value): Error
  {
    AttributeError("'" + TypeName(v) + "' object has no attribute 'get'")
  }

  /** Lines 136-142: the timestamp after the fetch and either the report text
      or the exception raised on the way to it. */
  function Evaluate(timestamp: Value, fetched: FetchOutcome): (Value, Result<string, Error>)
  {
    if !fetched.Answer? then (timestamp, Err(FetchError(fetched)))
    else if !fetched.body.Object? then (timestamp, Err(NoGetError(fetched.body)))
    else
      var next := GetOr(fetched.body.members, "current_date", timestamp);
      match CheckResponse(fetched.body)
      case Err(e) => (next, Err(e))
      case Ok(homeworks) =>
        (next, if |homeworks| > 0 then ParseStatus(homeworks[0]) else Ok(NoNewStatuses))
  }

  /** Lines 143-145 and 153-155: send the current report when it differs from
      the previous one and remember it once delivered. A failed send inside the
      `except Exception` handler leaves `main`. */
  function Notify(s: PollState, send: SendOutcome, inHandler: bool): (PollState, StepOutcome)
  {
    if s.currentReport == s.prevReport then (s, Continued(None))
    else if send == SendOk then (s.(prevReport := s.currentReport), Continued(s.currentReport))
    else if inHandler then (s, Escaped(SendMessageError(SendFailureMessage)))
    else (s, Continued(None))
  }

  /** One iteration of the loop: evaluate, then route the result through the
      handlers of lines 146-155. */
  function Iterate(s: PollState, fetched: FetchOutcome, send: SendOutcome): (PollState, StepOutcome)
  {
    var (timestamp, report) := Evaluate(s.timestamp, fetched);
    match report
    case Ok(text) =>
      Notify(PollState(timestamp, Some(text), s.prevReport), send, false)
    case Err(e) =>
      if e.EmptyAnswerApiError? || e.SendMessageError? then
        (s.(timestamp := timestamp), Continued(None))
      else
        Notify(PollState(timestamp, Some(FailurePrefix + e.Text()), s.prevReport), send, true)
  }

  /** The result of running the loop over finitely many iterations. */
  datatype RunResult = RunResult(final: PollState, sent: seq<string>, escaped: Option<Error>)
  {
    /** The same run preceded by iterations that delivered `earlier`. */
    function After(earlier: seq<string>): RunResult
    {
      RunResult(final, earlier + sent, escaped)
    }
  }

  /** Iterate over the inputs in order until they run out or an exception
      leaves `main`. */
  function Run(s: PollState, inputs: seq<(FetchOutcome, SendOutcome)>): RunResult
    decreases |inputs|
  {
    if inputs == [] then RunResult(s, [], None)
    else
      var (next, outcome) := Iterate(s, inputs[0].0, inputs[0].1);
      if outcome.Escaped? then RunResult(next, [], Some(outcome.error))
      else Run(next, inputs[1..]).After(Delivered(outcome))
  }

  /** No two neighbouring messages are equal. */
  predicate NoRepeatedNeighbours(ms: seq<string>)
  {
    forall k | 0 <= k < |ms| - 1 :: ms[k] != ms[k + 1]
  }

  /** The timestamp becomes the answer's `current_date` when the answer is a
      dict (even one that `check_response` then rejects) and keeps its value
      otherwise. */
  lemma TimestampFollowsCurrentDate(s: PollState, fetched: FetchOutcome, send: SendOutcome)
    ensures Iterate(s, fetched, send).0.timestamp ==
            if fetched.Answer? && fetched.body.Object?
            then GetOr(fetched.body.members, "current_date", s.timestamp)
            else s.timestamp
  {
  }

  /** The report, and so the whole iteration, depends only on the first
      record of the `homeworks` list. */
  lemma OnlyFirstRecordCounts(s: PollState, b1: Value, b2: Value, send: SendOutcome)
    requires ConformsToApi(b1) && ConformsToApi(b2)
    requires GetOr(b1.members, "current_date", s.timestamp) == GetOr(b2.members, "current_date", s.timestamp)
    requires var h1 := Lookup(b1.members, "homeworks").items;
             var h2 := Lookup(b2.members, "homeworks").items;
             |h1| > 0 && |h2| > 0 && h1[0] == h2[0]
    ensures Iterate(s, Answer(b1), send) == Iterate(s, Answer(b2), send)
  {
  }

  /** A message is sent only when it differs from the previous report, and
      `prevReport` changes only by becoming the message just delivered. */
  lemma PrevReportFollowsDelivery(s: PollState, fetched: FetchOutcome, send: SendOutcome)
    ensures var (next, outcome) := Iterate(s, fetched, send);
            (outcome.Continued? && outcome.sent.Some? ==>
               outcome.sent != s.prevReport && next.prevReport == outcome.sent) &&
            (next.prevReport != s.prevReport ==>
               outcome.Continued? && outcome.sent == next.prevReport && send == SendOk)
  {
  }

  /** The converse of the duplicate check: every report that is not swallowed,
      a status text or a failure text alike, is delivered by a successful send
      exactly when it differs from the previous report. */
  lemma DifferingReportIsSent(s: PollState, fetched: FetchOutcome)
    ensures var report := Evaluate(s.timestamp, fetched).1;
            var text := if report.Ok? then report.value else FailurePrefix + report.error.Text();
            report.Ok? || !report.error.EmptyAnswerApiError? ==>
              (Iterate(s, fetched, SendOk).1 == Continued(Some(text)) <==> Some(text) != s.prevReport)
  {
  }

  /** `EmptyAnswerApiError` is only logged: nothing is sent and both reports
      keep their values. */
  lemma EmptyAnswerOnlyLogged(s: PollState, body: Value, send: SendOutcome)
    requires body.Object? && !HasKey(body.members, "homeworks")
    ensures var (next, outcome) := Iterate(s, Answer(body), send);
            outcome == Continued(None) && next.prevReport == s.prevReport &&
            next.currentReport == s.currentReport
  {
  }

  /** A failed send of a status report is only logged: `prevReport` keeps its
      value, so the same report is sent again next time. */
  lemma FailedStatusSendOnlyLogged(s: PollState, fetched: FetchOutcome)
    requires Evaluate(s.timestamp, fetched).1.Ok?
    ensures var (next, outcome) := Iterate(s, fetched, TelegramFailed);
            outcome == Continued(None) && next.prevReport == s.prevReport &&
            next.currentReport == Some(Evaluate(s.timestamp, fetched).1.value)
  {
  }

  /** An exception leaves `main` exactly when a failure report that differs
      from the previous report cannot be sent; that exception is always the
      `SendMessageError` of the handler's own send. */
  lemma EscapesOnlyFromFailureHandler(s: PollState, fetched: FetchOutcome, send: SendOutcome)
    ensures var (next, outcome) := Iterate(s, fetched, send);
            var report := Evaluate(s.timestamp, fetched).1;
            (outcome.Escaped? <==>
               report.Err? && !report.error.EmptyAnswerApiError? &&
               Some(FailurePrefix + report.error.Text()) != s.prevReport && send == TelegramFailed) &&
            (outcome.Escaped? ==> outcome.error == SendMessageError(SendFailureMessage))
  {
  }

  /** An answer that is not a dict fails at `response.get` with an
      `AttributeError`; the `TypeError` of `check_response` for it is never
      reported. */
  lemma NonDictAnswerFailsAtGet(s: PollState, body: Value, send: SendOutcome)
    requires !body.Object?
    ensures var next := Iterate(s, Answer(body), send).0;
            next.currentReport == Some(FailurePrefix + NoGetError(body).Text()) &&
            next.currentReport != Some(FailurePrefix + TypeError(NotDictMessage).Text())
  {
    var got := FailurePrefix + NoGetError(body).Text();
    var typed := FailurePrefix + TypeError(NotDictMessage).Text();
    assert got[|FailurePrefix|] != typed[|FailurePrefix|];
  }

  /** The report of an iteration does not depend on the timestamp it starts with. */
  lemma ReportIgnoresTimestamp(t1: Value, t2: Value, fetched: FetchOutcome)
    ensures Evaluate(t1, fetched).1 == Evaluate(t2, fetched).1
  {
  }

  /** `currentReport` is always overwritten before it is compared: its value
      from earlier iterations never influences what is sent, what escapes,
      the timestamp or `prevReport`. */
  lemma CurrentReportNeverRead(s: PollState, other: Option<string>, fetched: FetchOutcome, send: SendOutcome)
    ensures var (n1, o1) := Iterate(s, fetched, send);
            var (n2, o2) := Iterate(s.(currentReport := other), fetched, send);
            o1 == o2 && n1.timestamp == n2.timestamp && n1.prevReport == n2.prevReport
  {
  }

  /** Two consecutive iterations with the same fetch outcome deliver at most
      one message, whether the outcome is a status or a failure. */
  lemma RepeatedOutcomeSentOnce(s: PollState, fetched: FetchOutcome, send1: SendOutcome, send2: SendOutcome)
    requires Iterate(s, fetched, send1).1.Continued?
    ensures var (s1, o1) := Iterate(s, fetched, send1);
            var (s2, o2) := Iterate(s1, fetched, send2);
            |Delivered(o1)| + |Delivered(o2)| <= 1
  {
    var (s1, o1) := Iterate(s, fetched, send1);
    ReportIgnoresTimestamp(s.timestamp, s1.timestamp, fetched);
  }

  /** When the last report delivered was a documented record's text, an answer
      whose first record is the same homework with another status is sent. */
  lemma StatusChangeIsSent(s: PollState, old_record: Value, body: Value, name: string)
    requires IsDocumentedRecord(old_record)
    requires Lookup(old_record.members, "homework_name") == String(name)
    requires s.prevReport == Some(ParseStatus(old_record).value)
    requires ConformsToApi(body)
    requires var h := Lookup(body.members, "homeworks").items;
             |h| > 0 && IsDocumentedRecord(h[0]) &&
             Lookup(h[0].members, "homework_name") == String(name) &&
             Lookup(h[0].members, "status") != Lookup(old_record.members, "status")
    ensures var record := Lookup(body.members, "homeworks").items[0];
            Iterate(s, Answer(body), SendOk).1 == Continued(Some(ParseStatus(record).value))
  {
    var record := Lookup(body.members, "homeworks").items[0];
    ReportsDistinguishStatuses(old_record, record, name);
  }

  /** Over any run, the messages delivered never repeat back to back, the first
      differs from the report remembered at the start, and the remembered report
      ends as the last message delivered. */
  lemma {:induction false} RunNeverRepeatsMessage(s: PollState, inputs: seq<(FetchOutcome, SendOutcome)>)
    ensures var r := Run(s, inputs);
            NoRepeatedNeighbours(r.sent) &&
            (|r.sent| > 0 ==> Some(r.sent[0]) != s.prevReport) &&
            r.final.prevReport == if r.sent == [] then s.prevReport else Some(r.sent[|r.sent| - 1])
    decreases |inputs|
  {
    if inputs != [] {
      var (next, outcome) := Iterate(s, inputs[0].0, inputs[0].1);
      PrevReportFollowsDelivery(s, inputs[0].0, inputs[0].1);
      if outcome.Continued? {
        RunNeverRepeatsMessage(next, inputs[1..]);
        var rest := Run(next, inputs[1..]);
        var sent := Delivered(outcome) + rest.sent;
        assert Run(s, inputs).sent == sent;
        if outcome.sent.Some? {
          assert forall k | 1 <= k < |sent| :: sent[k] == rest.sent[k - 1];
        }
      }
    }
  }

  /** An answer listing one homework `hw1` with the given status. */
  function Hw1Answer(status: string): Value
  {
    Object([("homeworks", Array([Object([("homework_name", String("hw1")), ("status", String(status))])])),
            ("current_date", Int(1000))])
  }

  /** The same `reviewing` answer twice, then `approved`: the first and third
      iterations notify, the second does not. */
  lemma ReviewingThenApprovedScenario()
    ensures Run(Start, [(Answer(Hw1Answer("reviewing")), SendOk),
                        (Answer(Hw1Answer("reviewing")), SendOk),
                        (Answer(Hw1Answer("approved")), SendOk)]).sent ==
            [Hw1Report("reviewing"), Hw1Report("approved")]
  {
    var first := (Answer(Hw1Answer("reviewing")), SendOk);
    var last := (Answer(Hw1Answer("approved")), SendOk);
    Hw1Evaluate("reviewing", Int(0));
    Hw1Evaluate("reviewing", Int(1000));
    Hw1Evaluate("approved", Int(1000));
    var s1 := PollState(Int(1000), Some(Hw1Report("reviewing")), Some(Hw1Report("reviewing")));
    var s3 := PollState(Int(1000), Some(Hw1Report("approved")), Some(Hw1Report("approved")));
    assert Iterate(Start, first.0, SendOk) == (s1, Continued(Some(Hw1Report("reviewing"))));
    assert Iterate(s1, first.0, SendOk) == (s1, Continued(None));
    assert Hw1Report("reviewing") != Hw1Report("approved") by {
      assert |HomeworkVerdicts["reviewing"]| != |HomeworkVerdicts["approved"]|;
    }
    assert Iterate(s1, last.0, SendOk) == (s3, Continued(Some(Hw1Report("approved"))));
    assert Run(s3, []).sent == [];
    assert Run(s1, [last]).sent == [Hw1Report("approved")];
    assert [first, last][1..] == [last];
    assert Run(s1, [first, last]).sent == [Hw1Report("approved")];
    assert [first, first, last][1..] == [first, last];
  }

  /** The notification text for homework `hw1` with a documented status. */
  function Hw1Report(status: string): string
    requires status in HomeworkVerdicts
  {
    ChangedPrefix + "hw1" + "\". " + HomeworkVerdicts[status]
  }

  /** The answer for `hw1` evaluates to its notification text and moves the
      timestamp to 1000. */
  lemma Hw1Evaluate(status: string, timestamp: Value)
    requires status in HomeworkVerdicts
    ensures Evaluate(timestamp, Answer(Hw1Answer(status))) == (Int(1000), Ok(Hw1Report(status)))
  {
    var record := Object([("homework_name", String("hw1")), ("status", String(status))]);
    var body := Hw1Answer(status);
    assert body.members[0].0 == "homeworks" && body.members[1].0 == "current_date";
    assert record.members[0].0 == "homework_name" && record.members[1].0 == "status";
    assert Lookup(body.members, "homeworks") == Array([record]);
    assert Lookup(record.members, "homework_name") == String("hw1");
    ParseStatusOfDocumentedRecord(record, "hw1");
  }

  /** The same transport failure on two iterations is notified once. */
  lemma RepeatedRequestFailureScenario()
    ensures Run(Start, [(RequestFailed, SendOk), (RequestFailed, SendOk)]).sent ==
            [FailurePrefix + RequestFailureMessage]
  {
  }

  /** The poller of `main`: the three variables of its loop, updated in place. */
  class Poller {
    var timestamp: Value
    var currentReport: Option<string>
    var prevReport: Option<string>

    function State(): PollState
      reads this
    {
      PollState(timestamp, currentReport, prevReport)
    }

    /** Lines 131-133: `timestamp = 0`, `current_report = {}`, `prev_report = {}`. */
    constructor()
      ensures State() == Start
    {
      timestamp := Int(0);
      currentReport := None;
      prevReport := None;
    }

    /** The body of the `while True` loop, lines 135-157. */
    method Step(fetched: FetchOutcome, send: SendOutcome) returns (outcome: StepOutcome)
      modifies this
      ensures (State(), outcome) == Iterate(old(State()), fetched, send)
    {
      outcome := Continued(None);
      var raised: Option<Error> := None;
      // try:
      if !fetched.Answer? {
        raised := Some(FetchError(fetched));
      } else if !fetched.body.Object? {
        raised := Some(NoGetError(fetched.body));
      } else {
        timestamp := GetOr(fetched.body.members, "current_date", timestamp);
        var homeworks := CheckResponse(fetched.body);
        if homeworks.Err? {
          raised := Some(homeworks.error);
        } else {
          var report := if |homeworks.value| > 0 then ParseStatus(homeworks.value[0]) else Ok(NoNewStatuses);
          if report.Err? {
            raised := Some(report.error);
          } else {
            currentReport := Some(report.value);
            if currentReport != prevReport {
              if send == SendOk {
                prevReport := currentReport;
                outcome := Continued(currentReport);
              } else {
                raised := Some(SendMessageError(SendFailureMessage));
              }
            }
          }
        }
      }
      // except EmptyAnswerApiError, except SendMessageError: logged only.
      // except Exception:
      if raised.Some? && !raised.value.EmptyAnswerApiError? && !raised.value.SendMessageError? {
        currentReport := Some(FailurePrefix + raised.value.Text());
        if currentReport != prevReport {
          if send == SendOk {
            prevReport := currentReport;
            outcome := Continued(currentReport);
          } else {
            outcome := Escaped(SendMessageError(SendFailureMessage));
          }
        }
      }
      // finally: time.sleep(RETRY_PERIOD) does not change the state.
    }

    /** The `while True` loop over finitely many iterations: it stops when the
        inputs run out or when an exception leaves `main`. */
    method Poll(inputs: seq<(FetchOutcome, SendOutcome)>) returns (sent: seq<string>, escaped: Option<Error>)
      modifies this
      ensures Run(old(State()), inputs) == RunResult(State(), sent, escaped)
    {
      sent, escaped := [], None;
      var i := 0;
      while i < |inputs|
        invariant 0 <= i <= |inputs|
        invariant Run(old(State()), inputs) == Run(State(), inputs[i..]).After(sent)
      {
        ghost var before := State();
        var outcome := Step(inputs[i].0, inputs[i].1);
        assert inputs[i..][0] == inputs[i] && inputs[i..][1..] == inputs[i + 1..];
        if outcome.Escaped? {
          escaped := Some(outcome.error);
          return;
        }
        sent := sent + Delivered(outcome);
        i := i + 1;
      }
    }
  }
}
