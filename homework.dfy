/**
  The pure part of homework.py: `check_response`, which validates an answer of
  the homework-status API, and `parse_status`, which turns one homework record
  into the text of a notification through the verdict table.
*/
module Homework {
  import opened Wrappers
  import opened Json
  import opened Exceptions

  /** `HOMEWORK_VERDICTS`: the text shown for each documented status. */
  const HomeworkVerdicts: map<string, string> := map[
    "approved" := "Работа проверена: ревьюеру всё понравилось. Ура!",
    "reviewing" := "Работа взята на проверку ревьюером.",
    "rejected" := "Работа проверена: у ревьюера есть замечания."
  ]

  /** The head of every status notification; the homework name follows in double quotes. */
  const ChangedPrefix := "Изменился статус проверки работы \""

  const NotDictMessage := "Тип данных ответа API отличен от dict"
  const EmptyAnswerMessage := "Пустой ответ API"
  const NotListMessage := "Данные под ключом `homeworks` приходят не в виде списка."
  const NoNameMessage := "В ответе API домашки нет ключа homework_name"
  const UnknownStatusMessage := "API домашки возвращает недокументированный статус"
  const NoStatusMessage := "API домашки возвращает домашку без статуса"

  /** The documented shape of an answer: a dict whose `homeworks` member is a list. */
  predicate ConformsToApi(response: Value)
  {
    response.Object? && HasKey(response.members, "homeworks") &&
    Lookup(response.members, "homeworks").Array?
  }

  /** `check_response`: the `homeworks` list of a conforming answer, unchanged
      (empty or not); `EmptyAnswerApiError` for a dict without `homeworks`;
      `TypeError` for anything else. */
  function CheckResponse(response: Value): (r: Result<seq<Value>, Error>)
    ensures r.Ok? <==> ConformsToApi(response)
    ensures r.Ok? ==> Array(r.value) == Lookup(response.members, "homeworks")
    ensures r.Err? && r.error.EmptyAnswerApiError? <==>
              response.Object? && !HasKey(response.members, "homeworks")
    ensures r.Err? && !r.error.EmptyAnswerApiError? ==> r.error.TypeError?
  {
    if !response.Object? then
      Err(TypeError(NotDictMessage))
    else if !HasKey(response.members, "homeworks") then
      Err(EmptyAnswerApiError(EmptyAnswerMessage))
    else
      var homeworks := Lookup(response.members, "homeworks");
      if !homeworks.Array? then Err(TypeError(NotListMessage)) else Ok(homeworks.items)
  }

  /** The four kinds of answer, one example each. */
  lemma CheckResponseExamples()
    ensures CheckResponse(Object([("homeworks", Array([]))])) == Ok([])
    ensures CheckResponse(Object([])) == Err(EmptyAnswerApiError(EmptyAnswerMessage))
    ensures CheckResponse(Object([("homeworks", String("x"))])) == Err(TypeError(NotListMessage))
    ensures CheckResponse(Array([])) == Err(TypeError(NotDictMessage))
  {
    assert HasKey([("homeworks", Array([]))], "homeworks") by {
      assert [("homeworks", Array([]))][0].0 == "homeworks";
    }
    assert HasKey([("homeworks", String("x"))], "homeworks") by {
      assert [("homeworks", String("x"))][0].0 == "homeworks";
    }
  }

  /** The `TypeError` of `'homework_name' in v` for a value that is not a container. */
  function NotIterable(v: Value): Error
  {
    TypeError("argument of type '" + TypeName(v) + "' is not iterable")
  }

  /** A record that `parse_status` accepts: a dict with a `homework_name` and
      a `status` that is one of the documented statuses. */
  predicate IsDocumentedRecord(homework: Value)
  {
    homework.Object? && HasKey(homework.members, "homework_name") &&
    HasKey(homework.members, "status") &&
    Lookup(homework.members, "status").String? &&
    Lookup(homework.members, "status").s in HomeworkVerdicts
  }

  /** `parse_status`, check by check: the name test of line 111 (which is a
      list or substring test on a list or string, and raises on a scalar), the
      subscript of line 113 (which raises `KeyError('status')` itself), the
      verdict lookup, the status test of line 117, and the formatted text. */
  function ParseStatus(homework: Value): Result<string, Error>
  {
    match homework
    case Null => Err(NotIterable(homework))
    case Bool(_) => Err(NotIterable(homework))
    case Int(_) => Err(NotIterable(homework))
    case String(s) =>
      if !Contains(s, "homework_name") then Err(KeyError(NoNameMessage))
      else Err(TypeError("string indices must be integers, not 'str'"))
    case Array(items) =>
      if String("homework_name") !in items then Err(KeyError(NoNameMessage))
      else Err(TypeError("list indices must be integers or slices, not str"))
    case Object(members) =>
      if !HasKey(members, "homework_name") then Err(KeyError(NoNameMessage))
      else if !HasKey(members, "status") then Err(KeyError("status"))
      else
        var status := Lookup(members, "status");
        if !Hashable(status) then Err(TypeError("unhashable type: '" + TypeName(status) + "'"))
        else if !(status.String? && status.s in HomeworkVerdicts) then Err(KeyError(UnknownStatusMessage))
        else if !HasKey(members, "status") then Err(KeyError(NoStatusMessage))
        else Ok(ChangedPrefix + Render(Lookup(members, "homework_name")) + "\". " + HomeworkVerdicts[status.s])
  }

  /** A documented record with a string name gives exactly the template text. */
  lemma ParseStatusOfDocumentedRecord(homework: Value, name: string)
    requires IsDocumentedRecord(homework)
    requires Lookup(homework.members, "homework_name") == String(name)
    ensures ParseStatus(homework) ==
            Ok(ChangedPrefix + name + "\". " + HomeworkVerdicts[Lookup(homework.members, "status").s])
  {
  }

  /** `parse_status` returns normally exactly on documented records. */
  lemma ParseStatusOkIffDocumented(homework: Value)
    ensures ParseStatus(homework).Ok? <==> IsDocumentedRecord(homework)
  {
  }

  /** On a dict, `parse_status` raises `KeyError` exactly when the name is
      absent, the status is absent, or the status is a hashable value outside
      the verdict table; an absent status raises the subscript's own
      `KeyError('status')`, never the message of line 119. */
  lemma ParseStatusKeyErrors(members: seq<(string, Value)>)
    ensures var r := ParseStatus(Object(members));
            r.Err? && r.error.KeyError? <==>
              !HasKey(members, "homework_name") || !HasKey(members, "status") ||
              (Hashable(Lookup(members, "status")) && !IsDocumentedRecord(Object(members)))
    ensures HasKey(members, "homework_name") && !HasKey(members, "status") ==>
              ParseStatus(Object(members)) == Err(KeyError("status"))
  {
  }

  /** The status test of line 117 can never raise: its message is unreachable. */
  lemma NoStatusMessageUnreachable(homework: Value)
    ensures ParseStatus(homework) != Err(KeyError(NoStatusMessage))
  {
  }

  /** For the same homework name, two documented records give the same text
      exactly when they have the same status: every status change changes
      the text. */
  lemma ReportsDistinguishStatuses(r1: Value, r2: Value, name: string)
    requires IsDocumentedRecord(r1) && IsDocumentedRecord(r2)
    requires Lookup(r1.members, "homework_name") == String(name)
    requires Lookup(r2.members, "homework_name") == String(name)
    ensures ParseStatus(r1) == ParseStatus(r2) <==>
            Lookup(r1.members, "status") == Lookup(r2.members, "status")
  {
    var s1 := Lookup(r1.members, "status").s;
    var s2 := Lookup(r2.members, "status").s;
    var head := ChangedPrefix + name + "\". ";
    if ParseStatus(r1) == ParseStatus(r2) {
      assert head + HomeworkVerdicts[s1] == head + HomeworkVerdicts[s2];
      assert HomeworkVerdicts[s1] == (head + HomeworkVerdicts[s1])[|head|..];
      assert HomeworkVerdicts[s2] == (head + HomeworkVerdicts[s2])[|head|..];
    }
  }
}
