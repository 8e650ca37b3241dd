/** The API side of one cycle: how the outcome of the GET request becomes a
    response or an `APIRequestError` (`get_api_answer`), and the shape check
    on the decoded response (`check_response`). */
module Api {
  import opened Wrappers
  import opened Json
  import opened Errors

  const Endpoint: string := "https://practicum.yandex.ru/api/user_api/homework_statuses/"
  const HttpOk: int := 200

  /** What the HTTP GET produced: a status code with the decoded body, or a
      `requests` exception (transport failure, or a body that is not JSON)
      carrying the text `str()` prints for it. */
  datatype FetchOutcome =
    | Answer(statusCode: int, body: Value)
    | RequestFailed(cause: string)

  const UnavailablePrefix: string := "Эндпоинт " + Endpoint + " недоступен. Код ответа API: "
  const RequestFailedPrefix: string := "Ошибка при запросе к API: "

  /** `get_api_answer`: the decoded body of a 200 answer is returned unvalidated;
      any other status code, and any request exception, becomes an
      `APIRequestError` whose text names the code or the cause. */
  function GetApiAnswer(outcome: FetchOutcome): (r: Result<Value, Error>)
    ensures r.Success? <==> outcome.Answer? && outcome.statusCode == HttpOk
    ensures r.Success? ==> r.value == outcome.body
    ensures r.Failure? ==> r.error.APIRequestError?
    ensures r.Failure? && outcome.Answer? ==>
      r.error.message == UnavailablePrefix + IntToDecimal(outcome.statusCode)
    ensures outcome.RequestFailed? ==>
      r.error.message == RequestFailedPrefix + outcome.cause
  {
    match outcome
    case RequestFailed(cause) => Failure(APIRequestError(RequestFailedPrefix + cause))
    case Answer(code, body) =>
      if code != HttpOk then Failure(APIRequestError(UnavailablePrefix + IntToDecimal(code)))
      else Success(body)
  }

  const ResponseNotDict: string := "Ответ API должен быть словарем"
  const HomeworksMissing: string := "В ответе API отсутствует ключ \"homeworks\""
  const HomeworksNotList: string := "Значение ключа \"homeworks\" должно быть списком"

  /** `check_response`: the `homeworks` list of a dict response, returned unchanged. */
  function CheckResponse(response: Value): (r: Result<seq<Value>, Error>)
    ensures r.Success? <==>
      response.Dict? && "homeworks" in response.fields && response.fields["homeworks"].List?
    ensures r.Success? ==> r.value == response.fields["homeworks"].items
    ensures r.Failure? ==> r.error.TypeError? || r.error.APIResponseError?
    ensures r == Failure(TypeError(ResponseNotDict)) <==> !response.Dict?
    ensures r == Failure(APIResponseError(HomeworksMissing)) <==>
      response.Dict? && "homeworks" !in response.fields
    ensures r == Failure(TypeError(HomeworksNotList)) <==>
      response.Dict? && "homeworks" in response.fields && !response.fields["homeworks"].List?
  {
    if !response.Dict? then Failure(TypeError(ResponseNotDict))
    else if "homeworks" !in response.fields then Failure(APIResponseError(HomeworksMissing))
    else
      var homeworks := response.fields["homeworks"];
      if !homeworks.List? then Failure(TypeError(HomeworksNotList))
      else Success(homeworks.items)
  }

  /** Nothing in the response but the `homeworks` entry is inspected: two dicts
      that agree on that entry are judged alike, whatever else they hold. */
  lemma CheckResponseReadsOnlyHomeworks(f1: map<string, Value>, f2: map<string, Value>)
    requires "homeworks" in f1 <==> "homeworks" in f2
    requires "homeworks" in f1 ==> f1["homeworks"] == f2["homeworks"]
    ensures CheckResponse(Dict(f1)) == CheckResponse(Dict(f2))
  {
  }

  /** Any dict whose `homeworks` entry is a list passes, and hands back exactly
      that list, empty or not. */
  lemma CheckResponseAcceptsAnyList(fields: map<string, Value>, homeworks: seq<Value>)
    ensures CheckResponse(Dict(fields["homeworks" := List(homeworks)])) == Success(homeworks)
  {
  }

  /** A present but null `homeworks` entry is a type error, not a missing key. */
  lemma NullHomeworksIsTypeError(fields: map<string, Value>)
    ensures CheckResponse(Dict(fields["homeworks" := Null])) == Failure(TypeError(HomeworksNotList))
  {
  }
}
