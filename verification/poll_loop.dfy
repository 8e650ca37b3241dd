/** The bot's `main`: the start-up check, then one iteration of the
    `while True` loop written as a pure step from one loop state to the
    next, with the messages handed to `send_message` in that iteration. */
module PollLoop {
  import opened Wrappers
  import opened Json
  import opened Errors
  import Tokens
  import Api
  import Status

  /** What the loop remembers between iterations: `timestamp`, the value sent
      as `from_date` (copied from the response without validation, hence a
      JSON value), and `last_error`, the last error an alert was sent for. */
  datatype State = State(cursor: Value, lastError: Option<Error>)

  /** What one iteration is given: the outcome of the API request and the
      clock reading `int(time.time())`. */
  datatype Tick = Tick(fetched: Api.FetchOutcome, now: int)

  /** What one iteration leaves: the next state, and the texts passed to
      `send_message`, in order. `send_message` swallows every delivery
      failure, so whether a text arrives has no effect on the state. */
  datatype Cycle = Cycle(next: State, outbox: seq<string>)

  /** Start-up: the loop runs only if `check_tokens()` holds, starting from the
      clock reading and no remembered error; otherwise the process exits. */
  function Start(env: Tokens.Env, now: int): (s: Option<State>)
    ensures s.Some? <==>
      !Tokens.Blank(env.practicumToken) && !Tokens.Blank(env.telegramToken) && !Tokens.Blank(env.telegramChatId)
    ensures s.Some? ==> s.value.cursor == Int(now) && s.value.lastError.None?
  {
    if Tokens.CheckTokens(env) then Some(State(Int(now), None)) else None
  }

  /** `str(last_error)`; before any alert `last_error` is `None`, printed "None". */
  function LastErrorText(last: Option<Error>): (r: string)
    ensures last.None? ==> r == "None"
    ensures last.Some? ==> r == Text(last.value)
  {
    match last
    case None => "None"
    case Some(e) => Text(e)
  }

  /** The decoded body of a 200 answer, when the request got one. */
  predicate Answered(t: Tick) {
    t.fetched.Answer? && t.fetched.statusCode == Api.HttpOk
  }

  /** An answered response whose `homeworks` entry is a list. */
  predicate WellShaped(t: Tick) {
    && Answered(t)
    && t.fetched.body.Dict?
    && "homeworks" in t.fetched.body.fields
    && t.fetched.body.fields["homeworks"].List?
  }

  function Homeworks(t: Tick): seq<Value>
    requires WellShaped(t)
  {
    t.fetched.body.fields["homeworks"].items
  }

  /** An iteration that raises nothing: a 200 answer, a dict with a
      `homeworks` list, and, if that list is non-empty, a first record that
      `parse_status` accepts. */
  predicate Healthy(t: Tick) {
    WellShaped(t) && (Homeworks(t) == [] || Status.Describable(Homeworks(t)[0]))
  }

  /** `response.get('current_date', int(time.time()))`. */
  function NextCursor(t: Tick): (cursor: Value)
    requires WellShaped(t)
    ensures "current_date" in t.fetched.body.fields ==> cursor == t.fetched.body.fields["current_date"]
    ensures "current_date" !in t.fetched.body.fields ==> cursor == Int(t.now)
  {
    var fields := t.fetched.body.fields;
    if "current_date" in fields then fields["current_date"] else Int(t.now)
  }

  /** The notification a healthy iteration sends: none for an empty list,
      otherwise the one for the first record only. */
  function StatusNote(t: Tick): seq<string>
    requires Healthy(t)
  {
    if Homeworks(t) == [] then []
    else
      var h := Homeworks(t)[0];
      [Status.StatusMessage(Show(Status.Field(h, "homework_name")), Status.Verdicts[Status.Field(h, "status").s])]
  }

  /** The body of the `try` block: the first exception raised, or the new
      cursor together with the status message sent. */
  function Attempt(t: Tick): (r: Result<(Value, seq<string>), Error>)
    ensures r.Success? <==> Healthy(t)
    ensures r.Success? ==> r.value.0 == NextCursor(t) && r.value.1 == StatusNote(t)
    ensures !Answered(t) ==> r == Failure(Api.GetApiAnswer(t.fetched).error)
    ensures Answered(t) && !WellShaped(t) ==> r == Failure(Api.CheckResponse(t.fetched.body).error)
    ensures WellShaped(t) && Homeworks(t) != [] && !Status.Describable(Homeworks(t)[0]) ==>
      r == Failure(Status.ParseStatus(Homeworks(t)[0]).error)
    ensures r.Failure? ==> |Text(r.error)| > |"None"| && Text(r.error) != LastErrorText(None)
  {
    var response :- Api.GetApiAnswer(t.fetched);
    var homeworks :- Api.CheckResponse(response);
    if |homeworks| == 0 then Success((NextCursor(t), []))
    else
      var message :- Status.ParseStatus(homeworks[0]);
      Success((NextCursor(t), [message]))
  }

  /** The error an unhealthy iteration raises. */
  function CycleError(t: Tick): Error
    requires !Healthy(t)
  {
    Attempt(t).error
  }

  /** One iteration of the loop. On success the cursor moves and the status
      message, if any, is sent. On an error the cursor stays; an alert is sent,
      and the error remembered, exactly when its text differs from the text of
      the remembered one. At most one message goes out either way. */
  function Step(s: State, t: Tick): (c: Cycle)
    ensures |c.outbox| <= 1
    ensures c.next.cursor == (if Healthy(t) then NextCursor(t) else s.cursor)
    ensures Healthy(t) ==> c.next.lastError == s.lastError && c.outbox == StatusNote(t)
    ensures !Healthy(t) ==> (c.outbox != [] <==> Text(CycleError(t)) != LastErrorText(s.lastError))
    ensures !Healthy(t) && c.outbox != [] ==>
      c.outbox == [Alert(CycleError(t))] && c.next.lastError == Some(CycleError(t))
    ensures !Healthy(t) && c.outbox == [] ==> c.next == s
    ensures !Healthy(t) ==> LastErrorText(c.next.lastError) == Text(CycleError(t))
  {
    match Attempt(t)
    case Success((cursor, sent)) => Cycle(State(cursor, s.lastError), sent)
    case Failure(e) =>
      if Text(e) != LastErrorText(s.lastError) then Cycle(State(s.cursor, Some(e)), [Alert(e)])
      else Cycle(s, [])
  }

  /** A finite stretch of the endless loop: the iterations in order, their
      messages concatenated. */
  function Run(s: State, ticks: seq<Tick>): (c: Cycle)
    ensures |c.outbox| <= |ticks|
    decreases |ticks|
  {
    if |ticks| == 0 then Cycle(s, [])
    else
      var first := Step(s, ticks[0]);
      var rest := Run(first.next, ticks[1..]);
      Cycle(rest.next, first.outbox + rest.outbox)
  }

  /** Every iteration of a stretch fails. */
  predicate AllFail(ticks: seq<Tick>) {
    forall k :: 0 <= k < |ticks| ==> !Healthy(ticks[k])
  }

  /** The first error after start-up is always reported: no error the loop can
      catch prints as "None", the text of the initial `last_error`. */
  lemma FirstErrorAlerts(env: Tokens.Env, now: int, t: Tick)
    requires Start(env, now).Some?
    requires !Healthy(t)
    ensures Step(Start(env, now).value, t).outbox == [Alert(CycleError(t))]
  {
  }

  /** Two consecutive iterations failing with the same text send one alert at
      most: the first, and only if the text is new. */
  lemma SameErrorTwiceAlertsOnce(s: State, t1: Tick, t2: Tick)
    requires !Healthy(t1) && !Healthy(t2)
    requires Text(CycleError(t1)) == Text(CycleError(t2))
    ensures Run(s, [t1, t2]).outbox ==
      (if Text(CycleError(t1)) != LastErrorText(s.lastError) then [Alert(CycleError(t1))] else [])
    ensures Run(s, [t1, t2]).next.cursor == s.cursor
  {
    var first := Step(s, t1);
    assert [t1, t2][1..] == [t2];
    assert Run(first.next, [t2]).outbox == Step(first.next, t2).outbox;
  }

  /** Two consecutive iterations failing with different texts, the first of
      them new, send two alerts. */
  lemma DifferentErrorsAlertTwice(s: State, t1: Tick, t2: Tick)
    requires !Healthy(t1) && !Healthy(t2)
    requires Text(CycleError(t1)) != LastErrorText(s.lastError)
    requires Text(CycleError(t1)) != Text(CycleError(t2))
    ensures Run(s, [t1, t2]).outbox == [Alert(CycleError(t1)), Alert(CycleError(t2))]
  {
  }

  /** While the remembered text is repeated, nothing is sent and nothing changes. */
  lemma {:induction false} RepeatsAreSilent(s: State, ticks: seq<Tick>)
    requires AllFail(ticks)
    requires forall k :: 0 <= k < |ticks| ==> Text(CycleError(ticks[k])) == LastErrorText(s.lastError)
    ensures Run(s, ticks) == Cycle(s, [])
    decreases |ticks|
  {
    if |ticks| > 0 {
      assert Step(s, ticks[0]) == Cycle(s, []);
      RepeatsAreSilent(s, ticks[1..]);
    }
  }

  /** Any number of consecutive iterations failing with one text send at most
      one alert, the first, and only if the text is new; the cursor stays. */
  lemma {:induction false} RepeatedErrorAlertsOnce(s: State, ticks: seq<Tick>, text: string)
    requires |ticks| > 0 && AllFail(ticks)
    requires forall k :: 0 <= k < |ticks| ==> Text(CycleError(ticks[k])) == text
    ensures Run(s, ticks).outbox == (if text != LastErrorText(s.lastError) then [AlertPrefix + text] else [])
    ensures Run(s, ticks).next.cursor == s.cursor
  {
    var first := Step(s, ticks[0]);
    assert LastErrorText(first.next.lastError) == text;
    assert forall k :: 0 <= k < |ticks[1..]| ==> ticks[1..][k] == ticks[k + 1];
    RepeatsAreSilent(first.next, ticks[1..]);
  }

  /** The cursor never moves across a stretch of failing iterations. */
  lemma {:induction false} FailuresKeepCursor(s: State, ticks: seq<Tick>)
    requires AllFail(ticks)
    ensures Run(s, ticks).next.cursor == s.cursor
    decreases |ticks|
  {
    if |ticks| > 0 {
      FailuresKeepCursor(Step(s, ticks[0]).next, ticks[1..]);
    }
  }

  /** Errors whose text changes from each iteration to the next, starting with
      a new one, are each alerted: dedup only ever suppresses an exact repeat
      of the previous text. */
  lemma {:induction false} ChangingErrorsAlertEveryTime(s: State, ticks: seq<Tick>)
    requires AllFail(ticks)
    requires |ticks| > 0 ==> Text(CycleError(ticks[0])) != LastErrorText(s.lastError)
    requires forall k :: 0 < k < |ticks| ==> Text(CycleError(ticks[k])) != Text(CycleError(ticks[k - 1]))
    ensures |Run(s, ticks).outbox| == |ticks|
    ensures forall k :: 0 <= k < |ticks| ==> Run(s, ticks).outbox[k] == Alert(CycleError(ticks[k]))
    decreases |ticks|
  {
    if |ticks| > 0 {
      var first := Step(s, ticks[0]);
      var rest := ticks[1..];
      assert forall k :: 0 <= k < |rest| ==> rest[k] == ticks[k + 1];
      ChangingErrorsAlertEveryTime(first.next, rest);
    }
  }

  /** A successful iteration does not clear the remembered error: the same
      error before and after it is alerted once. */
  lemma DedupSurvivesSuccess(s: State, t1: Tick, t2: Tick, t3: Tick)
    requires !Healthy(t1) && Healthy(t2) && !Healthy(t3)
    requires Text(CycleError(t1)) == Text(CycleError(t3))
    ensures Step(Step(Step(s, t1).next, t2).next, t3).outbox == []
  {
  }

  /** Only the first record of the list is looked at: two answers that agree
      on it and on `current_date` lead to the same iteration, whatever else
      their lists hold. */
  lemma OnlyFirstHomeworkMatters(s: State, t1: Tick, t2: Tick)
    requires WellShaped(t1) && WellShaped(t2) && t1.now == t2.now
    requires Homeworks(t1) != [] && Homeworks(t2) != [] && Homeworks(t1)[0] == Homeworks(t2)[0]
    requires "current_date" in t1.fetched.body.fields <==> "current_date" in t2.fetched.body.fields
    requires "current_date" in t1.fetched.body.fields ==>
      t1.fetched.body.fields["current_date"] == t2.fetched.body.fields["current_date"]
    ensures Step(s, t1) == Step(s, t2)
  {
  }

  /** An answer with an empty `homeworks` list sends nothing and moves the cursor. */
  lemma EmptyListSendsNothing(s: State, now: int, fields: map<string, Value>)
    requires "homeworks" in fields && fields["homeworks"] == List([])
    ensures Step(s, Tick(Api.Answer(Api.HttpOk, Dict(fields)), now)).outbox == []
    ensures Step(s, Tick(Api.Answer(Api.HttpOk, Dict(fields)), now)).next
         == State(if "current_date" in fields then fields["current_date"] else Int(now), s.lastError)
  {
  }

  /** The worked example: one approved homework and a `current_date`. The
      expected text is spelled in the template's four pieces. */
  lemma ApprovedScenario(s: State, now: int)
    ensures
      var record := Dict(map["homework_name" := Str("hw1"), "status" := Str("approved")]);
      var body := Dict(map["homeworks" := List([record]), "current_date" := Int(1700000100)]);
      Step(s, Tick(Api.Answer(200, body), now))
        == Cycle(State(Int(1700000100), s.lastError),
                 ["Изменился статус проверки работы \"" + "hw1" + "\". "
                  + "Работа проверена: ревьюеру всё понравилось. Ура!"])
  {
  }
}
