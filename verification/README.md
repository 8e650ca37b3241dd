# homework_bot, modelled in Dafny

homework_bot polls the homework-review API of Yandex Practicum. When the
newest homework changes status, it sends a notification to a Telegram
chat. This project models the decision logic of `homework.py`:

- the start-up credential check (`check_tokens`);
- the shape check on the API response (`check_response`);
- the status interpreter with its closed verdict table (`parse_status`,
  `HOMEWORK_VERDICTS`);
- one iteration of the `while True` loop in `main`, as a pure step from
  one loop state to the next.

The step takes the state (the `timestamp` cursor and `last_error`), the
outcome of the API request and the clock reading. It returns the next
state and the texts handed to `send_message` in that iteration.

Modules, one per component:

- `Wrappers`: `Option` and `Result`, in place of `None` and raised
  exceptions.
- `Json`: decoded JSON values, Python truthiness, and `str()` of the
  values the bot interpolates (decimal integers with a digit round trip).
- `Errors`: the five exception kinds the loop can catch. These are
  `TypeError`, `KeyError` and the three classes of `custom_exceptions.py`.
  The module also holds `str(error)` and the alert text.
- `Tokens`: `check_tokens` and the ordered list of missing settings.
- `Api`: the error texts of `get_api_answer`, and `check_response`.
- `Status`: the verdict table and `parse_status`. It also reads a
  notification back into the name and status it announces.
- `PollLoop`: `Start`, `Step` and `Run` (a finite stretch of iterations),
  with the lemmas about cursors and alert deduplication.

Behaviour of the code that is easy to misread, kept as written:

- Deduplication compares `str(error)` with `str(last_error)`, not the
  formatted alert. `last_error` starts as `None`, which prints as "None".
  `Errors.AlertDeterminesText` shows that comparing texts is the same as
  comparing alerts. `PollLoop.FirstErrorAlerts` shows that the initial
  "None" never suppresses a real error.
- `current_date` is copied into the cursor without validation, so the
  cursor is a JSON value, not an integer.
- A `status` that is a list or a dict cannot be hashed. The membership
  test `status not in HOMEWORK_VERDICTS` then raises a `TypeError`
  ("unhashable type: …") rather than `HomeworkStatusUnknown`.
- A successful iteration does not clear `last_error`. The same error
  before and after a success is alerted once.

## Model

| member | source | states |
|---|---|---|
| Tokens.MissingTokens | homework.py:46-55 | a setting is listed as missing exactly when its value is unset or empty; only the three setting names appear, each once, in the order PRACTICUM_TOKEN, TELEGRAM_TOKEN, TELEGRAM_CHAT_ID |
| Tokens.CheckTokens | homework.py:40-63 | the check passes iff all three values are non-empty, which is exactly when the missing list is empty |
| Api.GetApiAnswer | homework.py:96-110 | only a 200 answer yields a response, and its body comes back unvalidated; any other status code or request exception becomes an APIRequestError whose text names the endpoint and code, or the cause |
| Api.CheckResponse | homework.py:122-133 | success iff the response is a dict whose `homeworks` entry is a list, and then that list is returned unchanged; a non-dict is a TypeError, a dict without the key is an APIResponseError, and a present non-list value (null included) is a TypeError, in that order |
| Api.CheckResponseReadsOnlyHomeworks | homework.py:125-133 | two dict responses that agree on the `homeworks` entry are judged identically, whatever else they contain |
| Api.CheckResponseAcceptsAnyList | homework.py:128-133 | any dict whose `homeworks` is a list, empty or not, passes and yields exactly that list |
| Api.NullHomeworksIsTypeError | homework.py:125-130 | a `homeworks` key holding null is reported as a type error, not as a missing key |
| Status.ParseStatus | homework.py:145-165 | the first failing check decides the error (non-dict, then empty or absent name, then empty or absent status, then unhashable status, then unknown status); success iff the record is a dict with a truthy name and a known status, and then the message is the template filled with the name and that status's verdict |
| Status.KnownStatusMessages | homework.py:33-37 | each of approved, reviewing and rejected is announced with its own fixed verdict text |
| Status.ReadStatusMessageRoundTrip | homework.py:162-165 | every notification reads back to the name text and status code it was built from |
| Status.ReadStatusMessageSound | homework.py:165 | whatever the reader accepts is exactly the notification rebuilt from what it read |
| Status.MessageDeterminesStatus | homework.py:33-37 | two records produce the same notification only if their names print alike and their statuses are equal |
| Errors.Alert | homework.py:200 | an alert is the fixed failure prefix followed by exactly `str(error)` |
| Errors.AlertDeterminesText | homework.py:200-205 | two alerts are equal exactly when the errors' texts are equal |
| Json.Truthy | homework.py:151-154 | `not x` holds exactly for `None`, `False`, zero and the empty string, list and dict |
| Json.Get | homework.py:148-149 | `dict.get` gives the stored value when the key is present and `None` otherwise |
| Json.Show | homework.py:159-165 | `str()` inside an f-string prints a string as itself, an integer as decimal digits with no leading zero that read back to it (minus sign first when negative), and `None`, `True`, `False` by name |
| Errors.Text | homework.py:200-203 | `str(error)` is a `KeyError`'s message between single quotes, and every other error's message as is |
| Json.NatToDecimal | homework.py:104 | `str()` of a non-negative integer is a non-empty string of digits with no leading zero |
| Json.DecimalRoundTrip | homework.py:104 | reading the digits `str()` prints gives back the number |
| Json.IntToDecimal | homework.py:159 | `str()` of an integer starts with a minus sign exactly when the integer is negative, its digits have no leading zero, and they read back to the integer's absolute value |
| PollLoop.Start | homework.py:176-183 | the loop starts iff all three settings are non-empty, with the cursor at the clock reading and no remembered error |
| PollLoop.LastErrorText | homework.py:183-203 | `str(last_error)` is "None" before any alert, and afterwards the text of the remembered error |
| PollLoop.NextCursor | homework.py:197 | the next cursor is the response's `current_date` copied as is when present, else the clock reading |
| PollLoop.Attempt | homework.py:186-197 | the iteration raises nothing iff the answer is a 200 dict with a `homeworks` list whose first record, if any, is acceptable; then the cursor is `current_date` or the clock and the only message is the first record's; otherwise the error is the first one raised, from the request, then the shape check, then the first record; an error's text is never "None", the text of the initial `last_error` |
| PollLoop.Step | homework.py:185-205 | at most one message per iteration; the cursor moves only on success; success keeps `last_error`; on an error an alert is sent and the error remembered exactly when its text differs from the remembered text, else nothing changes; afterwards the remembered text equals the error's text |
| PollLoop.Run | homework.py:185-209 | a stretch of iterations sends at most one message per iteration |
| PollLoop.FirstErrorAlerts | homework.py:183-205 | the first error after start-up is always alerted |
| PollLoop.SameErrorTwiceAlertsOnce | homework.py:199-205 | two consecutive errors with the same text give one alert if the text is new and none otherwise, and the cursor stays |
| PollLoop.DifferentErrorsAlertTwice | homework.py:199-205 | two consecutive errors with different texts, the first new, give two alerts in order |
| PollLoop.RepeatsAreSilent | homework.py:203-205 | errors repeating the remembered text send nothing and change nothing |
| PollLoop.RepeatedErrorAlertsOnce | homework.py:199-205 | any number of consecutive errors with one text give at most one alert, and the cursor stays |
| PollLoop.FailuresKeepCursor | homework.py:186-197 | a stretch of failing iterations leaves the cursor where it was |
| PollLoop.ChangingErrorsAlertEveryTime | homework.py:199-205 | when every error's text differs from the one before, starting with a new text, every iteration sends its own alert |
| PollLoop.DedupSurvivesSuccess | homework.py:183-205 | a success between two errors with the same text does not cause a second alert |
| PollLoop.OnlyFirstHomeworkMatters | homework.py:190-197 | answers that agree on the first record and on `current_date` give the same iteration, whatever the rest of the list holds |
| PollLoop.EmptyListSendsNothing | homework.py:190-197 | an empty `homeworks` list sends nothing, keeps `last_error` and moves the cursor to `current_date` or the clock |
| PollLoop.ApprovedScenario | homework.py:186-197 | one approved `hw1` with `current_date` 1700000100 sends the exact approved notification and sets the cursor to 1700000100 |

## Left out

- The HTTP GET in `get_api_answer`, and JSON decoding, are foreign calls. They are a `FetchOutcome` parameter: a status code with the decoded body, or a request exception with its text.
- A body that is not JSON counts as a request exception, as `requests` 2.27 and later report it. Older versions raise a plain `ValueError`, which would reach the loop with its own text.
- Exceptions other than those listed in `Errors` are not modelled. One example is an exception from `requests` that is not a `RequestException`.
- The Telegram call in `send_message` and the `TeleBot` construction are foreign calls. A sent text becomes an entry of the outbox. A delivery failure is swallowed, so it cannot affect the state; no parameter is needed for it.
- `load_dotenv` and `os.getenv` read the environment. They are the `Tokens.Env` parameter.
- Logging configuration and every logger call are an output side channel only.
- `time.time()` is the `now` parameter of each iteration and of start-up.
- `time.sleep(RETRY_PERIOD)` (600 seconds) and `sys.exit()` are runtime effects. Exit is `Start` returning `None`.
- The endless `while True` is covered by reasoning about finite stretches of iterations (`PollLoop.Run`).
- Json.Show: a `homework_name` that is a JSON array or object is rendered by a fixed placeholder, not by Python's `repr` of it.
- Errors.Text: a `KeyError` prints its message in single quotes. That equals Python's `repr` only for messages with no single quote, no backslash and no unprintable character. Both `KeyError` messages raised here meet that condition; their double quotes are kept as they are.
- JSON floats carry the text `str()` prints for them and whether they are non-zero. Floating-point values are not modelled.
