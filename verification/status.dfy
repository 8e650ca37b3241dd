/** `parse_status` and the closed verdict table `HOMEWORK_VERDICTS`: turning
    one homework record into the notification text, or into the first error
    its checks find. */
module Status {
  import opened Wrappers
  import opened Json
  import opened Errors

  /** `HOMEWORK_VERDICTS`: the three review statuses and their fixed texts. */
  const Verdicts: map<string, string> := map[
    "approved" := "Работа проверена: ревьюеру всё понравилось. Ура!",
    "reviewing" := "Работа взята на проверку ревьюером.",
    "rejected" := "Работа проверена: у ревьюера есть замечания."
  ]

  const MessageHead: string := "Изменился статус проверки работы \""
  const MessageMid: string := "\". "

  /** The notification template `Изменился статус проверки работы "{name}". {verdict}`. */
  function StatusMessage(name: string, verdict: string): string {
    MessageHead + name + MessageMid + verdict
  }

  const HomeworkNotDict: string := "Homework должен быть словарем"
  const NameMissing: string := "В ответе API отсутствует ключ \"homework_name\""
  const StatusMissing: string := "В ответе API отсутствует ключ \"status\""
  const UnknownPrefix: string := "Неизвестный статус работы: "

  /** `homework.get(key)` on a dict record; `None` for anything else. */
  function Field(homework: Value, key: string): Value {
    if homework.Dict? then Get(homework.fields, key) else Null
  }

  /** Whether Python can hash the value, as `x in dict` requires; a list or a
      dict cannot be hashed, and testing one raises a `TypeError`. */
  predicate Hashable(v: Value) {
    !v.List? && !v.Dict?
  }

  function UnhashableMessage(v: Value): string
    requires !Hashable(v)
  {
    if v.List? then "unhashable type: 'list'" else "unhashable type: 'dict'"
  }

  /** A status code the verdict table knows. */
  predicate KnownStatus(status: Value) {
    status.Str? && status.s in Verdicts
  }

  /** The records `parse_status` accepts: a dict with a truthy name and a
      known status code. */
  predicate Describable(homework: Value) {
    homework.Dict? && Truthy(Field(homework, "homework_name")) && KnownStatus(Field(homework, "status"))
  }

  /** `parse_status`: checks, in order, that the record is a dict, that its
      name and its status are present and non-empty, and that the status is
      in the verdict table; the first check that fails decides the error.
      On success the result is the template filled with the name and the
      verdict of the status. */
  function ParseStatus(homework: Value): (r: Result<string, Error>)
    ensures r.Success? <==> Describable(homework)
    ensures r.Success? ==>
      r.value == StatusMessage(Show(Field(homework, "homework_name")), Verdicts[Field(homework, "status").s])
    ensures r == Failure(TypeError(HomeworkNotDict)) <==> !homework.Dict?
    ensures r == Failure(KeyError(NameMissing)) <==>
      homework.Dict? && !Truthy(Field(homework, "homework_name"))
    ensures r == Failure(KeyError(StatusMissing)) <==>
      homework.Dict? && Truthy(Field(homework, "homework_name")) && !Truthy(Field(homework, "status"))
    ensures r.Failure? && r.error.HomeworkStatusUnknown? <==>
      && homework.Dict?
      && Truthy(Field(homework, "homework_name"))
      && Truthy(Field(homework, "status"))
      && Hashable(Field(homework, "status"))
      && !KnownStatus(Field(homework, "status"))
    ensures r.Failure? && r.error.HomeworkStatusUnknown? ==>
      r.error.message == UnknownPrefix + Show(Field(homework, "status"))
    ensures r.Failure? && r.error.TypeError? && homework.Dict? ==>
      !Hashable(Field(homework, "status")) && r.error.message == UnhashableMessage(Field(homework, "status"))
    ensures
      && homework.Dict?
      && Truthy(Field(homework, "homework_name"))
      && Truthy(Field(homework, "status"))
      && !Hashable(Field(homework, "status"))
      ==> r == Failure(TypeError(UnhashableMessage(Field(homework, "status"))))
  {
    if !homework.Dict? then Failure(TypeError(HomeworkNotDict))
    else
      var name := Get(homework.fields, "homework_name");
      var status := Get(homework.fields, "status");
      if !Truthy(name) then Failure(KeyError(NameMissing))
      else if !Truthy(status) then Failure(KeyError(StatusMissing))
      else if !Hashable(status) then Failure(TypeError(UnhashableMessage(status)))
      else if !(status.Str? && status.s in Verdicts) then
        Failure(HomeworkStatusUnknown(UnknownPrefix + Show(status)))
      else Success(StatusMessage(Show(name), Verdicts[status.s]))
  }

  /** Each known status is announced with its own fixed verdict. */
  lemma KnownStatusMessages(name: string)
    requires name != ""
    ensures ParseStatus(Dict(map["homework_name" := Str(name), "status" := Str("approved")]))
         == Success(MessageHead + name + MessageMid + "Работа проверена: ревьюеру всё понравилось. Ура!")
    ensures ParseStatus(Dict(map["homework_name" := Str(name), "status" := Str("reviewing")]))
         == Success(MessageHead + name + MessageMid + "Работа взята на проверку ревьюером.")
    ensures ParseStatus(Dict(map["homework_name" := Str(name), "status" := Str("rejected")]))
         == Success(MessageHead + name + MessageMid + "Работа проверена: у ревьюера есть замечания.")
  {
  }

  /** Whether `m` has the template's fixed head and ends with `tail`, the two
      not overlapping. */
  predicate Framed(m: string, tail: string) {
    && |MessageHead| + |tail| <= |m|
    && m[..|MessageHead|] == MessageHead
    && m[|m| - |tail|..] == tail
  }

  /** The text between the head and `tail`. */
  function Between(m: string, tail: string): string
    requires Framed(m, tail)
  {
    m[|MessageHead|..|m| - |tail|]
  }

  /** What follows the name in the notification for a known status. */
  function Tail(code: string): string
    requires code in Verdicts
  {
    MessageMid + Verdicts[code]
  }

  /** The known statuses in table order, each with the text that follows the
      name in its notification. */
  const StatusTails: seq<(string, string)> := [
    ("approved", Tail("approved")),
    ("reviewing", Tail("reviewing")),
    ("rejected", Tail("rejected"))
  ]

  /** Reads `m` against the candidate tails in order: the first tail that
      frames it gives the status, and what lies between head and tail is the
      name text. */
  function ReadWith(m: string, tails: seq<(string, string)>): Option<(string, string)>
    decreases |tails|
  {
    if |tails| == 0 then None
    else if Framed(m, tails[0].1) then Some((Between(m, tails[0].1), tails[0].0))
    else ReadWith(m, tails[1..])
  }

  /** Reads a notification back into the name text and the status code it
      announces; `None` when `m` is not a status notification. */
  function ReadStatusMessage(m: string): Option<(string, string)> {
    ReadWith(m, StatusTails)
  }

  /** Two tails that differ in one of their last two characters: a string
      ending in one of them cannot end in the other. */
  predicate EndsDiffer(a: string, b: string) {
    |a| >= 2 && |b| >= 2 && (a[|a| - 1] != b[|b| - 1] || a[|a| - 2] != b[|b| - 2])
  }

  lemma TailsDiffer(x: string, a: string, b: string)
    requires EndsDiffer(a, b)
    ensures !Framed(x + b, a)
  {
    var m := x + b;
    assert m[|m| - 1] == b[|b| - 1];
    assert m[|m| - 2] == b[|b| - 2];
  }

  /** Reading `head + name + tails[i].1` finds status `i` and the name, provided
      every earlier tail ends differently from `tails[i].1`. */
  lemma {:induction false} ReadWithFinds(name: string, tails: seq<(string, string)>, i: nat)
    requires i < |tails|
    requires forall j :: 0 <= j < i ==> EndsDiffer(tails[j].1, tails[i].1)
    ensures ReadWith(MessageHead + name + tails[i].1, tails) == Some((name, tails[i].0))
    decreases i
  {
    var t := tails[i].1;
    var m := MessageHead + name + t;
    if i == 0 {
      assert m[..|MessageHead|] == MessageHead;
      assert m[|m| - |t|..] == t;
      assert m[|MessageHead|..|m| - |t|] == name;
    } else {
      TailsDiffer(MessageHead + name, tails[0].1, t);
      assert tails[1..][i - 1] == tails[i];
      ReadWithFinds(name, tails[1..], i - 1);
    }
  }

  /** Whatever `ReadWith` accepts is the head, the name it read and the tail
      of the status it read. */
  lemma {:induction false} ReadWithSound(m: string, tails: seq<(string, string)>)
    requires ReadWith(m, tails).Some?
    ensures exists k :: 0 <= k < |tails| && tails[k].0 == ReadWith(m, tails).value.1
                         && m == MessageHead + ReadWith(m, tails).value.0 + tails[k].1
    decreases |tails|
  {
    if Framed(m, tails[0].1) {
      var t := tails[0].1;
      assert m == m[..|MessageHead|] + m[|MessageHead|..|m| - |t|] + m[|m| - |t|..];
    } else {
      ReadWithSound(m, tails[1..]);
      var k :| 0 <= k < |tails[1..]| && tails[1..][k].0 == ReadWith(m, tails).value.1
               && m == MessageHead + ReadWith(m, tails).value.0 + tails[1..][k].1;
      assert tails[k + 1] == tails[1..][k];
    }
  }

  /** The verdict tails end differently: `!` against `.`, and `м.` against `я.`. */
  lemma StatusTailsDiffer()
    ensures EndsDiffer(StatusTails[0].1, StatusTails[1].1)
    ensures EndsDiffer(StatusTails[0].1, StatusTails[2].1)
    ensures EndsDiffer(StatusTails[1].1, StatusTails[2].1)
  {
  }

  /** The notification is the head, the name and the status's tail. */
  lemma MessageIsFramed(name: string, code: string)
    requires code in Verdicts
    ensures StatusMessage(name, Verdicts[code]) == MessageHead + name + Tail(code)
  {
  }

  /** Every notification can be read back: it names the record's name text and
      status code, so no two (name, status) pairs are announced alike. */
  lemma ReadStatusMessageRoundTrip(name: string, code: string)
    requires code in Verdicts
    ensures ReadStatusMessage(StatusMessage(name, Verdicts[code])) == Some((name, code))
  {
    MessageIsFramed(name, code);
    StatusTailsDiffer();
    var i := if code == "approved" then 0 else if code == "reviewing" then 1 else 2;
    assert StatusTails[i] == (code, Tail(code));
    ReadWithFinds(name, StatusTails, i);
  }

  /** Whatever `ReadStatusMessage` accepts is a notification, rebuilt exactly
      from the name and status it reads. */
  lemma ReadStatusMessageSound(m: string)
    requires ReadStatusMessage(m).Some?
    ensures ReadStatusMessage(m).value.1 in Verdicts
    ensures m == StatusMessage(ReadStatusMessage(m).value.0, Verdicts[ReadStatusMessage(m).value.1])
  {
    ReadWithSound(m, StatusTails);
    var r := ReadStatusMessage(m).value;
    var k :| 0 <= k < |StatusTails| && StatusTails[k].0 == r.1 && m == MessageHead + r.0 + StatusTails[k].1;
    assert StatusTails[k] == (r.1, Tail(r.1));
    MessageIsFramed(r.0, r.1);
  }

  /** Two records yield the same notification only when they have the same
      name text and the same status. */
  lemma MessageDeterminesStatus(n1: string, c1: string, n2: string, c2: string)
    requires c1 in Verdicts && c2 in Verdicts
    requires StatusMessage(n1, Verdicts[c1]) == StatusMessage(n2, Verdicts[c2])
    ensures n1 == n2 && c1 == c2
  {
    ReadStatusMessageRoundTrip(n1, c1);
    ReadStatusMessageRoundTrip(n2, c2);
  }
}
