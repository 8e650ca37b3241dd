/** The exceptions the poll loop can catch: the two built-in ones the
    validators raise and the three declared in `custom_exceptions.py`, each
    carrying the text it was raised with. */
module Errors {

  datatype Error =
    | TypeError(message: string)
    | KeyError(message: string)
    | APIRequestError(message: string)
    | APIResponseError(message: string)
    | HomeworkStatusUnknown(message: string)

  /** `str(error)`. A `KeyError` prints the `repr` of its argument, which for
      the messages raised here (no single quote, no backslash, no unprintable
      character) is the message in single quotes; every other exception
      prints its message as is. */
  function Text(e: Error): (r: string)
    ensures e.KeyError? ==>
      |r| == |e.message| + 2 && r[0] == '\'' && r[|r| - 1] == '\'' && r[1..|r| - 1] == e.message
    ensures !e.KeyError? ==> r == e.message
  {
    match e
    case KeyError(m) => "'" + m + "'"
    case _ => e.message
  }

  const AlertPrefix: string := "Сбой в работе программы: "

  /** The alert the loop sends for a caught error: `Сбой в работе программы: {error}`. */
  function Alert(e: Error): (a: string)
    ensures |a| == |AlertPrefix| + |Text(e)|
    ensures a[..|AlertPrefix|] == AlertPrefix
    ensures a[|AlertPrefix|..] == Text(e)
  {
    AlertPrefix + Text(e)
  }

  /** Two alerts are equal exactly when the errors' texts are: deduplicating
      on `str(error)` is the same as deduplicating on the alert sent. */
  lemma AlertDeterminesText(e1: Error, e2: Error)
    ensures Alert(e1) == Alert(e2) <==> Text(e1) == Text(e2)
  {
  }
}
