/** `check_tokens`: whether the three settings read from the environment are
    all present, and which ones are missing. */
module Tokens {
  import opened Wrappers
  import Json

  /** The three values `os.getenv` returned; `None` when a variable is unset. */
  datatype Env = Env(
    practicumToken: Option<string>,
    telegramToken: Option<string>,
    telegramChatId: Option<string>)

  const TokenNames: seq<string> := ["PRACTICUM_TOKEN", "TELEGRAM_TOKEN", "TELEGRAM_CHAT_ID"]

  /** `not token_value`: unset or empty. */
  predicate Blank(v: Option<string>)
    ensures Blank(v) <==> v.None? || !Json.Truthy(Json.Str(v.value))
  {
    v.None? || v.value == ""
  }

  /** The `tokens` dict, as (name, value) pairs in insertion order. */
  function TokenTable(env: Env): seq<(string, Option<string>)> {
    [(TokenNames[0], env.practicumToken),
     (TokenNames[1], env.telegramToken),
     (TokenNames[2], env.telegramChatId)]
  }

  /** The list comprehension: the names of the entries whose value is blank,
      in table order. */
  function BlankNames(entries: seq<(string, Option<string>)>): seq<string> {
    if |entries| == 0 then []
    else (if Blank(entries[0].1) then [entries[0].0] else []) + BlankNames(entries[1..])
  }

  /** Where a setting's name stands in the fixed order of the table. */
  function Position(name: string): (k: nat)
    requires name in TokenNames
    ensures k < |TokenNames| && TokenNames[k] == name
  {
    if name == TokenNames[0] then 0
    else if name == TokenNames[1] then 1
    else 2
  }

  /** `missing_tokens`: exactly the names whose value is blank, each once and in
      the order PRACTICUM_TOKEN, TELEGRAM_TOKEN, TELEGRAM_CHAT_ID. */
  function MissingTokens(env: Env): (missing: seq<string>)
    ensures TokenNames[0] in missing <==> Blank(env.practicumToken)
    ensures TokenNames[1] in missing <==> Blank(env.telegramToken)
    ensures TokenNames[2] in missing <==> Blank(env.telegramChatId)
    ensures forall n :: n in missing ==> n in TokenNames
    ensures forall i, j :: 0 <= i < j < |missing| ==> Position(missing[i]) < Position(missing[j])
  {
    TableBlankNames(env);
    BlankNames(TokenTable(env))
  }

  /** The comprehension over the three-entry table, unrolled. */
  lemma TableBlankNames(env: Env)
    ensures BlankNames(TokenTable(env))
         == (if Blank(env.practicumToken) then [TokenNames[0]] else [])
          + (if Blank(env.telegramToken) then [TokenNames[1]] else [])
          + (if Blank(env.telegramChatId) then [TokenNames[2]] else [])
  {
    var t := TokenTable(env);
    assert BlankNames(t[2..]) == (if Blank(env.telegramChatId) then [TokenNames[2]] else []) by {
      assert t[2..][1..] == [];
    }
    assert BlankNames(t[1..]) == (if Blank(env.telegramToken) then [TokenNames[1]] else []) + BlankNames(t[2..]) by {
      assert t[1..][1..] == t[2..];
    }
  }

  /** `check_tokens()`: true iff every one of the three values is non-empty,
      which is exactly when nothing is reported missing. */
  function CheckTokens(env: Env): (ok: bool)
    ensures ok <==> !Blank(env.practicumToken) && !Blank(env.telegramToken) && !Blank(env.telegramChatId)
    ensures ok <==> MissingTokens(env) == []
  {
    TableBlankNames(env);
    MissingTokens(env) == []
  }
}
