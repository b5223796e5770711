/** `check_tokens`: the bot refuses to start unless its three credentials are set. */
module Tokens {
  import opened Wrappers
  import opened Json
  import opened Exceptions

  /** Python's truth value of an environment variable read with `os.getenv`:
      false when the variable is unset or empty. */
  predicate Present(value: Option<string>)
  {
    value.Some? && value.value != ""
  }

  /** The `tokens` dict of `check_tokens`, in its insertion order. */
  function TokenTable(practicumToken: Option<string>, telegramToken: Option<string>,
                      telegramChatId: Option<string>): seq<(string, Option<string>)>
  {
    [("practicum_token", practicumToken),
     ("telegram_token", telegramToken),
     ("telegram_chat_id", telegramChatId)]
  }

  /** The names of the tokens whose value is unset or empty, in table order. */
  function Missing(tokens: seq<(string, Option<string>)>): (names: seq<string>)
    ensures |names| <= |tokens|
  {
    if tokens == [] then []
    else
      var n := |tokens| - 1;
      Missing(tokens[..n]) + (if Present(tokens[n].1) then [] else [tokens[n].0])
  }

  /** No name is collected exactly when every token is present. */
  lemma {:induction false} MissingEmptyIffAllPresent(tokens: seq<(string, Option<string>)>)
    ensures Missing(tokens) == [] <==> forall k | 0 <= k < |tokens| :: Present(tokens[k].1)
  {
    if tokens != [] {
      var n := |tokens| - 1;
      MissingEmptyIffAllPresent(tokens[..n]);
      assert forall k | 0 <= k < n :: tokens[..n][k] == tokens[k];
    }
  }

  /** A name is collected exactly when some token of that name is unset or empty. */
  lemma {:induction false} MissingNamesExactly(tokens: seq<(string, Option<string>)>, name: string)
    ensures name in Missing(tokens) <==>
            exists k | 0 <= k < |tokens| :: tokens[k].0 == name && !Present(tokens[k].1)
  {
    if tokens != [] {
      var n := |tokens| - 1;
      MissingNamesExactly(tokens[..n], name);
      assert forall k | 0 <= k < n :: tokens[..n][k] == tokens[k];
    }
  }

  /** The message of the `EnvError` as the source writes it. The literal lacks
      the `f` prefix, so it shows the placeholder, not the collected names. */
  function EnvErrorMessageAsWritten(tokenNames: seq<string>): string
  {
    "Нет значений: {token_names}"
  }

  /** Two different sets of missing tokens give the same message as written. */
  lemma EnvErrorMessageAsWrittenHidesNames()
    ensures EnvErrorMessageAsWritten(["practicum_token"]) == EnvErrorMessageAsWritten(["telegram_chat_id"])
    ensures EnvErrorMessage(["practicum_token"]) != EnvErrorMessage(["telegram_chat_id"])
  {
    var a := EnvErrorMessage(["practicum_token"]);
    var b := EnvErrorMessage(["telegram_chat_id"]);
    EnvErrorMessageOfOne("practicum_token");
    EnvErrorMessageOfOne("telegram_chat_id");
    assert a[16] == 'p' && b[16] == 't';
  }

  /** The message the placeholder evidently asks for: the `repr` of the
      `token_names` list, as the f-string would have formatted it. */
  function EnvErrorMessage(tokenNames: seq<string>): string
  {
    "Нет значений: " + Render(Array(seq(|tokenNames|, k requires 0 <= k < |tokenNames| => String(tokenNames[k]))))
  }

  /** The message for a single missing token. */
  lemma EnvErrorMessageOfOne(name: string)
    ensures EnvErrorMessage([name]) == "Нет значений: " + "['" + name + "']"
  {
    var items := seq(1, j requires 0 <= j < 1 => String([name][j]));
    assert items == [String(name)];
    var parts := seq(|items|, j requires 0 <= j < |items| => Repr(items[j]));
    assert parts == ["'" + name + "'"];
    assert Join(parts, ", ") == "'" + name + "'";
  }

  /** The corrected message quotes the name of every missing token. */
  lemma EnvErrorMessageNamesEachToken(tokenNames: seq<string>, k: nat)
    requires k < |tokenNames|
    ensures Contains(EnvErrorMessage(tokenNames), "'" + tokenNames[k] + "'")
  {
    var items := seq(|tokenNames|, j requires 0 <= j < |tokenNames| => String(tokenNames[j]));
    var parts := seq(|items|, j requires 0 <= j < |items| => Repr(items[j]));
    assert parts[k] == "'" + tokenNames[k] + "'";
    JoinContains(parts, ", ", k);
    ContainsAround("Нет значений: " + "[", Join(parts, ", "), "]", parts[k]);
    assert EnvErrorMessage(tokenNames) == "Нет значений: " + "[" + Join(parts, ", ") + "]";
  }

  /** `check_tokens`: collect the names of the unset or empty tokens in table
      order and raise `EnvError` when there is at least one. The message is
      the literal of the source, which does not show the names. */
  method CheckTokens(practicumToken: Option<string>, telegramToken: Option<string>,
                     telegramChatId: Option<string>) returns (outcome: Outcome<Error>)
    ensures outcome.Pass? <==> Present(practicumToken) && Present(telegramToken) && Present(telegramChatId)
    ensures outcome.Fail? ==>
              outcome.error == EnvError(EnvErrorMessageAsWritten(Missing(TokenTable(practicumToken, telegramToken, telegramChatId))))
  {
    var tokens := TokenTable(practicumToken, telegramToken, telegramChatId);
    var tokenNames := [];
    for i := 0 to |tokens|
      invariant tokenNames == Missing(tokens[..i])
    {
      assert tokens[..i + 1][..i] == tokens[..i];
      if !Present(tokens[i].1) {
        tokenNames := tokenNames + [tokens[i].0];
      }
    }
    assert tokens[..|tokens|] == tokens;
    MissingEmptyIffAllPresent(tokens);
    assert tokens[0].1 == practicumToken && tokens[1].1 == telegramToken && tokens[2].1 == telegramChatId;
    if tokenNames != [] {
      return Fail(EnvError(EnvErrorMessageAsWritten(tokenNames)));
    }
    return Pass;
  }
}
