/**
 * `validate_data`: four independent checks over the Prompts, Values, Models
 * and Parameters sheets. Every check runs; the message of each failed check
 * is collected in a fixed order and the messages are joined by newlines.
 * No failure at all is reported as `None`.
 */
module Validation {
  import opened Wrappers
  import opened Tables
  import opened Strings

  // The four messages, verbatim; each is written in pieces so that the
  // verifier can see the individual characters of the text.
  const PromptsMessage := "The Prompts sheet must " + "have a 'prompt_id' column."
  const ValuesMessage := "The Values sheet must " + "have a 'prompt_id' column."
  const ModelsMessage := "The Models sheet must " + "have 'Name' and 'Version' columns."
  const ParametersMessage := "Each parameter in the " + "Parameters sheet must " + "have a name and values."

  datatype Check = PromptsHaveId | ValuesHaveId | ModelsHaveNameAndVersion | ParametersComplete

  /** The checks in the order their messages are reported. */
  const Checks: seq<Check> := [PromptsHaveId, ValuesHaveId, ModelsHaveNameAndVersion, ParametersComplete]

  function Rank(c: Check): nat
  {
    match c
    case PromptsHaveId => 0
    case ValuesHaveId => 1
    case ModelsHaveNameAndVersion => 2
    case ParametersComplete => 3
  }

  function Message(c: Check): string
  {
    match c
    case PromptsHaveId => PromptsMessage
    case ValuesHaveId => ValuesMessage
    case ModelsHaveNameAndVersion => ModelsMessage
    case ParametersComplete => ParametersMessage
  }

  predicate Passes(c: Check, prompts: Table, values: Table, models: Table, parameters: Table)
  {
    match c
    case PromptsHaveId => PromptIdColumn in prompts.columns
    case ValuesHaveId => PromptIdColumn in values.columns
    case ModelsHaveNameAndVersion => NameColumn in models.columns && VersionColumn in models.columns
    case ParametersComplete => !Empty(parameters) && !HasNull(parameters)
  }

  /** The sheets pass every check. */
  predicate AllPass(prompts: Table, values: Table, models: Table, parameters: Table)
  {
    forall c | c in Checks :: Passes(c, prompts, values, models, parameters)
  }

  /** The checks of `cs` that fail, in the order of `cs`. */
  function Failed(cs: seq<Check>, prompts: Table, values: Table, models: Table, parameters: Table): seq<Check>
  {
    if |cs| == 0 then []
    else
      (if Passes(cs[0], prompts, values, models, parameters) then [] else [cs[0]])
      + Failed(cs[1..], prompts, values, models, parameters)
  }

  function Messages(cs: seq<Check>): seq<string>
  {
    seq(|cs|, i requires 0 <= i < |cs| => Message(cs[i]))
  }

  /** The error list `validate_data` builds. */
  function Errors(prompts: Table, values: Table, models: Table, parameters: Table): seq<string>
  {
    Messages(Failed(Checks, prompts, values, models, parameters))
  }

  /** `Failed` over the four checks, spelled out check by check. */
  lemma FailedChecksUnfold(prompts: Table, values: Table, models: Table, parameters: Table)
    ensures Failed(Checks, prompts, values, models, parameters)
      == (if Passes(PromptsHaveId, prompts, values, models, parameters) then [] else [PromptsHaveId])
       + (if Passes(ValuesHaveId, prompts, values, models, parameters) then [] else [ValuesHaveId])
       + (if Passes(ModelsHaveNameAndVersion, prompts, values, models, parameters) then [] else [ModelsHaveNameAndVersion])
       + (if Passes(ParametersComplete, prompts, values, models, parameters) then [] else [ParametersComplete])
  {
    var c0, c1, c2, c3 := Checks, Checks[1..], Checks[2..], Checks[3..];
    assert c0[0] == PromptsHaveId && c0[1..] == c1;
    assert c1[0] == ValuesHaveId && c1[1..] == c2;
    assert c2[0] == ModelsHaveNameAndVersion && c2[1..] == c3;
    assert c3[0] == ParametersComplete && c3[1..] == [];
    var a := if Passes(PromptsHaveId, prompts, values, models, parameters) then [] else [PromptsHaveId];
    var b := if Passes(ValuesHaveId, prompts, values, models, parameters) then [] else [ValuesHaveId];
    var c := if Passes(ModelsHaveNameAndVersion, prompts, values, models, parameters) then [] else [ModelsHaveNameAndVersion];
    var d := if Passes(ParametersComplete, prompts, values, models, parameters) then [] else [ParametersComplete];
    assert Failed(c3, prompts, values, models, parameters) == d + [];
    assert Failed(c2, prompts, values, models, parameters) == c + d;
    assert Failed(c1, prompts, values, models, parameters) == b + (c + d);
    assert Failed(c0, prompts, values, models, parameters) == a + (b + (c + d));
    assert a + (b + (c + d)) == a + b + c + d;
  }

  /** The error list spelled out message by message, as `validate_data` appends them. */
  lemma ErrorsUnfold(prompts: Table, values: Table, models: Table, parameters: Table)
    ensures Errors(prompts, values, models, parameters)
      == (if PromptIdColumn in prompts.columns then [] else [PromptsMessage])
       + (if PromptIdColumn in values.columns then [] else [ValuesMessage])
       + (if NameColumn in models.columns && VersionColumn in models.columns then [] else [ModelsMessage])
       + (if !Empty(parameters) && !HasNull(parameters) then [] else [ParametersMessage])
  {
    FailedChecksUnfold(prompts, values, models, parameters);
    var f := Failed(Checks, prompts, values, models, parameters);
    var e := Errors(prompts, values, models, parameters);
    var expected := (if PromptIdColumn in prompts.columns then [] else [PromptsMessage])
       + (if PromptIdColumn in values.columns then [] else [ValuesMessage])
       + (if NameColumn in models.columns && VersionColumn in models.columns then [] else [ModelsMessage])
       + (if !Empty(parameters) && !HasNull(parameters) then [] else [ParametersMessage]);
    assert |e| == |f| == |expected|;
    forall i | 0 <= i < |e|
      ensures e[i] == expected[i]
    {
      assert e[i] == Message(f[i]);
    }
  }

  lemma AllPassUnfold(prompts: Table, values: Table, models: Table, parameters: Table)
    ensures AllPass(prompts, values, models, parameters) <==>
      && PromptIdColumn in prompts.columns
      && PromptIdColumn in values.columns
      && NameColumn in models.columns && VersionColumn in models.columns
      && !Empty(parameters) && !HasNull(parameters)
  {
    assert Checks[0] == PromptsHaveId && Checks[1] == ValuesHaveId;
    assert Checks[2] == ModelsHaveNameAndVersion && Checks[3] == ParametersComplete;
    if AllPass(prompts, values, models, parameters) {
      assert Passes(Checks[0], prompts, values, models, parameters);
      assert Passes(Checks[1], prompts, values, models, parameters);
      assert Passes(Checks[2], prompts, values, models, parameters);
      assert Passes(Checks[3], prompts, values, models, parameters);
    }
  }

  lemma PromptsMessageIsOneLine()
    ensures '\n' !in PromptsMessage
  {
  }

  lemma ValuesMessageIsOneLine()
    ensures '\n' !in ValuesMessage
  {
  }

  lemma ModelsMessageIsOneLine()
    ensures '\n' !in ModelsMessage
  {
  }

  lemma ParametersMessageIsOneLine()
    ensures '\n' !in ParametersMessage
  {
  }

  /** No message is more than one line. */
  lemma MessageHasNoNewline(c: Check)
    ensures '\n' !in Message(c)
  {
    match c
    case PromptsHaveId => PromptsMessageIsOneLine();
    case ValuesHaveId => ValuesMessageIsOneLine();
    case ModelsHaveNameAndVersion => ModelsMessageIsOneLine();
    case ParametersComplete => ParametersMessageIsOneLine();
  }

  /** No reported message contains a newline. */
  lemma ErrorsHaveNoNewline(prompts: Table, values: Table, models: Table, parameters: Table)
    ensures forall m | m in Errors(prompts, values, models, parameters) :: '\n' !in m
  {
    var f := Failed(Checks, prompts, values, models, parameters);
    forall m | m in Errors(prompts, values, models, parameters)
      ensures '\n' !in m
    {
      var i :| 0 <= i < |f| && Messages(f)[i] == m;
      MessageHasNoNewline(f[i]);
    }
  }

  /**
   * `validate_data`: `None` exactly when all four checks pass; otherwise the
   * non-empty text made of the failed checks' messages joined by newlines.
   */
  method ValidateData(prompts: Table, values: Table, models: Table, parameters: Table)
    returns (result: Option<string>)
    ensures result.None? <==>
      && PromptIdColumn in prompts.columns
      && PromptIdColumn in values.columns
      && NameColumn in models.columns && VersionColumn in models.columns
      && !Empty(parameters) && !HasNull(parameters)
    ensures result.None? <==> AllPass(prompts, values, models, parameters)
    ensures result.Some? ==> result.value == Join(Errors(prompts, values, models, parameters), "\n")
    ensures result.Some? ==> |result.value| > 0
  {
    var errors: seq<string> := [];
    if PromptIdColumn !in prompts.columns {
      errors := errors + [PromptsMessage];
    }
    if PromptIdColumn !in values.columns {
      errors := errors + [ValuesMessage];
    }
    if NameColumn !in models.columns || VersionColumn !in models.columns {
      errors := errors + [ModelsMessage];
    }
    if Empty(parameters) || HasNull(parameters) {
      errors := errors + [ParametersMessage];
    }
    ErrorsUnfold(prompts, values, models, parameters);
    AllPassUnfold(prompts, values, models, parameters);
    assert errors == Errors(prompts, values, models, parameters);
    if |errors| > 0 {
      result := Some(Join(errors, "\n"));
    } else {
      result := None;
    }
  }

  /** A check is reported exactly when it is one of `cs` and fails. */
  lemma {:induction false} FailedMembers(cs: seq<Check>, prompts: Table, values: Table, models: Table, parameters: Table)
    ensures forall c :: c in Failed(cs, prompts, values, models, parameters) <==>
      c in cs && !Passes(c, prompts, values, models, parameters)
    decreases |cs|
  {
    if |cs| > 0 {
      FailedMembers(cs[1..], prompts, values, models, parameters);
      assert cs == [cs[0]] + cs[1..];
    }
  }

  predicate InRankOrder(cs: seq<Check>)
  {
    forall a, b | 0 <= a < b < |cs| :: Rank(cs[a]) < Rank(cs[b])
  }

  /** Dropping the passing checks keeps the failing ones in their order. */
  lemma {:induction false} FailedKeepsOrder(cs: seq<Check>, prompts: Table, values: Table, models: Table, parameters: Table)
    requires InRankOrder(cs)
    ensures InRankOrder(Failed(cs, prompts, values, models, parameters))
    decreases |cs|
  {
    if |cs| > 0 {
      var rest := Failed(cs[1..], prompts, values, models, parameters);
      FailedKeepsOrder(cs[1..], prompts, values, models, parameters);
      FailedMembers(cs[1..], prompts, values, models, parameters);
      forall b | 0 <= b < |rest|
        ensures Rank(cs[0]) < Rank(rest[b])
      {
        assert rest[b] in rest;
        var y :| 0 <= y < |cs[1..]| && cs[1..][y] == rest[b];
        assert cs[y + 1] == rest[b];
      }
    }
  }

  lemma {:induction false} DistinctCardinality(cs: seq<Check>)
    requires InRankOrder(cs)
    ensures |set c | c in cs| == |cs|
    decreases |cs|
  {
    if |cs| > 0 {
      DistinctCardinality(cs[1..]);
      assert (set c | c in cs) == {cs[0]} + (set c | c in cs[1..]);
      assert cs[0] !in cs[1..];
    }
  }

  /**
   * The messages come in the order Prompts, Values, Models, Parameters, one for
   * each failed check and for nothing else, so there are as many as failed checks.
   */
  lemma ErrorsAreFailedChecksInOrder(prompts: Table, values: Table, models: Table, parameters: Table)
    ensures var failed := Failed(Checks, prompts, values, models, parameters);
      && Errors(prompts, values, models, parameters) == Messages(failed)
      && InRankOrder(failed)
      && (forall c :: c in failed <==> !Passes(c, prompts, values, models, parameters))
      && |Errors(prompts, values, models, parameters)|
         == |set c | c in Checks && !Passes(c, prompts, values, models, parameters)|
      && |Errors(prompts, values, models, parameters)| <= 4
  {
    var failed := Failed(Checks, prompts, values, models, parameters);
    assert InRankOrder(Checks);
    FailedKeepsOrder(Checks, prompts, values, models, parameters);
    FailedMembers(Checks, prompts, values, models, parameters);
    forall c: Check
      ensures c in Checks
    {
      assert Checks[Rank(c)] == c;
    }
    FailedChecksUnfold(prompts, values, models, parameters);
    DistinctCardinality(failed);
    assert (set c | c in failed) == (set c | c in Checks && !Passes(c, prompts, values, models, parameters));
    assert (set c | c in Checks) <= {PromptsHaveId, ValuesHaveId, ModelsHaveNameAndVersion, ParametersComplete};
  }

  /** Missing `Name`, `Version` or both gives exactly one Models message. */
  lemma ModelsMessageOnce(prompts: Table, values: Table, models: Table, parameters: Table)
    ensures multiset(Errors(prompts, values, models, parameters))[ModelsMessage]
      == if NameColumn !in models.columns || VersionColumn !in models.columns then 1 else 0
  {
    ErrorsUnfold(prompts, values, models, parameters);
    assert PromptsMessage != ModelsMessage && ValuesMessage != ModelsMessage && ParametersMessage != ModelsMessage;
  }

  /** The Parameters message appears exactly when that sheet is empty or has a missing cell. */
  lemma ParametersMessageExactly(prompts: Table, values: Table, models: Table, parameters: Table)
    ensures ParametersMessage in Errors(prompts, values, models, parameters)
      <==> Empty(parameters) || HasNull(parameters)
  {
    ErrorsUnfold(prompts, values, models, parameters);
    assert PromptsMessage != ParametersMessage && ValuesMessage != ParametersMessage && ModelsMessage != ParametersMessage;
  }

  /**
   * The reported text has one line per message and no trailing newline:
   * splitting it on newlines gives back the message list.
   */
  lemma ReportSplitsIntoMessages(prompts: Table, values: Table, models: Table, parameters: Table)
    requires !AllPass(prompts, values, models, parameters)
    ensures var errors := Errors(prompts, values, models, parameters);
      Split(Join(errors, "\n"), "\n") == errors
  {
    AllPassUnfold(prompts, values, models, parameters);
    ErrorsUnfold(prompts, values, models, parameters);
    ErrorsHaveNoNewline(prompts, values, models, parameters);
    SplitJoinRoundTrip(Errors(prompts, values, models, parameters), "\n");
  }
}
