/**
 * `generate_combinations`: for every prompt, every Values row with the
 * prompt's id, every model and every parameter set, one output row
 *   (prompt_id, model Name, model Version, parameter values..., filled prompt),
 * where the filled prompt is the prompt's template with each `{{column}}` of
 * the Values sheet (all columns after the first) replaced by that row's cell.
 *
 * The methods mirror the source's four nested loops, one method per loop; the
 * functions below describe the rows each loop emits as the blocks of rows of
 * its iterations, one after another.
 */
module Generation {
  import opened Wrappers
  import opened Tables
  import opened Strings
  import opened Products

  /** The two places where `generate_combinations` stops with an IndexError. */
  datatype GenError =
    | NoParameterValuesColumn   // `parameters.iloc[:, 1]` on a sheet with fewer than two columns
    | NoTemplateColumn          // `prompt_row[1]` on a Prompts sheet with a single column

  predicate PromptsReady(prompts: Table)
  {
    WellFormed(prompts) && PromptIdColumn in prompts.columns
  }

  predicate ValuesReady(values: Table)
  {
    WellFormed(values) && PromptIdColumn in values.columns
  }

  predicate ModelsReady(models: Table)
  {
    WellFormed(models) && NameColumn in models.columns && VersionColumn in models.columns
  }

  /** What the validator guarantees before the generator runs, on rectangular sheets. */
  predicate Ready(prompts: Table, values: Table, models: Table, parameters: Table)
  {
    PromptsReady(prompts) && ValuesReady(values) && ModelsReady(models) && WellFormed(parameters)
  }

  // ---------------------------------------------------------------------------
  // Template substitution

  /** The placeholder `{{column}}`. */
  function Token(column: string): string
  {
    "{{" + column + "}}"
  }

  /** The template after the replacements for columns 1 .. c - 1, in column order. */
  function Filled(template: string, columns: seq<string>, row: Row, c: nat): string
    requires |row| == |columns| && 1 <= c <= |columns|
  {
    if c == 1 then template
    else ReplaceAll(Filled(template, columns, row, c - 1), Token(columns[c - 1]), Str(row[c - 1]))
  }

  /** The template with every column after the first substituted, in column order. */
  function Fill(template: string, columns: seq<string>, row: Row): string
    requires |row| == |columns| && 1 <= |columns|
  {
    Filled(template, columns, row, |columns|)
  }

  /** The substitution loop over `values.columns[1:]`. */
  method FillTemplate(template: string, columns: seq<string>, row: Row) returns (filled: string)
    requires |row| == |columns| && 1 <= |columns|
    ensures filled == Fill(template, columns, row)
  {
    filled := template;
    var c := 1;
    while c < |columns|
      invariant 1 <= c <= |columns|
      invariant filled == Filled(template, columns, row, c)
    {
      filled := ReplaceAll(filled, Token(columns[c]), Str(row[c]));
      c := c + 1;
    }
  }

  // ---------------------------------------------------------------------------
  // Selecting the Values rows of a prompt

  /** pandas' `==` on a cell: a missing (NaN) cell equals nothing. */
  predicate SameId(a: Cell, b: Cell)
  {
    a.Text? && b.Text? && a.s == b.s
  }

  /** `values[values["prompt_id"] == id]`: the rows whose `key` cell equals `id`, in row order. */
  function Matching(rows: seq<Row>, key: nat, id: Cell): seq<Row>
    requires forall row | row in rows :: key < |row|
  {
    if |rows| == 0 then []
    else (if SameId(rows[0][key], id) then [rows[0]] else []) + Matching(rows[1..], key, id)
  }

  /** A row is selected exactly when it is one of the rows and its key cell equals `id`. */
  lemma {:induction false} MatchingMembers(rows: seq<Row>, key: nat, id: Cell)
    requires forall row | row in rows :: key < |row|
    ensures forall row :: row in Matching(rows, key, id) <==> row in rows && SameId(row[key], id)
    decreases |rows|
  {
    if |rows| > 0 {
      MatchingMembers(rows[1..], key, id);
      assert rows == [rows[0]] + rows[1..];
    }
  }

  /** The Values rows of one prompt; each keeps one cell per column of the Values sheet. */
  function MatchedValues(values: Table, id: Cell): (matched: seq<Row>)
    requires ValuesReady(values)
    ensures forall j | 0 <= j < |matched| :: |matched[j]| == |values.columns|
  {
    var key := ColumnIndex(values.columns, PromptIdColumn);
    MatchingMembers(values.rows, key, id);
    var matched := Matching(values.rows, key, id);
    assert forall j | 0 <= j < |matched| :: matched[j] in matched;
    matched
  }

  // ---------------------------------------------------------------------------
  // Parameters

  /** `parameters.iloc[:, 0].tolist()`: the parameter names in row order. */
  function ParameterNames(parameters: Table): seq<string>
    requires WellFormed(parameters) && 1 <= |parameters.columns|
  {
    seq(|parameters.rows|, r requires 0 <= r < |parameters.rows| => Str(parameters.rows[r][0]))
  }

  /** `[str(v).split(',') for v in parameters.iloc[:, 1]]`. */
  function ParameterLists(parameters: Table): seq<seq<string>>
    requires WellFormed(parameters) && 2 <= |parameters.columns|
  {
    seq(|parameters.rows|, r requires 0 <= r < |parameters.rows| => Split(Str(parameters.rows[r][1]), ","))
  }

  /** `list(product(*parameter_values))`. */
  function ParameterSets(parameters: Table): seq<seq<string>>
    requires WellFormed(parameters) && 2 <= |parameters.columns|
  {
    Product(ParameterLists(parameters))
  }

  /** The output schema: `prompt_id, model_name, model_version, <parameter names>, filled_prompt`. */
  function OutputColumns(names: seq<string>): seq<string>
  {
    ["prompt_id", "model_name", "model_version"] + names + ["filled_prompt"]
  }

  // ---------------------------------------------------------------------------
  // The emitted rows, loop by loop

  function PromptId(prompts: Table, i: nat): Cell
    requires PromptsReady(prompts) && i < |prompts.rows|
  {
    prompts.rows[i][ColumnIndex(prompts.columns, PromptIdColumn)]
  }

  /** `str(prompt_row[1])`: the second column, by position. */
  function Template(prompts: Table, i: nat): string
    requires WellFormed(prompts) && i < |prompts.rows| && 2 <= |prompts.columns|
  {
    Str(prompts.rows[i][1])
  }

  /**
   * One emitted row, `[prompt_id, model_row["Name"], model_row["Version"], *param_set, filled_prompt]`,
   * kept as a record while the loops run.
   */
  datatype Combination = Combination(
    promptId: Cell, modelName: Cell, modelVersion: Cell, parameterValues: seq<string>, filledPrompt: string)

  function Texts(xs: seq<string>): seq<Cell>
  {
    seq(|xs|, i requires 0 <= i < |xs| => Text(xs[i]))
  }

  /** The row of cells a combination becomes in the output table. */
  function ToRow(c: Combination): Row
  {
    [c.promptId, c.modelName, c.modelVersion] + Texts(c.parameterValues) + [Text(c.filledPrompt)]
  }

  function ToRows(cs: seq<Combination>): seq<Row>
  {
    seq(|cs|, i requires 0 <= i < |cs| => ToRow(cs[i]))
  }

  /** The two cells of a Models row the output uses: `model_row["Name"]` and `model_row["Version"]`. */
  datatype Model = Model(name: Cell, version: Cell)

  /** Every Models row's name and version, in row order. */
  function ModelsOf(models: Table): (ms: seq<Model>)
    requires ModelsReady(models)
    ensures |ms| == |models.rows|
  {
    var nameCol := ColumnIndex(models.columns, NameColumn);
    var versionCol := ColumnIndex(models.columns, VersionColumn);
    seq(|models.rows|, m requires 0 <= m < |models.rows| => Model(models.rows[m][nameCol], models.rows[m][versionCol]))
  }

  function CombinationRow(id: Cell, model: Model, paramSet: seq<string>, filled: string): Combination
  {
    Combination(id, model.name, model.version, paramSet, filled)
  }

  /** The blocks of rows one after another, as the loops append them. */
  function Concat(blocks: seq<seq<Combination>>): seq<Combination>
  {
    if |blocks| == 0 then [] else Concat(blocks[..|blocks| - 1]) + blocks[|blocks| - 1]
  }

  /** Appending the next block to the rows of the blocks before it. */
  lemma ConcatStep(before: seq<Combination>, blocks: seq<seq<Combination>>, k: nat)
    requires k < |blocks|
    ensures Concat(blocks[..k + 1]) == Concat(blocks[..k]) + blocks[k]
    ensures before + Concat(blocks[..k + 1]) == before + Concat(blocks[..k]) + blocks[k]
  {
    assert blocks[..k + 1][..k] == blocks[..k];
  }

  /** The rows for one model and one filled prompt: one per parameter set, in order. */
  function SetRows(id: Cell, model: Model, sets: seq<seq<string>>, filled: string): seq<Combination>
  {
    seq(|sets|, k requires 0 <= k < |sets| => CombinationRow(id, model, sets[k], filled))
  }

  /** Appending the next parameter set's row to the rows of the parameter sets before it. */
  lemma SetRowsStep(before: seq<Combination>, id: Cell, model: Model, sets: seq<seq<string>>, filled: string, k: nat)
    requires k < |sets|
    ensures before + SetRows(id, model, sets[..k + 1], filled)
         == before + SetRows(id, model, sets[..k], filled) + [CombinationRow(id, model, sets[k], filled)]
  {
    assert SetRows(id, model, sets[..k + 1], filled)
        == SetRows(id, model, sets[..k], filled) + [CombinationRow(id, model, sets[k], filled)];
  }

  /** One block per model, for one filled prompt. */
  function ModelBlocks(id: Cell, ms: seq<Model>, sets: seq<seq<string>>, filled: string): seq<seq<Combination>>
  {
    seq(|ms|, m requires 0 <= m < |ms| => SetRows(id, ms[m], sets, filled))
  }

  /** The rows for one filled prompt: model by model, parameter set by parameter set. */
  function ModelRows(id: Cell, ms: seq<Model>, sets: seq<seq<string>>, filled: string): seq<Combination>
  {
    Concat(ModelBlocks(id, ms, sets, filled))
  }

  /** The filled prompt of each matched Values row, in row order. */
  function Fills(template: string, columns: seq<string>, matched: seq<Row>): seq<string>
    requires 1 <= |columns|
    requires forall j | 0 <= j < |matched| :: |matched[j]| == |columns|
  {
    seq(|matched|, j requires 0 <= j < |matched| => Fill(template, columns, matched[j]))
  }

  /** The filled prompts of prompt `i`, one per Values row carrying its id. */
  function PromptFills(prompts: Table, values: Table, i: nat): seq<string>
    requires PromptsReady(prompts) && ValuesReady(values)
    requires i < |prompts.rows| && 2 <= |prompts.columns|
  {
    Fills(Template(prompts, i), values.columns, MatchedValues(values, PromptId(prompts, i)))
  }

  /** One block per filled prompt of one prompt. */
  function ValueBlocks(id: Cell, fills: seq<string>, ms: seq<Model>, sets: seq<seq<string>>): seq<seq<Combination>>
  {
    seq(|fills|, j requires 0 <= j < |fills| => ModelRows(id, ms, sets, fills[j]))
  }

  /** The rows for one prompt: filled prompt by filled prompt. */
  function ValueRows(id: Cell, fills: seq<string>, ms: seq<Model>, sets: seq<seq<string>>): seq<Combination>
  {
    Concat(ValueBlocks(id, fills, ms, sets))
  }

  /** The id of every prompt, in sheet order. */
  function PromptIds(prompts: Table): (ids: seq<Cell>)
    requires PromptsReady(prompts)
    ensures |ids| == |prompts.rows|
  {
    seq(|prompts.rows|, i requires 0 <= i < |prompts.rows| => PromptId(prompts, i))
  }

  /** The filled prompts of every prompt, in sheet order. */
  function AllFills(prompts: Table, values: Table): (fills: seq<seq<string>>)
    requires PromptsReady(prompts) && ValuesReady(values) && 2 <= |prompts.columns|
    ensures |fills| == |prompts.rows|
  {
    seq(|prompts.rows|, i requires 0 <= i < |prompts.rows| => PromptFills(prompts, values, i))
  }

  /** One block per prompt, prompt `p` having id `ids[p]` and filled prompts `fills[p]`. */
  function PromptBlocks(ids: seq<Cell>, fills: seq<seq<string>>, ms: seq<Model>, sets: seq<seq<string>>): seq<seq<Combination>>
    requires |ids| == |fills|
  {
    seq(|ids|, p requires 0 <= p < |ids| => ValueRows(ids[p], fills[p], ms, sets))
  }

  /** All rows: prompt by prompt. */
  function PromptRows(ids: seq<Cell>, fills: seq<seq<string>>, ms: seq<Model>, sets: seq<seq<string>>): seq<Combination>
    requires |ids| == |fills|
  {
    Concat(PromptBlocks(ids, fills, ms, sets))
  }

  /** What `generate_combinations` returns: the output table, or the IndexError it stops with. */
  function Combinations(prompts: Table, values: Table, models: Table, parameters: Table): Result<Table, GenError>
    requires Ready(prompts, values, models, parameters)
  {
    if |parameters.columns| < 2 then Err(NoParameterValuesColumn)
    else if |prompts.columns| < 2 then
      // `prompt_row[1]` fails on the first prompt; with no prompt nothing is emitted
      if |prompts.rows| > 0 then Err(NoTemplateColumn) else Ok(Table(OutputColumns(ParameterNames(parameters)), []))
    else
      Ok(Table(OutputColumns(ParameterNames(parameters)),
               ToRows(PromptRows(PromptIds(prompts), AllFills(prompts, values), ModelsOf(models), ParameterSets(parameters)))))
  }

  /** The innermost loop, over the parameter sets, for one model and one filled prompt. */
  method EmitSetRows(results: seq<Combination>, id: Cell, model: Model, sets: seq<seq<string>>, filled: string)
    returns (extended: seq<Combination>)
    ensures extended == results + SetRows(id, model, sets, filled)
  {
    extended := results;
    var k := 0;
    while k < |sets|
      invariant k <= |sets|
      invariant extended == results + SetRows(id, model, sets[..k], filled)
    {
      SetRowsStep(results, id, model, sets, filled, k);
      extended := extended + [CombinationRow(id, model, sets[k], filled)];
      k := k + 1;
    }
    assert sets[..k] == sets;
  }

  /** The loop over the models for one filled prompt. */
  method EmitModelRows(results: seq<Combination>, id: Cell, ms: seq<Model>, sets: seq<seq<string>>, filled: string)
    returns (extended: seq<Combination>)
    ensures extended == results + ModelRows(id, ms, sets, filled)
  {
    ghost var blocks := ModelBlocks(id, ms, sets, filled);
    extended := results;
    var m := 0;
    while m < |ms|
      invariant m <= |ms|
      invariant extended == results + Concat(blocks[..m])
    {
      ConcatStep(results, blocks, m);
      extended := EmitSetRows(extended, id, ms[m], sets, filled);
      m := m + 1;
    }
    assert blocks[..m] == blocks;
  }

  /** The loop over the Values rows matched by one prompt: fill the template, then emit its rows. */
  method EmitValueRows(results: seq<Combination>, id: Cell, template: string, columns: seq<string>, matched: seq<Row>,
                       ms: seq<Model>, sets: seq<seq<string>>)
    returns (extended: seq<Combination>)
    requires 1 <= |columns|
    requires forall j | 0 <= j < |matched| :: |matched[j]| == |columns|
    ensures extended == results + ValueRows(id, Fills(template, columns, matched), ms, sets)
  {
    ghost var blocks := ValueBlocks(id, Fills(template, columns, matched), ms, sets);
    extended := results;
    var j := 0;
    while j < |matched|
      invariant j <= |matched|
      invariant extended == results + Concat(blocks[..j])
    {
      ConcatStep(results, blocks, j);
      var filled := FillTemplate(template, columns, matched[j]);
      extended := EmitModelRows(extended, id, ms, sets, filled);
      j := j + 1;
    }
    assert blocks[..j] == blocks;
  }

  /** The body of the loop over the prompts, once the template column is known to exist. */
  method EmitPromptRows(results: seq<Combination>, prompts: Table, values: Table, ms: seq<Model>,
                        sets: seq<seq<string>>, i: nat)
    returns (extended: seq<Combination>)
    requires PromptsReady(prompts) && ValuesReady(values)
    requires i < |prompts.rows| && 2 <= |prompts.columns|
    ensures extended == results + ValueRows(PromptId(prompts, i), PromptFills(prompts, values, i), ms, sets)
  {
    var promptId := prompts.rows[i][ColumnIndex(prompts.columns, PromptIdColumn)];
    var template := Str(prompts.rows[i][1]);
    var matched := MatchedValues(values, promptId);
    extended := EmitValueRows(results, promptId, template, values.columns, matched, ms, sets);
  }

  /** The loop over the prompts, on a Prompts sheet that has a template column. */
  method EmitAllPrompts(prompts: Table, values: Table, ms: seq<Model>, sets: seq<seq<string>>)
    returns (results: seq<Combination>)
    requires PromptsReady(prompts) && ValuesReady(values)
    requires 2 <= |prompts.columns|
    ensures results == PromptRows(PromptIds(prompts), AllFills(prompts, values), ms, sets)
  {
    ghost var blocks := PromptBlocks(PromptIds(prompts), AllFills(prompts, values), ms, sets);
    results := [];
    var i := 0;
    while i < |prompts.rows|
      invariant i <= |prompts.rows|
      invariant results == Concat(blocks[..i])
    {
      ConcatStep([], blocks, i);
      assert blocks[i] == ValueRows(PromptId(prompts, i), PromptFills(prompts, values, i), ms, sets) by {
        assert PromptIds(prompts)[i] == PromptId(prompts, i);
        assert AllFills(prompts, values)[i] == PromptFills(prompts, values, i);
      }
      results := EmitPromptRows(results, prompts, values, ms, sets, i);
      i := i + 1;
    }
    assert blocks[..i] == blocks;
  }

  /** `generate_combinations`; each model's Name and Version cells are read once, before the loops. */
  method GenerateCombinations(prompts: Table, values: Table, models: Table, parameters: Table)
    returns (r: Result<Table, GenError>)
    requires Ready(prompts, values, models, parameters)
    ensures r == Combinations(prompts, values, models, parameters)
  {
    if |parameters.columns| < 2 {
      return Err(NoParameterValuesColumn);
    }
    var names := ParameterNames(parameters);
    var sets := ParameterSets(parameters);
    var ms := ModelsOf(models);
    if |prompts.columns| < 2 {
      if |prompts.rows| > 0 {
        // `prompt_row[1]` fails on the first prompt, before any row is emitted
        return Err(NoTemplateColumn);
      }
      // with no prompt the loop emits nothing
      return Ok(Table(OutputColumns(names), []));
    }
    var results := EmitAllPrompts(prompts, values, ms, sets);
    r := Ok(Table(OutputColumns(names), ToRows(results)));
  }
}
