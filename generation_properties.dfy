/**
 * What `generate_combinations` promises about its output: how many rows it
 * emits, in which order, what each row holds, and how templates are filled.
 */
module GenerationProperties {
  import opened Wrappers
  import opened Tables
  import opened Strings
  import opened Products
  import opened Generation
  import Validation

  // ---------------------------------------------------------------------------
  // Blocks of rows

  /** Blocks of one common size `size` make `|blocks| * size` rows. */
  lemma {:induction false} ConcatUniform(blocks: seq<seq<Combination>>, size: nat)
    requires forall i | 0 <= i < |blocks| :: |blocks[i]| == size
    ensures |Concat(blocks)| == |blocks| * size
    decreases |blocks|
  {
    if |blocks| > 0 {
      ConcatUniform(blocks[..|blocks| - 1], size);
      MulStep(|blocks| - 1, size);
    }
  }

  /** Row `off` of block `p` sits after all rows of the blocks before it. */
  lemma {:induction false} ConcatAt(blocks: seq<seq<Combination>>, p: nat, off: nat)
    requires p < |blocks| && off < |blocks[p]|
    ensures |Concat(blocks[..p])| + off < |Concat(blocks)|
    ensures Concat(blocks)[|Concat(blocks[..p])| + off] == blocks[p][off]
    decreases |blocks|
  {
    var n := |blocks|;
    var init := blocks[..n - 1];
    if p < n - 1 {
      ConcatAt(init, p, off);
      assert init[..p] == blocks[..p];
    } else {
      assert init == blocks[..p];
    }
  }

  /** Every emitted row takes its parameter values from one of the parameter sets. */
  predicate ParametersFrom(cs: seq<Combination>, sets: seq<seq<string>>)
  {
    forall x | 0 <= x < |cs| :: cs[x].parameterValues in sets
  }

  lemma {:induction false} ConcatParameters(blocks: seq<seq<Combination>>, sets: seq<seq<string>>)
    requires forall i | 0 <= i < |blocks| :: ParametersFrom(blocks[i], sets)
    ensures ParametersFrom(Concat(blocks), sets)
    decreases |blocks|
  {
    if |blocks| > 0 {
      var init: seq<seq<Combination>>, last: seq<Combination> := blocks[..|blocks| - 1], blocks[|blocks| - 1];
      ConcatParameters(init, sets);
      var a := Concat(init);
      forall x | 0 <= x < |a + last|
        ensures (a + last)[x].parameterValues in sets
      {
        if x >= |a| {
          assert (a + last)[x] == last[x - |a|];
        }
      }
    }
  }

  // ---------------------------------------------------------------------------
  // Row counts

  /** One filled prompt gives one row per model and parameter set. */
  lemma ModelRowsLength(id: Cell, ms: seq<Model>, sets: seq<seq<string>>, filled: string)
    ensures |ModelRows(id, ms, sets, filled)| == |ms| * |sets|
  {
    ConcatUniform(ModelBlocks(id, ms, sets, filled), |sets|);
  }

  /** One prompt gives one row per filled prompt, model and parameter set. */
  lemma ValueRowsLength(id: Cell, fills: seq<string>, ms: seq<Model>, sets: seq<seq<string>>)
    ensures |ValueRows(id, fills, ms, sets)| == |fills| * (|ms| * |sets|)
  {
    var blocks := ValueBlocks(id, fills, ms, sets);
    forall j | 0 <= j < |blocks|
      ensures |blocks[j]| == |ms| * |sets|
    {
      ModelRowsLength(id, ms, sets, fills[j]);
    }
    ConcatUniform(blocks, |ms| * |sets|);
  }

  lemma Distribute(a: nat, b: nat, c: nat)
    ensures a * c + b * c == (a + b) * c
  {
  }

  /** The number of filled prompts of the first `i` prompts. */
  function FillCount(fills: seq<seq<string>>, i: nat): nat
    requires i <= |fills|
  {
    if i == 0 then 0 else FillCount(fills, i - 1) + |fills[i - 1]|
  }

  /** Blocks of `size` rows per filled prompt: the first `p` hold `size` rows per filled prompt among them. */
  lemma {:induction false} ConcatScaled(blocks: seq<seq<Combination>>, fills: seq<seq<string>>, size: nat, p: nat)
    requires |blocks| == |fills| && p <= |blocks|
    requires forall i | 0 <= i < |blocks| :: |blocks[i]| == |fills[i]| * size
    ensures |Concat(blocks[..p])| == FillCount(fills, p) * size
    decreases p
  {
    if p > 0 {
      ConcatScaled(blocks, fills, size, p - 1);
      assert blocks[..p][..p - 1] == blocks[..p - 1];
      Distribute(FillCount(fills, p - 1), |fills[p - 1]|, size);
    } else {
      assert blocks[..p] == [];
    }
  }

  /** The first `p` prompts give one row per filled prompt among them, model and parameter set. */
  lemma PromptRowsBefore(ids: seq<Cell>, fills: seq<seq<string>>, ms: seq<Model>, sets: seq<seq<string>>, p: nat)
    requires |ids| == |fills| && p <= |ids|
    ensures |Concat(PromptBlocks(ids, fills, ms, sets)[..p])| == FillCount(fills, p) * (|ms| * |sets|)
  {
    var blocks := PromptBlocks(ids, fills, ms, sets);
    forall i | 0 <= i < |blocks|
      ensures |blocks[i]| == |fills[i]| * (|ms| * |sets|)
    {
      ValueRowsLength(ids[i], fills[i], ms, sets);
    }
    ConcatScaled(blocks, fills, |ms| * |sets|, p);
  }

  lemma PromptRowsLength(ids: seq<Cell>, fills: seq<seq<string>>, ms: seq<Model>, sets: seq<seq<string>>)
    requires |ids| == |fills|
    ensures |PromptRows(ids, fills, ms, sets)| == FillCount(fills, |ids|) * (|ms| * |sets|)
  {
    var blocks := PromptBlocks(ids, fills, ms, sets);
    PromptRowsBefore(ids, fills, ms, sets, |ids|);
    assert blocks[..|ids|] == blocks;
  }

  /** How many (prompt, Values row) pairs with equal ids the first `i` prompts form. */
  function MatchesBefore(prompts: Table, values: Table, i: nat): nat
    requires PromptsReady(prompts) && ValuesReady(values) && i <= |prompts.rows|
  {
    if i == 0 then 0 else MatchesBefore(prompts, values, i - 1) + |MatchedValues(values, PromptId(prompts, i - 1))|
  }

  /** Prompt `p` fills its template once per Values row carrying its id. */
  lemma FillsPerMatch(prompts: Table, values: Table, p: nat)
    requires PromptsReady(prompts) && ValuesReady(values) && 2 <= |prompts.columns| && p < |prompts.rows|
    ensures |AllFills(prompts, values)[p]| == |MatchedValues(values, PromptId(prompts, p))|
  {
  }

  lemma {:induction false} MatchesBeforeFillCount(prompts: Table, values: Table, i: nat)
    requires PromptsReady(prompts) && ValuesReady(values) && 2 <= |prompts.columns| && i <= |prompts.rows|
    ensures MatchesBefore(prompts, values, i) == FillCount(AllFills(prompts, values), i)
    decreases i
  {
    if i > 0 {
      MatchesBeforeFillCount(prompts, values, i - 1);
      FillsPerMatch(prompts, values, i - 1);
    }
  }

  /**
   * The size of the output: the number of (prompt, Values row) pairs with equal
   * ids, times the number of models, times the product of the numbers of
   * comma-separated values of the parameters.
   */
  lemma CombinationCount(prompts: Table, values: Table, models: Table, parameters: Table)
    requires Ready(prompts, values, models, parameters)
    requires Combinations(prompts, values, models, parameters).Ok?
    ensures |Combinations(prompts, values, models, parameters).value.rows|
         == MatchesBefore(prompts, values, |prompts.rows|) * (|models.rows| * Size(ParameterLists(parameters)))
  {
    ProductLength(ParameterLists(parameters));
    if 2 <= |prompts.columns| {
      PromptRowsLength(PromptIds(prompts), AllFills(prompts, values), ModelsOf(models), ParameterSets(parameters));
      MatchesBeforeFillCount(prompts, values, |prompts.rows|);
    }
  }

  // ---------------------------------------------------------------------------
  // Order: prompt, then matched Values row, then model, then parameter set

  /** The offset of model `m` and parameter set `t` among the rows of one filled prompt. */
  function Offset(m: nat, t: nat, setCount: nat): nat
  {
    m * setCount + t
  }

  /** Model `m` and parameter set `t` give row `m * P + t` of a filled prompt's rows, `P` parameter sets. */
  lemma ModelRowsAt(id: Cell, ms: seq<Model>, sets: seq<seq<string>>, filled: string, m: nat, t: nat)
    requires m < |ms| && t < |sets|
    ensures Offset(m, t, |sets|) < |ModelRows(id, ms, sets, filled)|
    ensures ModelRows(id, ms, sets, filled)[Offset(m, t, |sets|)]
         == Combination(id, ms[m].name, ms[m].version, sets[t], filled)
  {
    var blocks := ModelBlocks(id, ms, sets, filled);
    ConcatUniform(blocks[..m], |sets|);
    ConcatAt(blocks, m, t);
  }

  /** The offset of filled prompt `v`, model `m` and parameter set `t` among the rows from `v`'s on. */
  function Position(v: nat, m: nat, t: nat, modelCount: nat, setCount: nat): nat
  {
    v * (modelCount * setCount) + Offset(m, t, setCount)
  }

  /** Filled prompt `v`, model `m` and parameter set `t` give row `Position(v, m, t, M, P)` of a prompt's rows. */
  lemma ValueRowsAt(id: Cell, fills: seq<string>, ms: seq<Model>, sets: seq<seq<string>>, v: nat, m: nat, t: nat)
    requires v < |fills| && m < |ms| && t < |sets|
    ensures Position(v, m, t, |ms|, |sets|) < |ValueRows(id, fills, ms, sets)|
    ensures ValueRows(id, fills, ms, sets)[Position(v, m, t, |ms|, |sets|)]
         == Combination(id, ms[m].name, ms[m].version, sets[t], fills[v])
  {
    var blocks := ValueBlocks(id, fills, ms, sets);
    forall j | 0 <= j < v
      ensures |blocks[..v][j]| == |ms| * |sets|
    {
      ModelRowsLength(id, ms, sets, fills[j]);
    }
    ConcatUniform(blocks[..v], |ms| * |sets|);
    ModelRowsAt(id, ms, sets, fills[v], m, t);
    ConcatAt(blocks, v, Offset(m, t, |sets|));
  }

  /**
   * The order of the nested loops: the rows of filled prompt `v` of prompt `p`,
   * model `m` and parameter set `t` come after one block of `M * P` rows for
   * every filled prompt of the earlier prompts and the earlier filled prompts
   * of `p`, then after the rows of the earlier models, then after the earlier
   * parameter sets.
   */
  lemma PromptRowsAt(ids: seq<Cell>, fills: seq<seq<string>>, ms: seq<Model>, sets: seq<seq<string>>,
                     p: nat, v: nat, m: nat, t: nat)
    requires |ids| == |fills| && p < |ids| && v < |fills[p]| && m < |ms| && t < |sets|
    ensures Position(FillCount(fills, p) + v, m, t, |ms|, |sets|) < |PromptRows(ids, fills, ms, sets)|
    ensures PromptRows(ids, fills, ms, sets)[Position(FillCount(fills, p) + v, m, t, |ms|, |sets|)]
         == Combination(ids[p], ms[m].name, ms[m].version, sets[t], fills[p][v])
  {
    var blocks := PromptBlocks(ids, fills, ms, sets);
    PromptRowsBefore(ids, fills, ms, sets, p);
    ValueRowsAt(ids[p], fills[p], ms, sets, v, m, t);
    ConcatAt(blocks, p, Position(v, m, t, |ms|, |sets|));
    Distribute(FillCount(fills, p), v, |ms| * |sets|);
  }

  /**
   * The output table's rows are the emitted rows with the sheets' prompt ids,
   * filled prompts, models and parameter sets, so `PromptRowsAt`, `FillsAt`
   * and `ModelAt` together give the position and the cells of every row.
   */
  lemma OutputRows(prompts: Table, values: Table, models: Table, parameters: Table)
    requires Ready(prompts, values, models, parameters)
    requires 2 <= |parameters.columns| && 2 <= |prompts.columns|
    ensures Combinations(prompts, values, models, parameters).Ok?
    ensures Combinations(prompts, values, models, parameters).value.rows
         == ToRows(PromptRows(PromptIds(prompts), AllFills(prompts, values), ModelsOf(models), ParameterSets(parameters)))
  {
  }

  /** The filled prompts of prompt `p`: its template filled from each of its Values rows in turn. */
  lemma FillsAt(prompts: Table, values: Table, p: nat, v: nat)
    requires PromptsReady(prompts) && ValuesReady(values) && 2 <= |prompts.columns|
    requires p < |prompts.rows| && v < |MatchedValues(values, PromptId(prompts, p))|
    ensures PromptIds(prompts)[p] == PromptId(prompts, p)
    ensures v < |AllFills(prompts, values)[p]|
    ensures AllFills(prompts, values)[p][v]
         == Fill(Template(prompts, p), values.columns, MatchedValues(values, PromptId(prompts, p))[v])
  {
  }

  /** The model of Models row `m`: its Name and Version cells. */
  lemma ModelAt(models: Table, m: nat)
    requires ModelsReady(models) && m < |models.rows|
    ensures ModelsOf(models)[m].name == models.rows[m][ColumnIndex(models.columns, NameColumn)]
    ensures ModelsOf(models)[m].version == models.rows[m][ColumnIndex(models.columns, VersionColumn)]
  {
  }

  /** A prompt without any Values row carrying its id emits no rows. */
  lemma NoMatchNoRows(prompts: Table, values: Table, ms: seq<Model>, sets: seq<seq<string>>, i: nat)
    requires PromptsReady(prompts) && ValuesReady(values)
    requires i < |prompts.rows| && 2 <= |prompts.columns|
    requires MatchedValues(values, PromptId(prompts, i)) == []
    ensures PromptBlocks(PromptIds(prompts), AllFills(prompts, values), ms, sets)[i] == []
    ensures Concat(PromptBlocks(PromptIds(prompts), AllFills(prompts, values), ms, sets)[..i + 1])
         == Concat(PromptBlocks(PromptIds(prompts), AllFills(prompts, values), ms, sets)[..i])
  {
    var blocks := PromptBlocks(PromptIds(prompts), AllFills(prompts, values), ms, sets);
    assert AllFills(prompts, values)[i] == [];
    assert blocks[i] == [];
    ConcatStep([], blocks, i);
    assert Concat(blocks[..i]) + [] == Concat(blocks[..i]);
  }

  lemma {:induction false} MatchingMissing(rows: seq<Row>, key: nat)
    requires forall row | row in rows :: key < |row|
    ensures Matching(rows, key, Null) == []
    decreases |rows|
  {
    if |rows| > 0 {
      MatchingMissing(rows[1..], key);
    }
  }

  /** A prompt whose id cell is missing matches no Values row: NaN equals nothing. */
  lemma MissingIdMatchesNothing(values: Table, id: Cell)
    requires ValuesReady(values) && id.Null?
    ensures MatchedValues(values, id) == []
  {
    MatchingMissing(values.rows, ColumnIndex(values.columns, PromptIdColumn));
  }

  /** The Values rows selected for a prompt are exactly the rows whose `prompt_id` cell equals its id. */
  lemma MatchedValuesExactly(values: Table, id: Cell)
    requires ValuesReady(values)
    ensures forall row :: row in MatchedValues(values, id) <==>
      row in values.rows && SameId(row[ColumnIndex(values.columns, PromptIdColumn)], id)
  {
    MatchingMembers(values.rows, ColumnIndex(values.columns, PromptIdColumn), id);
  }

  /** Selection keeps row order: selecting from two blocks of rows is selecting from each in turn. */
  lemma {:induction false} MatchingAppend(a: seq<Row>, b: seq<Row>, key: nat, id: Cell)
    requires forall row | row in a :: key < |row|
    requires forall row | row in b :: key < |row|
    ensures forall row | row in a + b :: key < |row|
    ensures Matching(a + b, key, id) == Matching(a, key, id) + Matching(b, key, id)
    decreases |a|
  {
    if |a| > 0 {
      assert (a + b)[0] == a[0] && (a + b)[1..] == a[1..] + b;
      MatchingAppend(a[1..], b, key, id);
    } else {
      assert a + b == b;
    }
  }

  // ---------------------------------------------------------------------------
  // Row shape

  /** `[prompt_id, Name, Version, *param_set, filled_prompt]`. */
  lemma ToRowShape(c: Combination)
    ensures |ToRow(c)| == 4 + |c.parameterValues|
    ensures ToRow(c)[0] == c.promptId && ToRow(c)[1] == c.modelName && ToRow(c)[2] == c.modelVersion
    ensures forall x | 0 <= x < |c.parameterValues| :: ToRow(c)[3 + x] == Text(c.parameterValues[x])
    ensures ToRow(c)[3 + |c.parameterValues|] == Text(c.filledPrompt)
  {
  }

  lemma ModelRowsParameters(id: Cell, ms: seq<Model>, sets: seq<seq<string>>, filled: string)
    ensures ParametersFrom(ModelRows(id, ms, sets, filled), sets)
  {
    ConcatParameters(ModelBlocks(id, ms, sets, filled), sets);
  }

  lemma ValueRowsParameters(id: Cell, fills: seq<string>, ms: seq<Model>, sets: seq<seq<string>>)
    ensures ParametersFrom(ValueRows(id, fills, ms, sets), sets)
  {
    var blocks := ValueBlocks(id, fills, ms, sets);
    forall j | 0 <= j < |blocks|
      ensures ParametersFrom(blocks[j], sets)
    {
      ModelRowsParameters(id, ms, sets, fills[j]);
    }
    ConcatParameters(blocks, sets);
  }

  lemma PromptRowsParameters(ids: seq<Cell>, fills: seq<seq<string>>, ms: seq<Model>, sets: seq<seq<string>>)
    requires |ids| == |fills|
    ensures ParametersFrom(PromptRows(ids, fills, ms, sets), sets)
  {
    var blocks := PromptBlocks(ids, fills, ms, sets);
    forall p | 0 <= p < |blocks|
      ensures ParametersFrom(blocks[p], sets)
    {
      ValueRowsParameters(ids[p], fills[p], ms, sets);
    }
    ConcatParameters(blocks, sets);
  }

  /** The output is rectangular: every row has one cell per output column. */
  lemma OutputWellFormed(prompts: Table, values: Table, models: Table, parameters: Table)
    requires Ready(prompts, values, models, parameters)
    requires Combinations(prompts, values, models, parameters).Ok?
    ensures WellFormed(Combinations(prompts, values, models, parameters).value)
  {
    if 2 <= |prompts.columns| {
      var ms, sets := ModelsOf(models), ParameterSets(parameters);
      var ids, fills := PromptIds(prompts), AllFills(prompts, values);
      var cs := PromptRows(ids, fills, ms, sets);
      var out := Combinations(prompts, values, models, parameters).value;
      PromptRowsParameters(ids, fills, ms, sets);
      ProductSound(ParameterLists(parameters));
      forall r | 0 <= r < |out.rows|
        ensures |out.rows[r]| == |out.columns|
      {
        assert out.rows[r] == ToRow(cs[r]);
        ToRowShape(cs[r]);
      }
    }
  }

  // ---------------------------------------------------------------------------
  // Parameters

  /** Splitting never yields an empty list, so the product always has a tuple (the empty one for no parameters). */
  lemma ParameterSetsNonEmpty(parameters: Table)
    requires WellFormed(parameters) && 2 <= |parameters.columns|
    ensures |ParameterSets(parameters)| >= 1
  {
    ProductNonEmpty(ParameterLists(parameters));
  }

  /** `len(param_combinations)` is the product over the parameters of their numbers of values. */
  lemma ParameterSetsCount(parameters: Table)
    requires WellFormed(parameters) && 2 <= |parameters.columns|
    ensures |ParameterSets(parameters)| == Size(ParameterLists(parameters))
    ensures |ParameterLists(parameters)| == |parameters.rows|
    ensures forall r | 0 <= r < |parameters.rows| ::
      |ParameterLists(parameters)[r]| == Count(Str(parameters.rows[r][1]), ",") + 1
  {
    ProductLength(ParameterLists(parameters));
    forall r | 0 <= r < |parameters.rows|
      ensures |ParameterLists(parameters)[r]| == Count(Str(parameters.rows[r][1]), ",") + 1
    {
      SplitLength(Str(parameters.rows[r][1]), ",");
    }
  }

  /**
   * A tuple is a parameter set exactly when it has one value per parameter and
   * its `r`-th value is one of the comma-separated values of parameter `r`.
   */
  lemma ParameterSetsExactly(parameters: Table, y: seq<string>)
    requires WellFormed(parameters) && 2 <= |parameters.columns|
    ensures y in ParameterSets(parameters) <==>
      |y| == |parameters.rows| &&
      forall r | 0 <= r < |parameters.rows| :: y[r] in Split(Str(parameters.rows[r][1]), ",")
  {
    var lists := ParameterLists(parameters);
    ProductSound(lists);
    if |y| == |parameters.rows| && forall r | 0 <= r < |parameters.rows| :: y[r] in Split(Str(parameters.rows[r][1]), ",") {
      ProductComplete(lists, y);
    }
  }

  // ---------------------------------------------------------------------------
  // Template filling

  lemma {:induction false} FilledWithoutTokens(template: string, columns: seq<string>, row: Row, c: nat)
    requires |row| == |columns| && 1 <= c <= |columns|
    requires forall x | 1 <= x < |columns| :: !Occurs(template, Token(columns[x]))
    ensures Filled(template, columns, row, c) == template
    decreases c
  {
    if c > 1 {
      FilledWithoutTokens(template, columns, row, c - 1);
      ReplaceAllWithoutOccurrence(template, Token(columns[c - 1]), Str(row[c - 1]));
    }
  }

  /**
   * A template holding no `{{column}}` token of the Values columns after the
   * first comes out unchanged, whatever other placeholders it holds.
   */
  lemma FillWithoutTokens(template: string, columns: seq<string>, row: Row)
    requires |row| == |columns| && 1 <= |columns|
    requires forall x | 1 <= x < |columns| :: !Occurs(template, Token(columns[x]))
    ensures Fill(template, columns, row) == template
  {
    FilledWithoutTokens(template, columns, row, |columns|);
  }

  /** A column label with no brace in it. */
  predicate BraceFree(x: string)
  {
    '{' !in x && '}' !in x
  }

  lemma TokenChars(x: string)
    ensures |Token(x)| == |x| + 4
    ensures Token(x)[0] == '{' && Token(x)[1] == '{'
    ensures forall m | 0 <= m < |x| :: Token(x)[m + 2] == x[m]
    ensures Token(x)[|x| + 2] == '}' && Token(x)[|x| + 3] == '}'
  {
  }

  /** Inside an occurrence at `i`, the text holds the pattern's characters. */
  lemma CharOfOccurrence(t: string, pat: string, i: nat, m: nat)
    requires m < |pat| && i + |pat| <= |t|
    ensures OccursAt(t, pat, i) ==> t[i + m] == pat[m]
  {
    assert t[i..i + |pat|][m] == t[i + m];
  }

  /**
   * The token of `x` cannot start strictly inside a token of `y`: position
   * `k >= 1` of a brace-free label's token is `{` only at `k == 1`, and then
   * position 2 is no `{`.
   */
  lemma TokenNotInside(t: string, x: string, y: string, i: nat, j: nat)
    requires BraceFree(x) && BraceFree(y)
    requires j < i < j + |Token(y)|
    ensures !(OccursAt(t, Token(x), i) && OccursAt(t, Token(y), j))
  {
    if i + |Token(x)| <= |t| && j + |Token(y)| <= |t| {
      TokenChars(x);
      TokenChars(y);
      var k := i - j;
      CharOfOccurrence(t, Token(x), i, 0);
      CharOfOccurrence(t, Token(x), i, 1);
      CharOfOccurrence(t, Token(y), j, k);
      if k == 1 {
        CharOfOccurrence(t, Token(y), j, 2);
        if |y| > 0 {
          assert Token(y)[2] == y[0];
        }
      } else if k < |y| + 2 {
        assert Token(y)[k] == y[k - 2];
      }
    }
  }

  /** Tokens of two brace-free labels of different lengths cannot start at one place: the shorter one's `}` meets a label character. */
  lemma TokenNotTogether(t: string, x: string, y: string, i: nat)
    requires BraceFree(y) && |x| < |y|
    ensures !(OccursAt(t, Token(x), i) && OccursAt(t, Token(y), i))
  {
    if i + |Token(y)| <= |t| {
      TokenChars(x);
      TokenChars(y);
      CharOfOccurrence(t, Token(x), i, |x| + 2);
      CharOfOccurrence(t, Token(y), i, |x| + 2);
      assert Token(y)[|x| + 2] == y[|x|];
    }
  }

  /** Tokens of labels of one length starting at one place are tokens of one label. */
  lemma TokenTogetherSame(t: string, x: string, y: string, i: nat)
    requires |x| == |y|
    ensures OccursAt(t, Token(x), i) && OccursAt(t, Token(y), i) ==> x == y
  {
    if OccursAt(t, Token(x), i) && OccursAt(t, Token(y), i) {
      assert Token(x) == Token(y);
      assert x == Token(x)[2..|x| + 2];
      assert y == Token(y)[2..|y| + 2];
    }
  }

  /** Occurrences of the tokens of two different brace-free labels never overlap. */
  lemma TokensApart(t: string, x: string, y: string, i: nat)
    requires BraceFree(x) && BraceFree(y) && x != y
    requires OccursAt(t, Token(x), i)
    ensures NoneOverlaps(t, Token(y), i, i + |Token(x)|)
  {
    forall j: nat | j < i + |Token(x)| && i < j + |Token(y)|
      ensures !OccursAt(t, Token(y), j)
    {
      if j < i {
        TokenNotInside(t, x, y, i, j);
      } else if i < j {
        TokenNotInside(t, y, x, j, i);
      } else if |x| < |y| {
        TokenNotTogether(t, x, y, i);
      } else if |y| < |x| {
        TokenNotTogether(t, y, x, i);
      } else {
        TokenTogetherSame(t, x, y, i);
      }
    }
  }

  /** An occurrence of `{{x}}` survives each replacement of another brace-free column's token. */
  lemma {:induction false} FilledKeepsToken(template: string, columns: seq<string>, row: Row, c: nat, x: string)
    requires |row| == |columns| && 1 <= c <= |columns|
    requires BraceFree(x) && Occurs(template, Token(x))
    requires forall k | 1 <= k < |columns| :: BraceFree(columns[k]) && columns[k] != x
    ensures Occurs(Filled(template, columns, row, c), Token(x))
    decreases c
  {
    if c > 1 {
      FilledKeepsToken(template, columns, row, c - 1, x);
      var s := Filled(template, columns, row, c - 1);
      var i: nat :| i <= |s| && OccursAt(s, Token(x), i);
      var pat := Token(columns[c - 1]);
      TokensApart(s, x, columns[c - 1], i);
      ReplaceAllKeepsOccurrence(s, pat, Str(row[c - 1]), Token(x), i);
    }
  }

  /**
   * A placeholder `{{x}}` naming no Values column after the first is still in
   * the filled prompt, provided no label involved contains a brace.
   */
  lemma FillKeepsForeignToken(template: string, columns: seq<string>, row: Row, x: string)
    requires |row| == |columns| && 1 <= |columns|
    requires BraceFree(x) && Occurs(template, Token(x))
    requires forall k | 1 <= k < |columns| :: BraceFree(columns[k]) && columns[k] != x
    ensures Occurs(Fill(template, columns, row), Token(x))
  {
    FilledKeepsToken(template, columns, row, |columns|, x);
  }

  // ---------------------------------------------------------------------------
  // Validation and generation

  /** On rectangular sheets, passing validation gives the generator the columns it looks up by name. */
  lemma ValidationEstablishesReadiness(prompts: Table, values: Table, models: Table, parameters: Table)
    requires WellFormed(prompts) && WellFormed(values) && WellFormed(models) && WellFormed(parameters)
    requires Validation.AllPass(prompts, values, models, parameters)
    ensures Ready(prompts, values, models, parameters)
  {
    Validation.AllPassUnfold(prompts, values, models, parameters);
  }

  /** `generate_combinations` fails exactly on its two positional lookups. */
  lemma GenerationErrors(prompts: Table, values: Table, models: Table, parameters: Table)
    requires Ready(prompts, values, models, parameters)
    ensures Combinations(prompts, values, models, parameters) == Err(NoParameterValuesColumn)
        <==> |parameters.columns| < 2
    ensures Combinations(prompts, values, models, parameters) == Err(NoTemplateColumn)
        <==> 2 <= |parameters.columns| && |prompts.rows| > 0 && |prompts.columns| < 2
  {
  }

  /**
   * Validation checks columns by name only, while generation also reads the
   * Parameters values and the Prompts template by position: a one-column
   * Parameters sheet passes every check and generation then raises.
   */
  lemma ValidationAdmitsMissingValuesColumn()
    ensures var prompts := Table([PromptIdColumn, "prompt"], [[Text("p1"), Text("Hi")]]);
      var values := Table([PromptIdColumn], [[Text("p1")]]);
      var models := Table([NameColumn, VersionColumn], [[Text("m"), Text("1")]]);
      var parameters := Table(["parameter"], [[Text("temperature")]]);
      Validation.AllPass(prompts, values, models, parameters) &&
      Combinations(prompts, values, models, parameters) == Err(NoParameterValuesColumn)
  {
    var prompts := Table([PromptIdColumn, "prompt"], [[Text("p1"), Text("Hi")]]);
    var values := Table([PromptIdColumn], [[Text("p1")]]);
    var models := Table([NameColumn, VersionColumn], [[Text("m"), Text("1")]]);
    var parameters := Table(["parameter"], [[Text("temperature")]]);
    assert !HasNull(parameters) by {
      assert forall r, c | 0 <= r < |parameters.rows| && 0 <= c < |parameters.rows[r]| :: parameters.rows[r][c].Text?;
    }
    Validation.AllPassUnfold(prompts, values, models, parameters);
  }

  /** In the same way a Prompts sheet holding only `prompt_id` passes every check and generation raises. */
  lemma ValidationAdmitsMissingTemplateColumn()
    ensures var prompts := Table([PromptIdColumn], [[Text("p1")]]);
      var values := Table([PromptIdColumn], [[Text("p1")]]);
      var models := Table([NameColumn, VersionColumn], [[Text("m"), Text("1")]]);
      var parameters := Table(["parameter", "values"], [[Text("temperature"), Text("0.1,0.9")]]);
      Validation.AllPass(prompts, values, models, parameters) &&
      Combinations(prompts, values, models, parameters) == Err(NoTemplateColumn)
  {
    var prompts := Table([PromptIdColumn], [[Text("p1")]]);
    var values := Table([PromptIdColumn], [[Text("p1")]]);
    var models := Table([NameColumn, VersionColumn], [[Text("m"), Text("1")]]);
    var parameters := Table(["parameter", "values"], [[Text("temperature"), Text("0.1,0.9")]]);
    assert !HasNull(parameters) by {
      assert forall r, c | 0 <= r < |parameters.rows| && 0 <= c < |parameters.rows[r]| :: parameters.rows[r][c].Text?;
    }
    Validation.AllPassUnfold(prompts, values, models, parameters);
  }
}
