# Spreadsheet validator and combination generator — a verified model

`app.py` takes four sheets of a workbook: Prompts, Values, Models and Parameters.
`validate_data` checks that the sheets have the columns the generator needs.
`generate_combinations` emits one output row for every combination of:

- a prompt;
- a Values row carrying that prompt's `prompt_id`;
- a model;
- one choice of value for each parameter.

Each row holds the prompt id, the model's Name and Version, the chosen parameter values and the prompt template with the Values row substituted into its `{{column}}` placeholders.

The model is in six modules:

- `Wrappers`: `Option` and `Result`.
- `Tables`: a sheet is a list of column labels and a list of rows of cells. A cell is text or missing (pandas' NaN).
- `Strings`: Python's `sep.join`, `str.split`, `str.replace` and `str.count`, scanned left to right without overlap.
- `Products`: `itertools.product`, with its odometer order.
- `Validation`: `validate_data`. The method `ValidateData` appends to the error list in the source's chain of `if`s. The functions beside it describe the list it builds.
- `Generation`: `generate_combinations`.
  - One method per nested loop of the source: `EmitAllPrompts`, `EmitPromptRows`, `EmitValueRows`, `EmitModelRows` and `EmitSetRows`. `FillTemplate` is the substitution loop.
  - Each method is proved against a function that describes what it emits as consecutive blocks, one block per loop iteration (`PromptRows`, `ValueRows`, `ModelRows`, `SetRows`, `Fill`).
  - `Combinations` is the whole function, including its two `IndexError` exits.
- `GenerationProperties`: what the output promises. This covers the row count, the row order, the row shape, the parameter sets, template filling and the link to validation.

The generator's precondition `Ready` is what `validate_data` guarantees: `prompt_id`, `Name` and `Version` columns. It also requires rectangular sheets, which a DataFrame always is. `ValidationEstablishesReadiness` connects the two.

Two of the generator's failure modes survive validation, because `validate_data` does not check them:

- a Parameters sheet whose only column is the names, which fails at `parameters.iloc[:, 1]`;
- a Prompts sheet whose only column is `prompt_id`, which fails at `prompt_row[1]`.

The lemmas `ValidationAdmitsMissingValuesColumn` and `ValidationAdmitsMissingTemplateColumn` each exhibit such a workbook. The model treats both failure modes as error results (`GenError`).

Two lookups in the generator go by position rather than by name:

- Substitution runs over `values.columns[1:]`, that is, every Values column after the first. A `prompt_id` column that is not first is itself substituted, and the first column is not.
- The template is the Prompts cell at position 1, whatever that column is called.

## Model

| member | source | states |
|---|---|---|
| Validation.ValidateData | app.py:6-18 | Returns None exactly when the sheets have prompt_id columns, Name and Version on Models, and a non-empty, null-free Parameters sheet. Otherwise it returns the newline-joined failure messages, which are never empty. |
| Validation.AllPassUnfold | app.py:9-16 | "All checks pass" means, spelled out, the four column and emptiness conditions of the source's `if`s. |
| Validation.FailedChecksUnfold | app.py:9-16 | The failed checks are exactly those whose condition fails, each in the source's position. |
| Validation.ErrorsUnfold | app.py:9-16 | The message list holds, in order, one message for each failed check: Prompts, Values, Models, Parameters. |
| Validation.ErrorsAreFailedChecksInOrder | app.py:9-16 | There are as many messages as failed checks (0 to 4). They are the failed checks' messages, listed in check order. |
| Validation.FailedMembers | app.py:9-16 | A check is among the failed ones iff it is one of the checks and its condition fails. |
| Validation.FailedKeepsOrder | app.py:9-16 | Filtering out the passing checks keeps the checks in their reporting order. |
| Validation.DistinctCardinality | app.py:9-16 | Checks listed in strict reporting order are pairwise distinct. |
| Validation.ModelsMessageOnce | app.py:13-14 | The Models message occurs once if Name or Version (or both) is missing, and not at all otherwise. |
| Validation.ParametersMessageExactly | app.py:15-16 | The Parameters message is reported iff the Parameters sheet is empty or has a missing cell. |
| Validation.MessageHasNoNewline | app.py:10-16 | No message contains a newline. |
| Validation.PromptsMessageIsOneLine | app.py:10 | The Prompts message contains no newline. |
| Validation.ValuesMessageIsOneLine | app.py:12 | The Values message contains no newline. |
| Validation.ModelsMessageIsOneLine | app.py:14 | The Models message contains no newline. |
| Validation.ParametersMessageIsOneLine | app.py:16 | The Parameters message contains no newline. |
| Validation.ErrorsHaveNoNewline | app.py:18 | No collected message contains a newline, so the joined report can be split back apart. |
| Validation.ReportSplitsIntoMessages | app.py:18 | Splitting the report at "\n" gives back exactly the collected messages, so there is no trailing separator. |
| Strings.Split | app.py:23 | `str.split` returns at least one piece. |
| Strings.SplitLength | app.py:23 | `split(',')` gives one more piece than there are commas. |
| Strings.JoinSplitRoundTrip | app.py:18 | Joining the split pieces with the separator gives back the string. |
| Strings.SplitJoinRoundTrip | app.py:18 | Splitting a join of separator-free pieces gives back the pieces. |
| Strings.SplitAtFirstSeparator | app.py:18 | Splitting `x + sep + y` with separator-free `x` gives `x` first. |
| Strings.SplitWithoutOccurrence | app.py:23 | A value without a comma splits into itself alone. |
| Strings.AbsentCharDoesNotOccur | app.py:18 | A one-character separator absent from a string does not occur in it. |
| Strings.ReplaceAllIsJoinOfSplit | app.py:34 | `replace(pat, rep)` equals `rep.join(s.split(pat))`. |
| Strings.ReplaceAllLength | app.py:34 | Each counted occurrence changes the length by the replacement's length minus the pattern's. |
| Strings.ReplaceAllWithoutOccurrence | app.py:34 | A string without the pattern is left unchanged. |
| Strings.ReplaceAllBySelf | app.py:34 | Replacing a pattern by itself leaves the string unchanged. |
| Strings.ReplaceAllCopies | app.py:34 | A prefix at which no occurrence of the pattern starts is copied through unchanged. |
| Strings.ReplaceAllSplice | app.py:34 | A stretch that no occurrence overlaps is kept. What lies before and after it is replaced independently. |
| Strings.ReplaceAllKeepsOccurrence | app.py:34 | An occurrence of `q` that no occurrence of the pattern overlaps is still in the result, after the replaced prefix. |
| Strings.OccursInSuffix | app.py:34 | An occurrence in a suffix is an occurrence in the whole string, shifted by the suffix's start. |
| Strings.NoneOverlapsSuffix | app.py:34 | "No occurrence overlaps positions lo..hi" carries over to a suffix, shifted. |
| Products.ProductLength | app.py:24 | The number of parameter sets is the product of the list lengths. |
| Products.ProductAt | app.py:24 | Element a of the first list with tuple b of the rest's product sits at a times the rest's product size plus b, so the first parameter varies slowest. |
| Products.ProductSound | app.py:24 | Every tuple has one element per list, and element i comes from list i. |
| Products.ProductComplete | app.py:24 | Every choice of one element per list is a tuple of the product. |
| Products.ProductNonEmpty | app.py:24 | With no empty list, the product is non-empty. |
| Products.ExtendLength | app.py:24 | One product step has (number of heads) times (number of tails) tuples. |
| Products.ExtendAt | app.py:24 | In one product step, head a with tail b is at position a times the number of tails, plus b. |
| Products.ExtendMembers | app.py:24 | Each tuple of a product step is a head followed by a tail. |
| Products.SizePositive | app.py:24 | The product of the lengths of non-empty lists is positive. |
| Tables.ColumnIndex | app.py:27 | `row[name]` finds the first column labelled `name`. |
| Generation.FillTemplate | app.py:32-34 | The loop leaves `Fill` of the template: one `replace` per column in `values.columns[1:]`, in column order. |
| Generation.MatchingMembers | app.py:30 | The rows selected by `values["prompt_id"] == id` are the sheet's rows whose cell is text equal to the id. |
| Generation.MatchedValues | app.py:30 | The selected rows keep one cell per Values column. |
| Generation.ModelsOf | app.py:36-41 | There is one model per Models row. |
| Generation.PromptIds | app.py:26-27 | There is one id per Prompts row. |
| Generation.AllFills | app.py:26-34 | There is one list of filled prompts per Prompts row. |
| Generation.ConcatStep | app.py:38 | Appending one more iteration's block extends the emitted rows by exactly that block. |
| Generation.SetRowsStep | app.py:37-38 | Appending the row of one more parameter set extends the emitted rows by exactly that row. |
| Generation.EmitSetRows | app.py:37-44 | The parameter-set loop appends one row per set, in product order, after the rows already emitted. |
| Generation.EmitModelRows | app.py:36-44 | The model loop appends, per model in sheet order, that model's block of parameter-set rows. |
| Generation.EmitValueRows | app.py:31-44 | The matched-values loop appends, per matched Values row, the rows of its filled prompt for every model. |
| Generation.EmitPromptRows | app.py:27-44 | One prompt contributes the rows of its id, its matched Values rows and its template. |
| Generation.EmitAllPrompts | app.py:21-44 | The prompt loop emits the blocks of every prompt in sheet order, starting from an empty list. |
| Generation.GenerateCombinations | app.py:20-47 | Gives the `Combinations` result: both `IndexError` exits, or the schema columns with every prompt's rows. |
| GenerationProperties.GenerationErrors | app.py:22-28 | Generation fails, for Parameters, iff the sheet has fewer than two columns. It fails, for the template, iff Parameters is fine and Prompts has rows but a single column. |
| GenerationProperties.OutputRows | app.py:38-47 | When both positional lookups succeed, the output rows are the emitted blocks in loop order. |
| GenerationProperties.CombinationCount | app.py:22-44 | The row count is the number of matched Values rows summed over the prompts, times the number of models, times the product of the parameter list lengths. |
| GenerationProperties.PromptRowsLength | app.py:26-44 | All prompt blocks together have the matched-value count times models times sets rows. |
| GenerationProperties.PromptRowsBefore | app.py:26-44 | The prompts before p account for their matched-value count times models times sets rows. |
| GenerationProperties.ValueRowsLength | app.py:31-44 | One prompt emits its matched-value count times models times sets rows. |
| GenerationProperties.ModelRowsLength | app.py:36-44 | One filled prompt emits models times sets rows. |
| GenerationProperties.FillsPerMatch | app.py:30-32 | A prompt has one filled prompt per matched Values row. |
| GenerationProperties.MatchesBeforeFillCount | app.py:26-32 | The matched rows counted over the first i prompts equal the filled prompts produced for them. |
| GenerationProperties.ConcatUniform | app.py:26-44 | n blocks of one common size s make n * s rows. |
| GenerationProperties.ConcatScaled | app.py:26-44 | Blocks of size `n_i * s` make `(sum of n_i) * s` rows. |
| GenerationProperties.ConcatAt | app.py:26-44 | Row `off` of block p sits right after all rows of the earlier blocks. |
| GenerationProperties.PromptRowsAt | app.py:26-44 | Row ((matches before p + v) * models + m) * sets + t is (id of p, model m's Name and Version, set t, filled prompt v of p). This is the lexicographic order, and the filled prompt does not depend on m or t. |
| GenerationProperties.ValueRowsAt | app.py:31-44 | Within one prompt, row (v * models + m) * sets + t is for matched row v, model m and set t, with filled prompt v. |
| GenerationProperties.ModelRowsAt | app.py:36-44 | Within one filled prompt, row m * sets + t is model m with set t, and every such row carries the same filled prompt. |
| GenerationProperties.FillsAt | app.py:27-34 | The id of prompt p is its prompt_id cell. Its v-th filled prompt is `Fill` of its template with its v-th matched Values row. |
| GenerationProperties.ModelAt | app.py:40-41 | Model m carries the cells of row m under Name and Version. |
| GenerationProperties.NoMatchNoRows | app.py:30-31 | A prompt with no matching Values row contributes an empty block, leaving the rows emitted so far unchanged. |
| GenerationProperties.MissingIdMatchesNothing | app.py:30 | A missing (NaN) prompt id matches no Values row. |
| GenerationProperties.MatchingMissing | app.py:30 | Selecting by a missing id selects nothing. |
| GenerationProperties.MatchedValuesExactly | app.py:30 | A row is selected iff it is a Values row whose prompt_id cell is text equal to the prompt's id. |
| GenerationProperties.MatchingAppend | app.py:30 | Selection distributes over concatenation, so the selected rows keep the sheet's order. |
| GenerationProperties.ToRowShape | app.py:38-44 | A row is id, Name, Version, the k parameter values, then the filled prompt: length 3 + k + 1. |
| GenerationProperties.OutputWellFormed | app.py:38-47 | Every output row has exactly one cell per output column, so it matches the schema `prompt_id, model_name, model_version, names..., filled_prompt`. |
| GenerationProperties.ModelRowsParameters | app.py:37-43 | Each row for one filled prompt carries one of the parameter sets. |
| GenerationProperties.ValueRowsParameters | app.py:31-43 | Each row for one prompt carries one of the parameter sets. |
| GenerationProperties.PromptRowsParameters | app.py:26-43 | Each output row carries one of the parameter sets. |
| GenerationProperties.ConcatParameters | app.py:26-43 | If every block's rows carry parameter sets from the list, so do all of them together. |
| GenerationProperties.ParameterSetsNonEmpty | app.py:23-24 | A Parameters sheet with a values column yields at least one parameter set, because every split list is non-empty. |
| GenerationProperties.ParameterSetsCount | app.py:23-24 | There is one list per parameter row, with commas + 1 entries, and as many sets as the product of the list lengths. |
| GenerationProperties.ParameterSetsExactly | app.py:23-24 | A list is a parameter set iff it has one entry per parameter and entry i is a piece of parameter i's split values. |
| GenerationProperties.FilledWithoutTokens | app.py:32-34 | With none of the `{{col}}` tokens present, each substitution step leaves the template unchanged. |
| GenerationProperties.FillWithoutTokens | app.py:32-34 | A template holding none of the `{{col}}` tokens of `values.columns[1:]` comes out unchanged. |
| GenerationProperties.FillKeepsForeignToken | app.py:32-34 | A placeholder `{{x}}` naming no column of `values.columns[1:]` is still in the filled prompt, when no label contains a brace. |
| GenerationProperties.FilledKeepsToken | app.py:32-34 | Such a placeholder survives each substitution step. |
| GenerationProperties.TokensApart | app.py:34 | Occurrences of the tokens of two different brace-free labels never overlap. |
| GenerationProperties.TokenNotInside | app.py:34 | A brace-free label's token cannot start strictly inside another's. |
| GenerationProperties.TokenNotTogether | app.py:34 | Tokens of brace-free labels of different lengths cannot start at the same place. |
| GenerationProperties.TokenTogetherSame | app.py:34 | Tokens of equal-length labels starting at the same place belong to the same label. |
| GenerationProperties.TokenChars | app.py:34 | `f"{{{{{col}}}}}"` is two `{`, the label, then two `}`. |
| GenerationProperties.CharOfOccurrence | app.py:34 | Inside an occurrence, the text holds the pattern's characters. |
| GenerationProperties.ValidationEstablishesReadiness | app.py:9-14 | Passing validation gives the generator the prompt_id, Name and Version columns it looks up by name. |
| GenerationProperties.ValidationAdmitsMissingValuesColumn | app.py:15-23 | A workbook that passes validation can still have no parameter values column, and generation then fails. |
| GenerationProperties.ValidationAdmitsMissingTemplateColumn | app.py:28 | A workbook that passes validation can still have a Prompts sheet without a template column, and generation then fails. |

## Left out

- The Streamlit page (app.py:49-94) is not modelled: the sample-file download, the upload, the previews and the download buttons. This is user interface and I/O.
- Reading the workbook with `pd.ExcelFile` / `pd.read_excel` (app.py:57-66) is not modelled, because it is foreign library code. A sheet is given as a `Table` of already-read cells.
- The check that the four sheets exist (app.py:58-61) is not modelled, because it is script glue over the workbook's sheet names.
- `pd.DataFrame(results, columns=columns)` (app.py:47) is modelled as a `Table` of the output columns and rows. The CSV and JSON export (app.py:89, 92-93) is library encoding and is not modelled.
- pandas cell typing is not modelled. A cell is text or missing, and `str()` of a number (`0.5`, `1.0`) is not modelled: cells already hold their text. A missing cell's text is "nan". A missing prompt id equals nothing, like NaN under pandas `==`. Selecting by any other text id is plain string equality.
- Generation.ModelsOf: the model reads a model's Name and Version once per Models row, not once per (value row, model) iteration. The cells are the same either way, as `ModelAt` states.
- Generation.Combinations: the `IndexError` at `prompt_row[1]` is decided before the prompt loop, from the Prompts column count. That is the same condition the loop would hit on its first row. Rows emitted before the failure are never returned, because the exception discards them.
- Generation.Combinations: with duplicate column labels, `row[name]` in pandas returns several cells. The model's lookups by name (`prompt_id`, `Name`, `Version`) take the first column with that label. The substitution loop reads each Values cell by its own position, as if labels were distinct. The model does not capture the multi-line text that `str()` gives for a duplicated label's cells.
- Filling a template is not idempotent, and no such property is claimed. A substitution can create a new placeholder out of the surrounding text. For example, replacing `{{a}}` by the empty string in `{{{{a}}a}}` leaves `{{a}}`.
- GenerationProperties.FillKeepsForeignToken: this is proved only for labels without braces. A Values column labelled `b}}{{a` has a token that contains `{{a}}`, and substituting it can delete that placeholder.
- Generation.EmitAllPrompts: the output list grows by appending in the four nested loops. The model keeps that list as a sequence value that each loop method extends and returns, rather than as one shared mutable list.
