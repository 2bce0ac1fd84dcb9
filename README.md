# A verified model of the `constraint` scenario engine

`constraint` builds a random scenario from two YAML documents:
- an **inventory**, a list of item dicts, each with a `description` and optionally a `class`, `categories` and an `odds` weight;
- a **scenario**, a list of **instructions**.

Evaluating an instruction does four things in order. It renders the instruction's strings as templates against the variables set so far. It resolves the instruction's `odds`. It draws one `random()` chance. It then acts on the first selector key the instruction holds:
- `choose_item` / `choose_many_items`: pick one or several inventory items. The items are filtered by `class`, `category` and `not_category`. A list of desired substrings overrides the random choice.
- `choose_text` / `choose_some_of`: pick one or several entries of an inline list.
- `choose_instruction` / `choose_some_instructions`: pick one or several nested instructions and evaluate them.
- `do`: evaluate nested instructions.
- `text`: print a paragraph.

Whatever the key, an instruction may `set` a variable when it takes effect.

The project models the three layers of that engine. Each file below covers one of them or a shared foundation:

- `values.dfy` (module `Values`):
  - the loosely typed YAML value;
  - Python's `in`, `[...]`, `.get`, iteration, arithmetic on `int`/`bool`, and string `+`, each modelled once;
  - Python's exceptions as `Err` results.
- `sequences.dfy` (module `Sequences`): order-preserving selection and subsequences.
- `rng.dfy` (module `Rng`):
  - `roll`, `choose_item`, `maybe_choose_item` and `choose_many_items`;
  - Python's `randint`, `random` and `shuffle` read from a stream of numbers supplied from outside.
- `inventory.dfy` (module `Inventories`): the `Inventory` filters, `select_by_instruction`, and the two selections in which desired substrings override the random choice.
- `interpolate.dfy` (module `Interpolation`): `interpolate`, with the template renderer as a parameter.
- `eval.dfy` (module `Eval`): `eval_set`, the `describe_*` printers, `eval_instruction` and `eval_scenario`.

Each operation that works step by step has three parts:
- a **specification function**, which threads the random-stream position (and, in the evaluator, the variables and the output) explicitly;
- a **method** written like the Python loop, with the same early returns and the same order of checks, proved equal to that function;
- **lemmas** that state what the function computes.

The evaluator is the class `Eval.Evaluator`. Its fields `env` and `log` are updated in place, and it holds the shared `Random` state. Output is an append-only log of `Paragraph` and `Line` events.

`main.py` is an older single-file copy of the same functions. It calls the random helpers without the `rng.` module prefix and some of its type hints differ. Its `Inventory` is a plain class without `__contains__`, while the package's subclasses `Collection` (constraint/inventory.py:32). None of this changes behaviour, so every member below models both copies:

| package | main.py |
|---|---|
| constraint/rng.py:6-41 | main.py:55-90 |
| constraint/eval.py:124-154 | main.py:93-123 |
| constraint/inventory.py:49-105 | main.py:140-196 |
| constraint/eval.py:9-26 | main.py:240-257 |
| constraint/eval.py:29-121 | main.py:322-414 |

The table cites the package lines.

## Model

| member | source | states |
|---|---|---|
| Values.Lookup | constraint/eval.py:42 | a found value is stored under the key; None means no field has the key |
| Values.Keys | constraint/rng.py:20 | iterating a dict yields its keys in order, one per field |
| Values.Chars | constraint/rng.py:20 | iterating a string yields its characters in order |
| Values.MaxSize | constraint/eval.py:97-98 | bounds the size of every element of a list of children |
| Values.IterateNoLarger | constraint/eval.py:103-104 | whatever an instruction's child iterates over is no larger than the child, so nested evaluation terminates |
| Values.MaxSizeOfSubset | constraint/eval.py:92-98 | a selection from a list of children is no larger by size than the list |
| Sequences.Select | constraint/rng.py:37-41 | a masked selection is no longer than its input and holds only its elements |
| Sequences.SelectIsSubsequence | constraint/inventory.py:49-56 | a masked selection is an order-preserving subsequence |
| Sequences.IsSubsequenceTransitive | constraint/inventory.py:58-71 | filtering a filtered list is a subsequence of the original |
| Sequences.SelectMembership | constraint/inventory.py:49-56 | an element is selected exactly when some marked position holds it |
| Sequences.SelectLength | constraint/inventory.py:52-56 | a selection has as many elements as marked positions |
| Sequences.CountComplement | constraint/inventory.py:52-56 | a mask and its complement mark all positions between them |
| Rng.ChanceAt | constraint/rng.py:30 | `random()` lies in [0, 1) |
| Rng.RandIntInRange | constraint/rng.py:6-7 | `randint(1, sides)` lies in [1, sides]; an empty range raises ValueError |
| Rng.RandIntReaches | constraint/rng.py:6-7 | every value in [1, sides] can be rolled |
| Rng.ShufflePermutes | constraint/inventory.py:75-76 | shuffling a copy keeps its length and multiset: it only reorders |
| Rng.Random.RandInt | constraint/rng.py:6-7 | one draw, equal to the stream's `randint`; no draw when the range is empty |
| Rng.Random.Uniform | constraint/rng.py:30 | one draw, equal to the stream's `random()` |
| Rng.Random.Shuffle | constraint/inventory.py:75-76 | Python's Fisher-Yates loop computes the specified shuffle with n-1 draws |
| Rng.Weights | constraint/rng.py:15 | one weight per choice, from `odds` with default 1 |
| Rng.WeightedPick | constraint/rng.py:19-25 | the walk stops at a valid position or at the end |
| Rng.WeightedPickIsFirstReaching | constraint/rng.py:19-23 | the position returned is the first whose running total of weights reaches the roll; none is returned only if no running total reaches it |
| Rng.WeightedPickFindsOne | constraint/rng.py:19-25 | with a roll at most the total, the loop always returns, so its ValueError is unreachable |
| Rng.ChooseItemSpec | constraint/rng.py:11-25 | definition of choose_item: the short-list bypass, one roll in [1, total weight], then the weighted walk; its properties are the four ChooseItem lemmas below |
| Rng.ChooseItemShortBypass | constraint/rng.py:12-13 | an empty list gives None and a one-element list its element, with no roll taken |
| Rng.ChooseItemPicksFirstReaching | constraint/rng.py:15-23 | with two or more choices of positive total, one roll r in [1, total] is taken and the result is the first choice whose running total reaches r |
| Rng.ChooseItemEmptyRange | constraint/rng.py:15-17 | a total weight below 1 makes `randint` raise ValueError |
| Rng.ChooseItemReturnsElement | constraint/rng.py:20-23 | the choice returned is an element of the input |
| Rng.ChooseItem | constraint/rng.py:11-25 | the accumulator loop with early return computes the specified choice and draw count |
| Rng.MaybeChooseItemSpec | constraint/rng.py:29-32 | definition of maybe_choose_item: one gate draw, then choose_item when it passes; see MaybeChooseItemGate |
| Rng.MaybeChooseItemGate | constraint/rng.py:29-32 | a gate draw at or above the odds gives None; odds of at least 1.0 always delegate to choose_item |
| Rng.MaybeChooseItemReturnsElement | constraint/rng.py:29-32 | a returned choice is an element of the input |
| Rng.MaybeChooseItem | constraint/rng.py:29-32 | computes the specified gated choice |
| Rng.RequiredOddsAll | constraint/rng.py:39 | one explicit `odds` per choice, with no default |
| Rng.ChooseManyFrom | constraint/rng.py:37-41 | definition of the choose_many_items loop over a list of choices; characterised by ChooseManyFromKeepsPassing |
| Rng.ChooseManySpec | constraint/rng.py:36-41 | definition of choose_many_items: iterate the value, then the loop; an iteration error is returned before any roll |
| Rng.ChooseManyFromKeepsPassing | constraint/rng.py:36-41 | fails exactly when some choice lacks numeric `odds`, with that error; otherwise it takes one roll per choice and keeps, in order, exactly the choices with roll ≤ odds × adjustment |
| Rng.ChooseManyIsSubsequence | constraint/rng.py:36-41 | the result is an order-preserving subsequence of the input |
| Rng.ChooseManyKeepsCertain | constraint/rng.py:39 | a choice with odds × adjustment ≥ 100 is always kept |
| Rng.ChooseManyKeepsNoneAtZero | constraint/rng.py:39 | with adjustment 0 nothing is kept |
| Rng.ChooseManyNeedsOdds | constraint/rng.py:39 | a choice without `odds` raises KeyError('odds') |
| Rng.ChooseManyReturnsElements | constraint/rng.py:36-41 | every kept choice is an element of the input |
| Rng.ChooseManyItems | constraint/rng.py:36-41 | the append loop computes the specified selection and draw count |
| Inventories.FilterBySelects | constraint/inventory.py:49-56 | a filter fails exactly when its condition raises on some item; otherwise it keeps, in order, the items that pass |
| Inventories.FilterByMembership | constraint/inventory.py:49-56 | an item is kept exactly when it is in the inventory and passes |
| Inventories.Inventory.SelectClass | constraint/inventory.py:49-50 | definition: keeps the items whose `class` equals the name; a missing `class` raises KeyError (properties via Inventory.Filter) |
| Inventories.Inventory.SelectCategory | constraint/inventory.py:52-53 | definition: keeps the items that have `categories` containing the category; see CategoryPartition |
| Inventories.Inventory.SelectNotCategory | constraint/inventory.py:55-56 | definition: keeps the items without `categories` or whose `categories` lack the category; see CategoryPartition and NoCategoriesField |
| Inventories.Inventory.Filter | constraint/inventory.py:49-56 | a new inventory that is an order-preserving subsequence, holding exactly the items that pass; `data` itself is a value and never changes |
| Inventories.ApplyTestsConjunctive | constraint/inventory.py:58-71 | successive filters keep, in order, exactly the items that pass all of them |
| Inventories.SelectByInstructionSpec | constraint/inventory.py:58-71 | definition of select_by_instruction: class, then category, then not_category filters, each only when its key is present; characterised by SelectByInstructionConjunctive |
| Inventories.SelectByInstructionConjunctive | constraint/inventory.py:58-71 | the selection keeps, in order, exactly the items passing every filter the step names |
| Inventories.StringConditionIsSingleton | constraint/inventory.py:64-70 | a string `not_category` acts like a one-element list |
| Inventories.AbsentKeysSelectAll | constraint/inventory.py:58-71 | a step naming none of the three keys selects everything |
| Inventories.CategoryPartition | constraint/inventory.py:52-56 | select_category and select_not_category succeed together, and each item lands in exactly one of them |
| Inventories.NoCategoriesField | constraint/inventory.py:52-56 | an item without `categories` is never selected by category and always by not-category |
| Inventories.SelectByInstruction | constraint/inventory.py:58-71 | the rebinding loop computes the specified selection, including its error order |
| Inventories.SelectNotCategories | constraint/inventory.py:68-70 | the loop over a list-valued `not_category` applies select_not_category once per entry, in order, and fails with the first failing entry |
| Inventories.FirstMatch | constraint/inventory.py:96-98 | definition of the inner search loop; characterised by FirstMatchIsFirst |
| Inventories.FirstRequired | constraint/inventory.py:95-98 | definition of the nested search loops of choose_item_or_required; characterised by FirstRequiredIsFirst |
| Inventories.FirstMatchIsFirst | constraint/inventory.py:96-98 | the inner loop returns the description of the first item containing the substring, or nothing if none does |
| Inventories.FindMatch | constraint/inventory.py:79-81 | the inner search loop returns the specified first match, or nothing, and fails on the first item without a description |
| Inventories.FirstRequiredIsFirst | constraint/inventory.py:95-98 | the nested loops return a description holding the first desired substring, in desired order, that occurs anywhere |
| Inventories.ShufflePreservesDescribed | constraint/inventory.py:92-93 | shuffling changes neither which items are described nor which substrings occur |
| Inventories.ChooseItemOrRequiredSpec | constraint/inventory.py:90-99 | definition of choose_item_or_required: shuffle a copy, search for a desired substring, else maybe_choose_item over the unshuffled data; see RequiredOverridesRandom and NoRequiredFallsBack |
| Inventories.RequiredOverridesRandom | constraint/inventory.py:90-98 | when a desired substring occurs, the result is a matching description for the first such substring, whatever the weights, and no gate draw is taken |
| Inventories.NoRequiredFallsBack | constraint/inventory.py:99-102 | when none occurs, the result is `maybe_choose_item` over the unshuffled items |
| Inventories.ChooseItemOrRequired | constraint/inventory.py:90-99 | the nested loops with early return compute the specified choice |
| Inventories.RequiredMatches | constraint/inventory.py:78-82 | definition of the required pass; characterised by RequiredMatchesInOrder |
| Inventories.AppendNew | constraint/inventory.py:84-87 | definition of the random pass; characterised by AppendNewTail |
| Inventories.ChooseManyIncludingRequiredSpec | constraint/inventory.py:73-88 | definition of choose_many_items_including_required; characterised by ChooseManyIncludingRequiredShape and ChooseManyIncludingRequiredTail |
| Inventories.RequiredMatchesInOrder | constraint/inventory.py:78-82 | one description per desired substring that occurs, in desired order; unmatched substrings add nothing |
| Inventories.AppendNewAddsOnlyNew | constraint/inventory.py:84-88 | the random pass keeps the required matches, adds only descriptions absent when added, and includes every picked item's description |
| Inventories.AppendNewAddsOnlyPicked | constraint/inventory.py:84-88 | every description the random pass adds is the description of one of the picked items |
| Inventories.AppendNewTail | constraint/inventory.py:84-88 | the random pass keeps the list so far as its prefix and appends exactly the picked items' descriptions that the list does not already hold |
| Inventories.ChooseManyIncludingRequiredShape | constraint/inventory.py:73-88 | the list starts with one description per occurring desired substring, in desired order; after it, no description repeats and none equals a required match |
| Inventories.ChooseManyIncludingRequiredTail | constraint/inventory.py:73-88 | after the required matches come exactly the descriptions of the items the random pass keeps (one d100 roll per item, after the shuffle's draws) that are not already required matches |
| Inventories.OccurringAgrees | constraint/inventory.py:75-76 | the substrings that occur do not depend on item order |
| Inventories.DuplicateRequiredMatches | constraint/inventory.py:78-82 | two desired substrings matching one item add its description twice |
| Inventories.ChooseManyIncludingRequired | constraint/inventory.py:73-88 | the loops with `break` compute the specified list |
| Interpolation.Interpolate | constraint/eval.py:9-26 | definition of interpolate: strings rendered, dict values rendered except under `do`, `choose_instruction` and `choose_some_instruction`, lists element by element, other values unchanged; see InterpolateKeepsShape, InterpolatedField and PlainRenderIsIdentity |
| Interpolation.InterpolateFields | constraint/eval.py:15-22 | a dict keeps its number of fields |
| Interpolation.InterpolateList | constraint/eval.py:23-24 | a list keeps its length |
| Interpolation.ShapeOfFields | constraint/eval.py:15-22 | the shape of a dict keeps its keys in order |
| Interpolation.InterpolateKeepsShape | constraint/eval.py:9-26 | the result has the same dict keys in order, the same list lengths, the same non-string scalars and the same size |
| Interpolation.InterpolateFieldsKeepShape | constraint/eval.py:14-22 | dict fields keep their shape and size |
| Interpolation.InterpolateListKeepsShape | constraint/eval.py:23-24 | list elements keep their shape and size |
| Interpolation.InterpolatedField | constraint/eval.py:17-21 | values under `do`, `choose_instruction` and `choose_some_instruction` are unchanged; values under every other key are interpolated |
| Interpolation.PlainRenderIsIdentity | constraint/eval.py:11-13 | a renderer that returns every template unchanged leaves an instruction unchanged |
| Eval.EvalSetSpec | constraint/eval.py:111-121 | definition of eval_set; characterised by EvalSetCases, EvalSetOverrides and LastWriteWins |
| Eval.EvalSetOverrides | constraint/eval.py:111-121 | eval_set writes at most one variable, the same whatever the environment, and never removes one |
| Eval.EvalSetCases | constraint/eval.py:111-121 | no `set` leaves env unchanged; `set: s` makes s True; `set: {name, value}` binds name to value |
| Eval.LastWriteWins | constraint/eval.py:111-121 | of two sets of the same variable, the later wins |
| Eval.ResolveOdds | constraint/eval.py:44-50 | definition of the odds resolution; characterised by OddsResolution |
| Eval.Gate | constraint/eval.py:90 | definition of the gate `odds == 100 or chance < odds / 100`, shared by choose_some_instructions, do and text; used by DoGateAndOrder and ChooseSomeInstructionsGateFirst |
| Eval.OddsResolution | constraint/eval.py:44-50 | absent odds are 100; a string is looked up in env, and an unbound name is KeyError; None becomes 100 |
| Eval.DescribeItemSpec | constraint/eval.py:139-143 | definition of describe_item's output; characterised by DescribeItemCases |
| Eval.DescribeItemCases | constraint/eval.py:139-143 | no item, or one named "none", prints nothing; a description string reaches `item['description']` and raises TypeError; a present dict item not named "none", with a string prefix and a string description, prints exactly the paragraph `prefix + ' ' + description`; any output is a single paragraph |
| Eval.ItemLines | constraint/eval.py:152-153 | definition of describe_items' line loop; characterised by LinesPerEntry |
| Eval.DescribeItemsSpec | constraint/eval.py:146-154 | definition of describe_items' output: nothing for an empty selection, else the heading then the lines |
| Eval.EntryLines | constraint/eval.py:135-136 | definition of describe_many's line loop; characterised by EntryLinesPerEntry |
| Eval.DescribeManySpec | constraint/eval.py:131-136 | definition of describe_many's output; characterised by DescribeManyShape |
| Eval.DescribeChoiceSpec | constraint/eval.py:124-128 | definition of describe_choice's output; characterised by DescribeChoiceCases |
| Eval.LinesPerEntry | constraint/eval.py:146-154 | one `'  - '` line per entry, in order; it fails exactly when an entry is not a string |
| Eval.EntryLinesPerEntry | constraint/eval.py:135-136 | line i is `'  - '` followed by entry i's `text`; the loop fails exactly when some entry has no string `text` |
| Eval.DescribeManyShape | constraint/eval.py:131-136 | the heading is printed exactly when it is truthy and the selection non-empty, and only first; then one line per entry, in order; fails exactly when an entry has no string `text` |
| Eval.DescribeChoiceCases | constraint/eval.py:124-128 | a truthy prefix gives one paragraph `prefix + ' ' + text`, a falsy one the text alone; with a truthy prefix, a non-string prefix or a non-string text raises TypeError; a missing `text` raises KeyError |
| Eval.At | constraint/eval.py:83 | a child under a key is smaller than its instruction |
| Eval.ChildSmaller | constraint/eval.py:82-88 | the chosen nested instruction is smaller than its parent |
| Eval.ChildrenSmaller | constraint/eval.py:89-104 | nested instructions evaluated in a loop are smaller than their parent |
| Eval.Exec | constraint/eval.py:38-40 | definition of eval_instruction: interpolate against the current env, then dispatch; see ExecGrows |
| Eval.Dispatch | constraint/eval.py:42-58 | definition of the preamble: not a dict raises AttributeError, `text` via `.get`, odds resolved, one chance draw; see DispatchGrows and NoSelectorKeyOnlyDraws |
| Eval.Branch | constraint/eval.py:60-108 | definition of the if-chain: the first selector key present, in source order, decides; see BranchGrows |
| Eval.ExecChooseItem | constraint/eval.py:60-64 | definition of the choose_item branch; see ChooseItemSetsOnlyWhenShown and RequiredItemCrashes |
| Eval.ExecChooseManyItems | constraint/eval.py:65-69 | definition of the choose_many_items branch; see ChooseManyItemsSetsOnlyWhenShown |
| Eval.ExecChooseText | constraint/eval.py:70-75 | definition of the choose_text branch; see ChooseTextEntryWins |
| Eval.ExecChooseSomeOf | constraint/eval.py:76-81 | definition of the choose_some_of branch; see ChooseSomeOfGrows |
| Eval.ExecChooseInstruction | constraint/eval.py:82-88 | definition of the choose_instruction branch; see ChooseInstructionGrows |
| Eval.ExecChooseSomeInstructions | constraint/eval.py:89-98 | definition of the choose_some_instructions branch; see ChooseSomeInstructionsGateFirst |
| Eval.ExecDo | constraint/eval.py:99-104 | definition of the do branch; see DoGateAndOrder |
| Eval.ShowText | constraint/eval.py:105-108 | definition of the text branch: behind the gate, one paragraph then `set` |
| Eval.ExecSeq | constraint/eval.py:103-104 | definition of the loop over children on the threaded state; see ExecSeqAppend and ExecSeqGrows |
| Eval.ExecScenario | constraint/eval.py:29-35 | definition of eval_scenario; see ScenarioRunsInOrder |
| Eval.ExecSeqAppend | constraint/eval.py:34-35 | evaluating a + b is evaluating a, then b on the state a left |
| Eval.ScenarioRunsInOrder | constraint/eval.py:29-35 | a scenario prints "Instructions:", starts from an empty env, and runs its instructions in order, each seeing the earlier sets |
| Eval.ExecGrows | constraint/eval.py:38-108 | evaluation only appends output and never removes a variable |
| Eval.DispatchGrows | constraint/eval.py:42-58 | the same, after interpolation |
| Eval.BranchGrows | constraint/eval.py:60-108 | the same, for whichever branch runs |
| Eval.SetGrows | constraint/eval.py:111-121 | eval_set keeps every variable |
| Eval.ChooseItemGrows | constraint/eval.py:60-64 | the choose_item branch only adds |
| Eval.ChooseManyItemsGrows | constraint/eval.py:65-69 | the choose_many_items branch only adds |
| Eval.ChooseTextGrows | constraint/eval.py:70-75 | the choose_text branch only adds |
| Eval.ChooseSomeOfGrows | constraint/eval.py:76-81 | the choose_some_of branch only adds |
| Eval.ChooseInstructionGrows | constraint/eval.py:82-88 | the choose_instruction branch only adds, including its nested instruction |
| Eval.ChooseSomeInstructionsGrows | constraint/eval.py:89-98 | the choose_some_instructions branch only adds, including its children |
| Eval.DoGrows | constraint/eval.py:99-104 | the do branch only adds, including its children |
| Eval.ExecSeqGrows | constraint/eval.py:97-98 | a loop over children only adds |
| Eval.NoSelectorKeyOnlyDraws | constraint/eval.py:58-108 | an instruction with none of the eight selector keys only takes its chance draw |
| Eval.ChooseItemSetsOnlyWhenShown | constraint/eval.py:60-64 | `set` is applied exactly when describe_item printed its paragraph; with no item only the draws are taken |
| Eval.ChooseManyItemsSetsOnlyWhenShown | constraint/eval.py:65-69 | `set` is applied exactly when the selection is non-empty: an empty one only advances the draws, a non-empty one prints the heading and one line per description, then sets |
| Eval.RequiredItemCrashes | constraint/eval.py:60-64 | when a desired substring occurs among eligible items, choose_item raises TypeError in describe_item |
| Eval.ChooseTextEntryWins | constraint/eval.py:73-75 | the chosen entry's `set` is applied after the instruction's, so it wins on a shared name |
| Eval.DoGateAndOrder | constraint/eval.py:99-104 | with the gate closed nothing changes; with it open, the text is printed, `set` applied, and the children run in order on the shared state |
| Eval.ChooseSomeInstructionsGateFirst | constraint/eval.py:89-98 | the gate is checked before drawing (closed: nothing changes); the chosen children then run in list order on the shared state |
| Eval.Evaluator.constructor | constraint/eval.py:29-32 | a fresh evaluator has an empty env and no output |
| Eval.Evaluator.EvalSet | constraint/eval.py:111-121 | the in-place write leaves env as the specified eval_set result, output unchanged |
| Eval.Evaluator.DescribeItem | constraint/eval.py:139-143 | prints the specified paragraph and returns whether it printed |
| Eval.Evaluator.DescribeItems | constraint/eval.py:146-154 | prints the specified heading and lines and returns whether the selection was non-empty |
| Eval.Evaluator.WriteItemLines | constraint/eval.py:152-153 | the println loop writes exactly the specified lines, or fails as specified |
| Eval.Evaluator.WriteEntryLines | constraint/eval.py:135-136 | the println loop writes exactly the specified lines, or fails as specified |
| Eval.Evaluator.DescribeChoice | constraint/eval.py:124-128 | appends exactly `DescribeChoiceSpec`'s paragraph, or fails with its error |
| Eval.Evaluator.DescribeMany | constraint/eval.py:131-136 | appends exactly `DescribeManySpec`'s heading and lines, or fails with its error |
| Eval.Evaluator.EvalInstruction | constraint/eval.py:38-108 | the in-place evaluation leaves env, output and draws as the specification says |
| Eval.Evaluator.EvalInterpolated | constraint/eval.py:42-108 | odds, one chance draw, then the first branch whose key is present |
| Eval.Evaluator.EvalBranch | constraint/eval.py:60-108 | the if-chain tests the selector keys in source order and runs the first present one, or does nothing |
| Eval.Evaluator.ChooseItemBranch | constraint/eval.py:60-64 | the error, or on success the new env, log and draw position, equals `ExecChooseItem` |
| Eval.Evaluator.ChooseManyItemsBranch | constraint/eval.py:65-69 | the error, or on success the new env, log and draw position, equals `ExecChooseManyItems` |
| Eval.Evaluator.ChooseTextBranch | constraint/eval.py:70-75 | the error, or on success the new env, log and draw position, equals `ExecChooseText` |
| Eval.Evaluator.ChooseSomeOfBranch | constraint/eval.py:76-81 | the error, or on success the new env, log and draw position, equals `ExecChooseSomeOf` |
| Eval.Evaluator.ChooseInstructionBranch | constraint/eval.py:82-88 | the error, or on success the new env, log and draw position, equals `ExecChooseInstruction`, recursing into the chosen instruction |
| Eval.Evaluator.ChooseSomeInstructionsBranch | constraint/eval.py:89-98 | the error, or on success the new env, log and draw position, equals `ExecChooseSomeInstructions`, looping over the chosen children |
| Eval.Evaluator.DoBranch | constraint/eval.py:99-104 | the error, or on success the new env, log and draw position, equals `ExecDo`, looping over the children |
| Eval.Evaluator.TextBranch | constraint/eval.py:105-108 | the error, or on success the new env, log and draw position, equals `ShowText` |
| Eval.Evaluator.EvalEach | constraint/eval.py:97-98 | the loop over children equals their sequential evaluation |
| Eval.Evaluator.EvalScenario | constraint/eval.py:29-35 | the loop over a scenario's instructions equals the specified scenario run |

## Left out

- Randomness: Python's PRNG is not modelled. Every `randint`, `random()` and shuffle step takes the next number of a stream supplied from outside.
  - randint(1, n) is `1 + x mod n`.
  - random() is `(x mod 2^53) / 2^53`.
  - Shuffle is Python's Fisher-Yates loop with `j = x mod (i + 1)`.
  - The `seed` call is not modelled.
- Floating point: odds are integer percentages. `roll <= odds * adjustment` becomes `100 * roll <= odds * pct`, and the gate `chance < odds / 100` compares exact reals. Float rounding and float-valued odds are not modelled.
- Template rendering: Jinja2 is not modelled. `render(s, env)` is a function parameter.
- Output: `print_paragraph`/`println` record `Paragraph`/`Line` events. Wrapping, blank lines between paragraphs, and the `splitlines` failure on a non-string message are not modelled. A falsy paragraph text is still recorded as an event, although the terminal prints nothing for it.
- Errors: an exception is modelled as an `Err` result. The output written and variables set before it are not reported, and the `Evaluator` methods state their new state only on success.
- Python equality and hashing: `1 == True` and the other cross-type equalities are not reproduced. `Int(1)` and `Bool(true)` are different values and different variable names.
- Dict keys: a dict is a list of fields, and lookups take the first field with the key. Uniqueness of keys is not enforced.
- Dict keys that are not strings: a `Field` key is a string, so a YAML mapping with keys such as `1:` or `true:` cannot be represented, and `In` answers false for any non-string key, where Python's `in` and `[...]` would find such a key.
- Dict equality: Python's `==`, and `in` on a list, compare dicts regardless of key order. The model compares `Dict` values field by field in order. So for dict-valued classes or categories, `x['class'] == classname` and `category in x['categories']` (constraint/inventory.py:50-56) treat two dicts with the same fields in a different order as different.
- Loaders, command line and scenario pick: the loaders, the command line and the top-level scenario pick (the package's cli.py and scenario.py, and main.py's `run` and its `__main__` block at main.py:417) are not part of this model. Neither is jsonschema validation or `Output`. The scenario pick is `choose_item`, which is modelled.
- Inventory.choose_item and Inventory.choose_many_items (constraint/inventory.py:101-105): these one-line delegations are used as `MaybeChooseItemSpec`/`ChooseManySpec` applied to `List(inv.data)`.
- Inventory.__contains__, __iter__ and __len__: these are covered by the sequence operations on `data`.
- Inventories.ChooseManyIncludingRequiredTail: it states which descriptions follow the required matches, not their order (the order in which the kept items first show them).
- Eval.ExecSeqAppend, Eval.DoGateAndOrder and Eval.ChooseSomeInstructionsGateFirst: they state the order of nested evaluation for children given as a Python list. A dict or string under `do` is iterated by keys or characters, as `Iterate` says, but no ordering lemma is stated for those cases.

## Code and design

`choose_many_items` can list a description twice. The required pass (constraint/inventory.py:78-82) appends one description per matching desired substring without checking for repeats; only the random pass (constraint/inventory.py:84-87) skips descriptions already in the list. `Inventories.DuplicateRequiredMatches` shows the repeat: the desired substrings `cuff` and `hand` both match an item described as `handcuffs`, and its description is listed twice. `Inventories.ChooseManyIncludingRequiredShape` and `Inventories.ChooseManyIncludingRequiredTail` state what does hold: no repeats among the descriptions the random pass adds, none of them equal to a required match, and exactly the kept items' new descriptions among them.
