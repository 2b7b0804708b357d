# AHP platform bookkeeping, modelled in Dafny

This project models the deterministic core of the AHP (Analytic Hierarchy
Process) platform. The platform is a Streamlit application. Users enter
criteria and alternatives, compare them pairwise on Saaty's 1/9 … 9
scale, save and load sessions as JSON, merge the ballots of several
experts, and read a consistency report. The numerical work (the
eigenvector solve in numpy and the hierarchy composition in `ahpy`)
happens in libraries. It is an input here, not part of the model.

The model covers two source files.

- **`web_app.py`**:
  - the Saaty scale tables;
  - parsing the criteria and alternative texts, with the duplicate check;
  - the flat judgment key `prefix_a_b`;
  - the session state as a class:
    - `create_comparison`, which stores the default 1, picks the nearest label and records the slider;
    - the export filter of `get_session_data`;
    - the wipe-and-replace of `load_session_data`;
  - the expert merge of `aggregate_expert_data`;
  - the comparison dictionaries and profile vectors built by `calculate_ahp`;
  - the selection logic of `get_ai_analysis`.
- **`calculate_weights.py`**:
  - Saaty's Random Index table;
  - CI and CR with the `RI == 0` guard;
  - eigenvector normalisation;
  - the `CR < 0.10` verdict.

Modules, one per concern:

- `Wrappers`: the `Option` type.
- `Json`: the JSON value type and `dict.get(k, 1)`.
- `PyStr`: Python's `str.strip`, `str.split` and `str.startswith`.
- `Collections`: `len(set(xs))` and dict key order.
- `SaatyScale`: the scale tables and the nearest-label choice.
- `JudgmentKeys`: the judgment key format.
- `ProjectLists`: parsing the two list texts.
- `Session`: the session state and its export and import.
- `Aggregation`: merging expert ballots.
- `Hierarchy`: the input that `calculate_ahp` builds for the AHP library, and the profiles.
- `Analysis`: the selection logic of `get_ai_analysis`.
- `ConsistencyRatio`: the rule in `calculate_weights.py`.

Behaviour of the code that a reader might not expect:

- **Consistency threshold.**
  - `web_app.py` flags a matrix only when CR > 0.1, and its About tab (web_app.py:343-344) calls CR < 0.1 good and CR > 0.1 bad, leaving 0.1 itself unclassified.
  - `calculate_weights.py` accepts only CR < 0.10, so CR = 0.10 counts as low consistency there.
  - `VerdictsDisagreeOnlyAtThreshold` proves that the two files disagree at CR = 0.10 and nowhere else.
- **Judgment validation.** No judgment value is checked for being positive or numeric, so the model has no such check.
- **Empty expert list.** `aggregate_expert_data` raises on `expert_files[0]` when the list is empty. Its only caller does not call it with an empty list. The model returns no result for an empty list.
- **Duplicate labels.**
  - Only the input tab checks for them (`get_lists_from_state`); `calculate_ahp` does not.
  - `BuildHierarchyInput` therefore accepts repeated criteria. Their dictionaries then coincide, and the child order is first occurrence (`Dedup`).

The key format has no escaping, so labels that contain `_` can collide:

- `KeyCollision` shows two different judgments that share one key.
- `KeyInjective` shows that keys are unambiguous when the context and the first item contain no `_`.

A criterion named `slider` has its judgments left out of the exported file (`SliderCriterionNotExported`). A criterion named `criteria` has its judgments dropped from the merge (`CriterionNamedCriteriaDropped`).

## Model

| member | source | states |
|---|---|---|
| Json.GetOrOne | web_app.py:126 | a present key yields its stored value; an absent key yields 1 |
| PyStr.Strip | web_app.py:35 | the result is a contiguous slice of the input, with only whitespace removed on either side; it neither starts nor ends with whitespace; it is empty exactly when the line is all whitespace |
| PyStr.StripAvoids | web_app.py:35 | stripping introduces no character that was not in the line |
| PyStr.StripOfStripped | web_app.py:35 | a string that is already stripped is left unchanged |
| PyStr.Split | web_app.py:35 | a split always has at least one part, even for empty text |
| PyStr.SplitAvoids | web_app.py:35 | no part of a split contains the separator |
| PyStr.JoinSplit | web_app.py:35 | joining the parts of a split with the separator gives back the text |
| PyStr.SplitJoin | web_app.py:35 | splitting a join of separator-free parts gives back the parts |
| PyStr.SplitWithoutSeparator | web_app.py:35 | text without the separator is a single line |
| PyStr.SplitAppend | web_app.py:35 | splitting `a + "\n" + b` gives the lines of `a` followed by the lines of `b` |
| Collections.CardinalityIffDistinct | web_app.py:37 | `len(set(xs)) <= len(xs)`, with equality exactly when no element repeats |
| Collections.Dedup | web_app.py:128-132 | the key order of a dict filled from a list: no repeats, and the same elements as the list |
| Collections.DedupOfDistinct | web_app.py:128-132 | a list without repeats keeps its order as dict keys |
| SaatyScale.LabelText | web_app.py:22-26 | the nine slider labels in slider order, from "B is 9 times more important" to "A is 9 times more important"; `LabelTextInjective` proves them distinct |
| SaatyScale.ScaleValue | web_app.py:27-31 | the value of each label: 1/9, 1/7, 1/5, 1/3, 1, 3, 5, 7, 9; `ScaleIncreasing` proves them strictly increasing |
| SaatyScale.LabelTextInjective | web_app.py:22-26 | the nine slider labels are distinct texts |
| SaatyScale.ScaleIncreasing | web_app.py:22-31 | scale values strictly increase along the slider order |
| SaatyScale.ScaleValueInjective | web_app.py:27-31 | no two labels share a scale value |
| SaatyScale.Distance | web_app.py:46 | the distance is non-negative and zero exactly for equal values |
| SaatyScale.FirstNearest | web_app.py:46 | the index it returns is at minimal distance, and strictly closer than every earlier index (the first minimum) |
| SaatyScale.NearestLabel | web_app.py:46 | the label whose value is nearest the stored value; on a tie, the earliest label in slider order |
| SaatyScale.ExactValueShowsOwnLabel | web_app.py:44-46 | a stored value that lies on the scale opens the slider at its own label |
| SaatyScale.DefaultShowsEqual | web_app.py:44-46 | the default judgment 1 opens the slider at "equal importance" |
| SaatyScale.TieGoesLeft | web_app.py:46 | a value midway between two labels (2, between 1 and 3) opens at the earlier one |
| JudgmentKeys.Key | web_app.py:43 | the key starts with `prefix_`, contains a separator, and is as long as its three parts plus two separators |
| JudgmentKeys.FirstSeparator | web_app.py:43 | splitting at the first `_` recovers a separator-free prefix |
| JudgmentKeys.KeyInjective | web_app.py:43 | keys determine (context, a, b) when the context and `a` contain no `_` |
| JudgmentKeys.KeyCollision | web_app.py:43 | with `_` in a label, two different judgments share one key |
| ProjectLists.CleanLines | web_app.py:35 | at most as many labels as lines; each label is non-empty and has no surrounding whitespace |
| ProjectLists.CleanLinesMembership | web_app.py:35 | a label appears exactly when it is the non-empty stripped form of some line |
| ProjectLists.CleanLinesAvoid | web_app.py:35 | a character that occurs in no line occurs in no label |
| ProjectLists.CleanLinesAppend | web_app.py:35 | labels keep the order of their lines: cleaning distributes over concatenation |
| ProjectLists.CleanLinesOfStripped | web_app.py:35 | lines that are already clean labels come back unchanged |
| ProjectLists.ParseLines | web_app.py:35-36 | every parsed label is non-empty, has no surrounding whitespace and no newline |
| ProjectLists.ParseLinesMembership | web_app.py:35-36 | a label is parsed exactly when it is the non-empty stripped form of some line of the text |
| ProjectLists.ParseLinesAppend | web_app.py:35-36 | the labels of two texts joined by a newline are the first text's labels followed by the second's |
| ProjectLists.ParseJoinedLines | web_app.py:35-36 | writing clean labels one per line and parsing the text gives back the labels |
| ProjectLists.HasDuplicates | web_app.py:37 | `len(xs) != len(set(xs))` holds exactly when some label occurs twice |
| ProjectLists.GetListsFromState | web_app.py:34-40 | no result exactly when either parsed list repeats a label; otherwise both parsed lists, unchanged |
| Session.Export | web_app.py:53 | the export holds exactly the state's keys that start with neither `slider_` nor `last_results`, with their values |
| Session.ExportIdempotent | web_app.py:51-53 | exporting an exported session changes nothing |
| Session.CriteriaJudgmentsExported | web_app.py:43-53 | every stored criteria judgment reaches the exported file |
| Session.SliderCriterionNotExported | web_app.py:43-53 | judgments under a criterion named `slider` never reach the exported file |
| Session.Exported | web_app.py:53 | the export filter: a key is kept unless it starts with `slider_` or `last_results`; `Export` and its lemmas state its effect |
| Session.SessionState.constructor | web_app.py:16-19 | a fresh session holds exactly the two example list texts |
| Session.SessionState.GetSessionData | web_app.py:51-53 | the state's exported keys with their values, and no other keys |
| Session.SessionState.LoadSessionData | web_app.py:55-65 | after clearing and loading, the state is exactly the loaded data, with nothing left over |
| Session.SessionState.CreateComparison | web_app.py:42-49 | an absent key first receives 1 and the slider opens at "equal importance". A numeric stored value opens the slider at its nearest label; afterwards the key holds the chosen scale value and the slider key holds its label, and nothing else changes. A non-numeric value leaves the state unchanged |
| Aggregation.Collect | web_app.py:76-82 | a key's group has at most one value per ballot |
| Aggregation.KeysOfMembership | web_app.py:76-79 | a key is seen exactly when some ballot holds it |
| Aggregation.CollectAbsent | web_app.py:79-82 | a key that no ballot holds has an empty group |
| Aggregation.GroupedMembership | web_app.py:79-81 | a key is grouped exactly when it is a judgment key (contains `_`, starts with neither `criteria_` nor `alternatives_`) and some ballot holds it |
| Aggregation.CollectSkipsBallotWithout | web_app.py:79-82 | a ballot without the key contributes nothing to its group, not an implicit 1 |
| Aggregation.CollectAllHold | web_app.py:79-82 | when every ballot holds the key, its group is the ballots' values, one per ballot, in ballot order |
| Aggregation.CollectHolds | web_app.py:79-82 | the value of every ballot that holds the key is in that key's group |
| Aggregation.IsJudgmentKey | web_app.py:80 | the filter of line 80: the key contains `_` and starts with neither `criteria_` nor `alternatives_`; `CriteriaKeysAreJudgments`, `ListKeysAreNotJudgments` and `CriterionNamedCriteriaDropped` state its effect |
| Aggregation.Grouped | web_app.py:76-82 | `all_judgments` after every ballot is read: each judgment key some ballot holds, with the values of the ballots that hold it, in ballot order; `GroupBallot` is proved to build it |
| Aggregation.MergedJudgments | web_app.py:84-87 | `aggregated_data` before the list texts: no result when some group's mean fails, otherwise each group's mean under its key; `SingleBallot`, `IdenticalBallots` and `TextJudgmentFails` state its effect |
| Aggregation.MergedIs | web_app.py:84-87 | when every group's mean is the entry of a given map under the same key, the merge is that map |
| Aggregation.TextJudgmentFails | web_app.py:86 | a text judgment in any ballot makes the merge fail, for any mean that fails on a group holding text, as `np.prod` raises a TypeError |
| Aggregation.SingleBallot | web_app.py:73-87 | one ballot with numeric judgments merges into its own judgment entries, for any mean that maps a single number to itself |
| Aggregation.IdenticalBallots | web_app.py:73-87 | identical ballots with positive numeric judgments merge into that ballot's judgment entries, for any mean that maps equal positive numbers to that number, as the geometric mean does |
| Aggregation.GroupBallot | web_app.py:79-82 | reading one more ballot turns the groups of the earlier ballots into the groups of all of them |
| Aggregation.MeanOfGroups | web_app.py:84-87 | no result exactly when the mean of some group fails; otherwise one entry per group, holding the mean of that group |
| Aggregation.AggregateExpertData | web_app.py:73-94 | no result exactly when the mean of some group fails, the list is empty, or the first ballot lacks a list text. Otherwise the keys are the grouped judgment keys plus the two list keys; each judgment holds the mean of its group; both list texts come from the first ballot |
| Aggregation.ListKeysAreNotJudgments | web_app.py:80-92 | the two list keys are never grouped, so the first ballot's texts are not overwritten by means |
| Aggregation.CriteriaKeysAreJudgments | web_app.py:80 | every criteria judgment key is grouped |
| Aggregation.CriterionNamedCriteriaDropped | web_app.py:80 | the judgments of a criterion named `criteria` are never grouped |
| Hierarchy.PairsCount | web_app.py:125 | `combinations(items, 2)` yields n(n-1)/2 pairs |
| Hierarchy.PairsMembership | web_app.py:125 | a pair is yielded exactly when it is (items[i], items[j]) with i < j |
| Hierarchy.PairsDistinct | web_app.py:125 | distinct items give distinct pairs |
| Hierarchy.Pairs | web_app.py:125 | `itertools.combinations(items, 2)`: each item paired with every later item, in order; `PairsCount`, `PairsMembership` and `PairsDistinct` state its effect |
| Hierarchy.Comparisons | web_app.py:125-131 | the comparison dictionary of lines 125-126 and 130-131: each pair mapped to the stored judgment under `context_a_b`, or 1; `ComparisonsShape` states its shape |
| Hierarchy.ComparisonsShape | web_app.py:124-132 | one entry per pair (items[i], items[j]) with i < j; the value is the stored judgment under `context_a_b`, or 1; distinct items give n(n-1)/2 entries |
| Hierarchy.BuildComparisons | web_app.py:125-126 | the loop builds exactly the comparison dictionary of the pairs |
| Hierarchy.BuildChildrenComparisons | web_app.py:128-132 | one dictionary per criterion, over the alternatives under the criterion's own name; children in first-occurrence order |
| Hierarchy.BuildHierarchyInput | web_app.py:119-132 | no result exactly when a list text is missing or not a string. Otherwise the parsed lists, the criteria dictionary under `crit`, and one alternatives dictionary per criterion |
| Hierarchy.Profile | web_app.py:147-149 | one entry per child, in child order: that child's weight for the alternative, or 0 |
| Hierarchy.BuildProfiles | web_app.py:145-149 | one profile per alternative, each as `Profile` states |
| Hierarchy.ProfileInUnitRange | web_app.py:149 | local weights in [0, 1] give profile entries in [0, 1] |
| Hierarchy.UnweighedAlternativeProfile | web_app.py:149 | an alternative that no child weighs has the all-zero profile |
| Analysis.InconsistentMatrices | web_app.py:108 | a name is listed exactly when some matrix with that name has CR strictly above 0.1 |
| Analysis.InconsistentMatricesAppend | web_app.py:108 | the listed names keep the order of the CR table |
| Analysis.Flagged | web_app.py:108 | the flag test of line 108: CR strictly above 0.1 |
| Analysis.ReportConsistency | web_app.py:108-114 | "perfect" exactly when no CR exceeds 0.1; otherwise the non-empty list of flagged matrices |
| Analysis.FirstMax | web_app.py:101-103 | the index of a greatest weight that is strictly greater than every earlier weight, as `max` and a stable descending sort pick it |
| Analysis.FirstMaxTieBreak | web_app.py:101-103 | of two tied greatest weights the earlier item wins |
| Analysis.GetAiAnalysis | web_app.py:97-114 | no result exactly when either weight table is empty. Otherwise the winner and the best criterion are the first items of greatest weight. The report is "perfect" exactly when no CR exceeds 0.1, and a low report names exactly the flagged matrices, in CR-table order |
| ConsistencyRatio.RandomIndex | calculate_weights.py:37-42 | RI is 0 exactly for n = 1 and n = 2, is 1.49 outside 1..10, and always lies in [0, 1.49] |
| ConsistencyRatio.RandomIndexValues | calculate_weights.py:37-40 | the table values for n = 1..10 |
| ConsistencyRatio.ConsistencyIndex | calculate_weights.py:32 | no finite CI exactly for n = 1; otherwise CI·(n-1) = lambda_max - n |
| ConsistencyRatio.ConsistencyRatio | calculate_weights.py:44-47 | CR = 0 for n ≤ 2; otherwise CR·RI = CI |
| ConsistencyRatio.ConsistentMatrixRatio | calculate_weights.py:32-47 | lambda_max = n gives CR = 0 |
| ConsistencyRatio.RatioSign | calculate_weights.py:32-47 | for n ≥ 3, CR ≥ 0 exactly when lambda_max ≥ n |
| ConsistencyRatio.Scale | calculate_weights.py:25 | each component divided by the sum: w[i]·s = v[i] |
| ConsistencyRatio.SumScale | calculate_weights.py:25 | the scaled vector sums to the original sum divided by the scale |
| ConsistencyRatio.Normalise | calculate_weights.py:25 | no finite weights exactly when the components sum to 0. Otherwise one weight per component, weights summing to 1, each proportional to its component |
| ConsistencyRatio.CalculateAhpMatrix | calculate_weights.py:3-49 | no result for an empty matrix. Otherwise the result is exactly `Normalise`, `ConsistencyIndex` and `ConsistencyRatio` of the inputs: weights exist exactly when the eigenvector sum is non-zero, and then sum to 1 with each weight its component divided by the sum; CI is missing exactly for n = 1 and otherwise CI·(n-1) = lambda_max - n; CR is 0 for n ≤ 2 and CR·RI = CI for n ≥ 3, so CR ≥ 0 exactly when lambda_max ≥ n |
| ConsistencyRatio.VerdictsDisagreeOnlyAtThreshold | calculate_weights.py:76-79 | the "acceptable" verdict (CR < 0.10) and the web report's flag (CR > 0.1) agree for every CR except 0.10, which neither accepts nor flags |
| ConsistencyRatio.Acceptable | calculate_weights.py:76 | the verdict test of line 76: CR strictly below 0.10 |

## Left out

- **Eigen solve.** The eigen-decomposition, the choice of lambda_max and the discarding of imaginary parts (calculate_weights.py:14-29) are numpy floating point. lambda_max and the principal eigenvector are inputs.
- **`ahpy`.** Hierarchy composition in `ahpy.Compare` (web_app.py:134-143) is a foreign library. `BuildHierarchyInput` stops at the dictionaries handed to it. `BuildProfiles` and `GetAiAnalysis` take local weights, target weights and CRs as given data.
- **Geometric mean.** `np.prod(values) ** (1/len(values))` (web_app.py:86) involves fractional powers. `AggregateExpertData` and `MergedJudgments` take the mean as a partial function parameter. It returns no value where `np.prod` raises, such as on a group holding a text or null value, and then the aggregation has no result. Which groups numpy rejects is part of that parameter and is not fixed by the model.
- **Floats as reals.** All floats are exact reals: 1/9, 0.1 and 0.58 are exact, and nothing is rounded.
- **numpy division by zero.** It gives inf or nan, not an exception. The model treats such a value as "no result" (`None`).
- **JSON values.** They are numbers, strings, or `Other`. Booleans are the numbers `Num(0.0)` and `Num(1.0)`, because Python uses them as numbers in `abs(...)` (web_app.py:46) and in `np.prod`. Lists, objects and null are all `Other` and are not told apart.
- **Exceptions.** The catch-all `try/except` of `calculate_ahp` and the modelled uncaught exceptions become "no result"; which exception was raised is not modelled. The modelled uncaught exceptions are: in `aggregate_expert_data`, an empty expert list, a missing list text and a failed mean; in `create_comparison`, the TypeError on a non-numeric stored value, where `CreateComparison` returns `shown == None` and leaves the state unchanged; and in `get_ai_analysis`, the IndexError or ValueError on an empty weight table, where `GetAiAnalysis` returns `None`.
- **Streamlit UI and I/O**: widgets, tabs, charts (`create_radar_chart`), dataframes, file upload and download, `file.seek` and `json.load`, `time.sleep`, `st.rerun`, spinners, and the success and error messages. Session export and import work on the already-decoded map.
- **`analyze_platforms.py`.** It is hard-coded data, `ahpy` calls and prints; it is not part of this model.
- **Report text.** `get_ai_analysis` is modelled down to what its text reports: the winner and its weight, the best criterion and its weight, and the verdict with the flagged matrices. The text itself is not modelled.
- **Whole-ranking sort.** The full descending sort of the final weights is not modelled; only its first element is used.
- **Python dict order.** It is modelled where it is observable:
  - the child order of `calculate_ahp`;
  - the CR table and the weight tables, as sequences of pairs.
  
  Elsewhere maps are unordered, and the loops over dict keys in `aggregate_expert_data` and `load_session_data` visit keys in an arbitrary order. Their results do not depend on that order.
- **Session.SessionState.CreateComparison.** The user's slider choice is a parameter (`selected`). Streamlit's widget rules are not modelled: for example, a widget key already present in the state overrides the `value=` argument. The method states the state after one rendering in which the user leaves the slider at `selected`.
- **The `crit` collision.** A criterion named `crit` shares its alternative keys with the criteria judgments (web_app.py:126, 131). `Key` states this directly, since both are `Key("crit", a, b)`; no separate member covers it.
- **Session.SessionState.LoadSessionData.** The loaded data is a decoded JSON object (`data: Object`), so the `try/except` around the load (web_app.py:57-69) is not modelled. An upload whose top-level JSON value is not an object fails at `data.items()` after the wipe; the exception is caught at web_app.py:69 and leaves the state empty, which this model does not capture. The next script run then re-adds the default list texts (web_app.py:16-19) when the loaded file lacks them; the method states only the state right after the load.
