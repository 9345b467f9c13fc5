# A trainer for domino-reduction cases: state machine and solution corpus

This project models the two pieces of logic in a web trainer for one sub-step of cube
solving. The trainer loads a corpus of cases and their solutions from a comma-separated
file. It filters the corpus by solution length and trigger count, picks a random case,
derives a scramble for it, and reveals a solution on request.

- `Db` (`db.dfy`) models `src/db.tsx`. `ReadFromFile` is the line loop of `readFromFile`.
  It fills the sparse `cases` array and the global `solutions` list in one pass. It is proved
  equal to the left fold `Parse`, whose properties are lemmas. `GetCases` is the
  `filter`-then-`map` query.
- `AppContext` (`app_context.dfy`) models the state machine of `src/AppContext.tsx`.
  `StateReducer` maps a state and an action to a new state or to the thrown
  "invalid app state". A state is a phase (`Setup`, `Options`, `Training`) carrying its
  sub-phase. The sub-phase `options` is called `Editing` and the sub-phase `training` is
  called `Active`. The module also holds `initialAppState`, the getter `useCurrentTraining`,
  the provider's loading step (lines 26-28) and the function returned by
  `useDispatchRandomCase`.
- `Scramble` (`scramble.dfy`) models `randomDrState` and `invert` from the same file.
  Both are loops over move tokens. `randomDrState` is proved equal to `DrState`.
  `Invert` is `invert` as written. `InvertIntended` is the last-character classification
  the code evidently meant.
- `Strings` holds the JavaScript `split`, `join` and `reverse` the code relies on, with their
  round trip. `Wrappers` holds `Option` and `Result`.

Randomness is replaced by parameters. `Math.floor(Math.random() * n)` becomes an index drawn
below `n`, or 0 when `n` is 0. The 500 draws of `randomDrState` become a sequence of choices,
each below 4. The cube library's `move` followed by `solve` becomes a function parameter
`solve`.

Where the code departs from the trainer's evident design, the model follows the code:
- `getCases` does not deduplicate. It returns one case per matching solution, so a case with
  several matching solutions appears several times (`Db.GetCasesKeepsDuplicates`).
- The reducer accepts an action from every sub-phase of a phase. For example, `see_solutions`
  is accepted from `training/idle` and `data_loaded` from `options/options`.
- The current training is not confined to the active and solution-shown sub-phases. It
  survives `change_options`, and the solution view can be reached with no current training
  (`AppContext.SubPhaseIgnoredExamples`).
- The filter has no lower bound on length. An empty result is stored as an empty candidate
  list, not a separate state. Selecting from an empty list throws.

## Model

| member | source | states |
|---|---|---|
| `Db.ReadFromFile` | src/db.tsx:25-53 | The line loop yields exactly `Parse(lines)`: it fails at the first solution line whose case is not yet in `cases`, and otherwise returns the cases and solutions the lines declare. |
| `Db.CaseLineStored` | src/db.tsx:30-39 | A `case` line stores at its id a case with its id, rzp, arm and pair columns. It has no solutions, and `tetrad` or `corners` is null exactly when that column is empty. Other cases and the solution list are unchanged. |
| `Db.SolutionLineStored` | src/db.tsx:41-50 | A `solution` line appends its record to the global list and to its owning case's list; it fails exactly when that case is absent. `eo_breaking` is true exactly when column 3 is "1", and the other fields are copied from the columns. |
| `Db.OtherLineIgnored` | src/db.tsx:29-51 | A line whose first column is neither `case` nor `solution` leaves the data unchanged. |
| `Db.ParseOutcome` | src/db.tsx:28-53 | Reading fails exactly when some solution line precedes every declaration of its case. On success the case ids are those declared and the global list is one record per solution line, in file order. Every solution's case is present. |
| `Db.ParseGroupsSolutions` | src/db.tsx:49-50 | When each case is declared once, every case's list is exactly the solutions of that case in file order, so every global solution appears in its case's list. |
| `Strings.Split` | src/db.tsx:29 | `split` on one separator gives at least one piece, no piece contains the separator, and joining the pieces gives the input back. |
| `Strings.Reverse` | src/AppContext.tsx:193 | `reverse` keeps the length and puts element k at position n-1-k. |
| `Db.GetCases` | src/db.tsx:69-79 | The query fails exactly when the file is not loaded. |
| `Db.MatchingSolutionsExact` | src/db.tsx:71-76 | The filter keeps the list order and keeps each matching solution as many times as it occurs. It drops every solution that does not match. |
| `Db.GetCasesOnePerMatch` | src/db.tsx:71-78 | The result has one entry per matching solution, in list order. The k-th entry is the case of the k-th matching solution. |
| `Db.GetCasesMembers` | src/db.tsx:71-78 | A case is in the result if and only if some solution with length at most the maximum and trigger within [min, max] belongs to it. |
| `Db.GetCasesKeepsDuplicates` | src/db.tsx:78 | No deduplication: one case with two matching solutions is returned twice. |
| `Db.GetCasesEmptyTriggerRange` | src/db.tsx:73-74 | If the minimum trigger exceeds the maximum, the result is empty. |
| `Db.GetCasesIgnoresEoAndMoves` | src/db.tsx:71-76 | The result depends only on each solution's case id, length and trigger. `eo_breaking` and the move text are never consulted. |
| `Db.GetCasesMonotone` | src/db.tsx:72-78 | A larger maximum length or trigger, or a smaller minimum trigger, gives a result that has the narrower result as a subsequence. |
| `AppContext.InitialDefaults` | src/AppContext.tsx:41-52 | The defaults are drm "4c4e", max_length 5, max_trigger 4, min_trigger 1, max_display 6 and phase setup/initializing, with nothing loaded or selected. |
| `AppContext.StateReducer` | src/AppContext.tsx:81-141 | The reducer succeeds if and only if the current phase has a handler for the action, and otherwise throws "invalid app state". |
| `AppContext.SetupTransitions` | src/AppContext.tsx:83-91 | From setup, `finished_init` goes to options/options with parameters, cases and current training unchanged. `reset` yields exactly the defaults. |
| `AppContext.UnhandledActionsFail` | src/AppContext.tsx:92-139 | `reset` outside setup, `data_loaded` in training, `see_solutions` in setup, `set_training_case` in options and `start_training` outside options each throw "invalid app state". |
| `AppContext.HandlerDependsOnlyOnPhase` | src/AppContext.tsx:82-140 | Changing the sub-phase within a phase does not change the result of any action. |
| `AppContext.SetTrainingParamsMerges` | src/AppContext.tsx:96-104 | `set_training_params` overwrites exactly the fields present in the settings. It keeps the other parameters, the cases and the current training, and goes to options/options. |
| `AppContext.OptionsTransitions` | src/AppContext.tsx:105-116 | `start_training` goes to options/loading_data. `data_loaded` goes to training/idle with the given cases stored, the current training cleared and the parameters kept. |
| `AppContext.TrainingTransitions` | src/AppContext.tsx:121-137 | From any training sub-phase, `set_training_case` activates the given case and setup. `see_solutions` shows the solution with training and cases unchanged. `change_options` returns to options/options keeping cases and parameters. |
| `AppContext.UseCurrentTraining` | src/AppContext.tsx:203-207 | The getter returns nothing outside the training phase or while idle. Otherwise it returns the current training. |
| `AppContext.StepKeepsInvariant` | src/AppContext.tsx:81-141 | Every accepted action keeps three facts: the training phase always has cases, idle has no current training, and the active sub-phase always has one. |
| `AppContext.RunKeepsInvariant` | src/AppContext.tsx:81-141 | Every run of actions from a state satisfying the invariant ends in a state satisfying it. |
| `AppContext.ReachableKeepsInvariant` | src/AppContext.tsx:24 | Every state reached from the initial state satisfies the invariant. |
| `AppContext.SubPhaseIgnoredExamples` | src/AppContext.tsx:119-137 | `see_solutions` from idle shows the solution with no current training. A current training survives `change_options` into options. |
| `AppContext.LoadingStepStoresQuery` | src/AppContext.tsx:26-28 | In options/loading_data, the loading step stores `getCases` of the current maximum length and trigger range as the cases and goes to training/idle. It throws if the file is not loaded, and does nothing in any other state. |
| `AppContext.DispatchRandomCaseOutcome` | src/AppContext.tsx:165-176 | Selection throws in setup. It succeeds exactly in the training phase when the drawn case exists and has a solution, and then activates that case with `solve(solutions[0].solution + " " + randomDrState())`. With cases loaded but the phase in options, the reducer throws. |
| `AppContext.SingletonCandidate` | src/AppContext.tsx:168 | With a single candidate case, the selection always picks it. |
| `AppContext.TrainingSession` | src/AppContext.tsx:26-132 | Start, load, select and reveal takes options/options through loading_data, idle and training to showing_solution. What the getter returns is unchanged by the reveal. |
| `Scramble.RandomDrState` | src/AppContext.tsx:180-190 | The loop's result is `DrState(choices)`, the join of the move each draw selects. |
| `Scramble.DrStateTokens` | src/AppContext.tsx:182-189 | The state has exactly 500 tokens. Even positions are the drawn one of U, U', D, D'; odd positions are the drawn one of F2, B2, R2, L2. |
| `Scramble.CharAt` | src/AppContext.tsx:196-197 | Indexing a string is defined exactly within its bounds, so index -1 is always undefined. |
| `Scramble.InvertMoveAsWritten` | src/AppContext.tsx:196-198 | As written, the loop body appends a prime to every token. |
| `Scramble.Invert` | src/AppContext.tsx:192-201 | `invert` gives as many tokens as the input, in reverse order, each being the input token with `'` appended. |
| `Scramble.InvertAsWrittenNotInvolution` | src/AppContext.tsx:196-198 | As written, "F2" becomes "F2'" and inverting "R" twice gives "R''". |
| `Scramble.InvertMoveInvolution` | src/AppContext.tsx:196-198 | Under the last-character classification, a well-formed move maps to a well-formed move and back to itself. |
| `Scramble.InvertIntendedInvolution` | src/AppContext.tsx:192-201 | The intended inversion applied twice gives back any sequence of well-formed moves. |
| `Scramble.InvertIntendedExamples` | src/AppContext.tsx:192-201 | The intended inversion maps "R U R'" to "R U' R'" and "F2" to "F2". |

## Left out

- Fetching the file and splitting its text into lines is I/O. `ReadFromFile` starts from the lines.
- `parseInt` on non-decimal fields (NaN, leading junk) and lines with too few columns: the parser requires every `case` and `solution` line to be well-formed (`Db.WellFormed`).
- The asynchronous loading in `useDb`, and its `loaded` flag: the data is an `Option`, `None` until loaded.
- React: context objects, `useReducer`, the `useEffect` that dispatches `finished_init` once both loaders report ready, its cleanup `reset`, and the accessor hooks `useAppStateFull`, `useTrainingParams`, `useAppState`, `useAppDispatch`. These are plumbing; the reducer they drive is modelled.
- `Math.random`: replaced by explicit draws; no probabilistic claims are made.
- `Cube.move` and `Cube.solve` (src/AppContext.tsx:170-172) are a foreign library. They are one uninterpreted `solve` parameter.
- `console.log` calls.
- `AppContext.SetTrainingParamsMerges`: a settings key present with the value `undefined` would overwrite the parameter with `undefined`. The model treats every settings field as either absent or holding a value.
- `AppContext.UseCurrentTraining`: the source returns `null` in one branch and may return `undefined` in the other; both are `None`.
- Numbers are unbounded integers: floating-point parameters and NaN are not modelled.
- Object identity: the same solution object sits in the global list and in its case's list, and cases in the candidate list are shared with the corpus. Nothing mutates them after loading, so the model uses values.
- src/db_old.tsx (IndexedDB persistence), src/RzpSelect.tsx (a select box dispatching `set_training_params`) and src/cubelib_loader.tsx (solver initialisation) are not part of this model.

## Findings

| source | as written | input that shows it | evidently intended | confidence | as-written member | corrected member |
|---|---|---|---|---|---|---|
| src/AppContext.tsx:196-197 | `m[-1]` is `undefined` on a string, so neither the half-turn nor the prime test ever holds and every token gets `'` appended | `invert("F2")` gives `"F2'"`; `invert("R U R'")` gives `"R'' U' R'"` | classify by the last character: keep a half turn, strip a prime, otherwise add one, so that inverting twice is the identity | high; not executed | `Scramble.InvertAsWrittenNotInvolution` | `Scramble.InvertIntendedInvolution` |
