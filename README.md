# Prompt matrix and job queue of a batch image-generation front end

This Dafny project models the in-memory logic behind the batch-generation
screen of sd-buddy, a desktop front end for Stable Diffusion. A user writes a
prompt with `$name` placeholders, such as `a $age $gender`, and binds each
placeholder to a list of values. The front end then does four things:

- it extracts the placeholders from the prompt;
- it checks that every placeholder is bound;
- it expands the prompt into every combination of values;
- it keeps a queue of generation jobs and a history of past runs.

The model covers the current code (`src/store/generate.ts`,
`src/store/queue.ts`) and the older code it replaced (`src/promptMatrix.ts`,
`src/store.ts`).

The project is organised as follows:

- `types.dfy` (`Types`): the records `CustomVar`, `Run` and `QueueItem`, and the `QueueItemStatus` and `Rating` enumerations.
- `lists.dfy` (`Lists`): the array built-ins the stores use. These are `findIndex`, "find then `splice(ix, 1)`", "find then assign or `push`", and `filter`.
- `text.dfy` (`Text`): literal `replaceAll`, `includes`, ASCII `toLowerCase`, and the character classes of the token patterns.
- `tokens.dfy` (`Tokens`): the global regular-expression scan (`matchAll`) for both token patterns.
  - The current pattern is `\B\$[a-zA-z]+`. Its run covers the range `A`..`z`, and the `$` must start the prompt or follow a non-word character.
  - The older pattern is `\$[\w]+`. It has no guard, and its run covers word characters.
  - `ScanFrom` is the engine's left-to-right scan, which resumes after each match. It is proved equal to a reference definition that lists every position where a match can begin.
- `matrix.dfy` (`Matrix`): one pass of the expansion, shared by both builders. The outer loop runs over the partial prompts and the inner loop over the variable's values.
- `keyed.dfy` (`Keyed`): upsert and remove by name in the bindings list, and remove by id in the run history.
- `generate.dfy` (`Generate`): everything from `src/store/generate.ts`.
  - Token extraction, `buildPromptStrings`, and the readiness check `allCustomVarsAreFilled`.
  - The bindings and run-history stores, as classes.
  - The `filteredRuns` view.
- `queue.dfy` (`Queue`): the job-queue store as a class, and its `incompleteQueue` and `currentQueueItem` views.
- `store.dfy` (`Store`): the older global stores as one class. It keeps both the closure array `storedCustomVars` and the value subscribers see, because the two can drift apart (see Findings).
- `promptmatrix.dfy` (`PromptMatrix`): the older `buildStrings` and `extractVars`, which write into the `Store` class.
- `scenarios.dfy` (`Scenarios`): examples worked through on concrete inputs.

A few behaviours of the code are easy to misread, and the model keeps them as
written:

- `toggleSkip` (`src/store/queue.ts:49`) turns every status other than Skipped into Skipped, including Running, Completed and Failed. It is not a toggle between Pending and Skipped only.
- The readiness check accepts a binding whose value list is empty, because `[]` is truthy (`src/store/generate.ts:199`). The comment at `src/store/generate.ts:196` says each field should have at least one value.
- `buildPromptStrings` skips only bindings whose `values` is missing (`src/store/generate.ts:174`). A binding with `[]` empties the result instead of being skipped.
- The two token patterns take different characters after the `$`.
  - The current pattern's run `[a-zA-z]` covers the range `A`..`z`. So it takes no digits, and it takes ``[ \ ] ^ ` `` besides the letters and `_`.
  - The older pattern's run covers the word characters, digits included, and it has no guard before the `$`.

## Model

| member | source | states |
|---|---|---|
| Lists.FindIndex | src/store/generate.ts:135 | result is -1 or the first index whose element satisfies the key test; no earlier element satisfies it |
| Lists.FindIndexAfterPrefix | src/store/queue.ts:34 | after a prefix with no match, the first match is at the prefix's length |
| Lists.RemoveFirst | src/store/queue.ts:34-40 | length drops by one exactly when some element matches |
| Lists.RemoveFirstSplit | src/store/queue.ts:34-40 | `a + [x] + b` with no match in `a` becomes `a + b` |
| Lists.RemoveFirstAbsent | src/store/queue.ts:34-40 | with no match, nothing changes |
| Lists.ReplaceFirstOrAppend | src/store/generate.ts:146-151 | the new element is in the result |
| Lists.ReplaceFirstSplit | src/store/generate.ts:146-148 | the first match is replaced in place; every other position is kept |
| Lists.ReplaceFirstAbsent | src/store/generate.ts:149-151 | with no match, the element is appended |
| Lists.ReplaceFirstIdempotent | src/store/generate.ts:146-151 | upserting the same element twice equals upserting it once |
| Lists.Filter | src/store/queue.ts:70 | result keeps exactly the elements that pass, no more than the input |
| Lists.FilterConcat | src/store/queue.ts:70 | filter distributes over concatenation, so the survivors keep their order |
| Lists.FilterKeepsAll | src/store/queue.ts:70 | if every element passes, the sequence is kept whole |
| Lists.FilterIdempotent | src/store/queue.ts:70 | filtering twice equals filtering once |
| Text.IsWordChar | src/promptMatrix.ts:44 | `\w` without the `u` flag: ASCII only; covers `_` and the digits; never `$` or a space |
| Text.InLetterRange | src/store/generate.ts:119 | the range `A-z`: takes every ASCII letter, no digit and no `$`; the characters it takes beyond the word characters are exactly ``[ \ ] ^ ` `` |
| Text.ContainsIff | src/store/generate.ts:103 | `includes` holds iff the substring occurs at some index |
| Text.Contains | src/store/generate.ts:103 | the empty string is always included; an included string is no longer than the text |
| Text.ReplaceAll | src/store/generate.ts:182 | a string without the pattern is returned unchanged |
| Text.ReplaceAllSkips | src/store/generate.ts:182 | a prefix lacking the pattern's first character is copied unchanged |
| Text.ReplaceAllAtFront | src/store/generate.ts:182 | an occurrence at the front is replaced and the scan resumes after it |
| Text.ReplaceAllShort | src/store/generate.ts:182 | a string shorter than the pattern is unchanged |
| Text.LowerChar | src/store/generate.ts:103 | an upper-case letter becomes its lower-case letter; other characters are unchanged |
| Text.ToLower | src/store/generate.ts:103 | same length; each character is lowered on its own |
| Text.ToLowerIdempotent | src/store/generate.ts:103 | lower-casing twice equals lower-casing once |
| Tokens.InRun | src/store/generate.ts:119 | the run class after `$`: never `$`; letters and `_` under both patterns; digits only under the older pattern |
| Tokens.Guarded | src/store/generate.ts:119 | the `\B` before `$`: at a `$` the current pattern's guard holds iff there is no word boundary there, i.e. the `$` starts the prompt or follows a non-word character; the older pattern has no guard |
| Tokens.StartsToken | src/store/generate.ts:119-121 | a match begins only at a `$` followed by a non-`$` character, and under the current pattern only where `\B` holds; under the older pattern every `$` followed by a word character begins one |
| Tokens.RunEnd | src/store/generate.ts:119 | the greedy `+`: every character up to the end is in the run, and the next one is not |
| Tokens.TokenAt | src/store/generate.ts:119 | a match is `$` then at least one run character |
| Tokens.ScanFrom | src/store/generate.ts:121 | every emitted string is a well-formed token |
| Tokens.Scan | src/store/generate.ts:121 | every string the whole-prompt scan returns is a well-formed token |
| Tokens.StartsFrom | src/store/generate.ts:119-121 | strictly increasing positions: exactly the positions where a match begins |
| Tokens.TokensAt | src/store/generate.ts:121 | one match text per start position, in order |
| Tokens.NoStartInsideRun | src/store/generate.ts:121 | no match begins inside a run, because `$` is never a run character |
| Tokens.ScanFromIsTokensAtStarts | src/store/generate.ts:121 | the skipping scan equals the matches at every reference start position |
| Tokens.ScanCharacterized | src/store/generate.ts:121 | the scan returns exactly the token at each start position, left to right, duplicates kept |
| Tokens.DollarAfterWordChar | src/store/generate.ts:119 | a `$` after a word character starts no current token, but does start an older token when a word character follows |
| Tokens.SkipNoDollar | src/store/generate.ts:121 | the scan passes over any stretch without `$` |
| Tokens.ScanFromMatch | src/store/generate.ts:121 | a maximal match is emitted and the scan resumes at its end |
| Tokens.RunEndAt | src/store/generate.ts:119 | a run ending before a non-run character ends the match there |
| Matrix.TokenOf | src/store/generate.ts:182 | the placeholder is `$` followed by the name |
| Matrix.Substitutions | src/store/generate.ts:180-184 | one string per value, in value order: the `j`-th is the partial with every `$name` replaced by the `j`-th value |
| Matrix.Step | src/store/generate.ts:178-187 | a pass yields (number of partials) × (number of values) strings |
| Matrix.StepIndex | src/store/generate.ts:179-186 | partial `i` with value `j` lands at position `i` × (number of values) + `j`: partials outermost, values innermost |
| Matrix.StepNoValues | src/store/generate.ts:180 | a pass with no values yields `[]` |
| Matrix.SubstituteAll | src/store/generate.ts:178-187 | the nested loops fill `temp` with exactly the pass's strings |
| Keyed.HasName | src/store/generate.ts:135 | the key test of the bindings list matches exactly the bindings with that name, whatever their values (also lines 146 and `src/store.ts:114`, `src/store.ts:125`) |
| Keyed.HasRunId | src/store/generate.ts:80 | the key test of the run history matches exactly the runs with that id (also `src/store.ts:47`) |
| Keyed.UpsertVar | src/store/generate.ts:143-155 | the pushed binding is in the result |
| Keyed.RemoveVar | src/store/generate.ts:132-142 | the result is no longer than the input |
| Keyed.RemoveRun | src/store/generate.ts:79-88 | the result is no longer than the input |
| Keyed.UpsertVarReplaces | src/store/generate.ts:146-148 | a present name: the first such binding is replaced in place, all else kept |
| Keyed.UpsertVarAppends | src/store/generate.ts:149-151 | an absent name: the binding is appended |
| Keyed.UpsertVarTwice | src/store.ts:122-134 | pushing the same binding twice equals pushing it once |
| Keyed.RemoveVarFirst | src/store/generate.ts:135-137 | only the first binding with the name is deleted; the rest keep their order |
| Keyed.RemoveVarAbsent | src/store/generate.ts:136 | removing an absent name changes nothing |
| Keyed.UpsertVarKeepsNamesUnique | src/store/generate.ts:143-155 | upsert keeps names unique, and the pushed binding is the only one with its name |
| Keyed.RemoveVarKeepsNamesUnique | src/store/generate.ts:132-142 | remove keeps names unique and leaves no binding with that name |
| Keyed.RemoveRunFirst | src/store/generate.ts:80-82 | only the first run with the id is deleted; the rest keep their order |
| Keyed.RemoveRunAbsent | src/store/generate.ts:81 | removing an absent id changes nothing |
| Generate.ExtractVars | src/store/generate.ts:118-122 | the matches of `\B\$[a-zA-z]+` at every start position, left to right, each a well-formed token |
| Generate.BuildPromptStrings | src/store/generate.ts:164-193 | the `forEach` with its nested loops computes the specified expansion |
| Generate.Accumulate | src/store/generate.ts:166-188 | the accumulator stays null exactly while no binding has values |
| Generate.PromptStrings | src/store/generate.ts:164-192 | undefined iff there are no bindings; null iff there are bindings and none has values |
| Generate.PresentProduct | src/store/generate.ts:174-188 | product is 1 when no binding has values, and 0 when some binding has `[]` |
| Generate.AccumulateSize | src/store/generate.ts:172-188 | once some binding has values, the accumulator's length is the product of the value counts |
| Generate.PromptStringsShape | src/store/generate.ts:166-192 | a list of strings holds product-many strings, and is `[]` if some binding has `[]` |
| Generate.NoValuesSubstitutesNothing | src/store/generate.ts:174 | bindings without values leave the prompt unchanged |
| Generate.ExpansionHoldsEveryCombination | src/store/generate.ts:172-188 | every choice of one value per binding appears at its mixed-radix rank, first binding most significant |
| Generate.EveryStringIsACombination | src/store/generate.ts:172-188 | conversely, every expanded string is the substitution of some choice, at that choice's rank |
| Generate.SplitIndex | src/store/generate.ts:179-186 | each position of a pass is a (partial, value) pair |
| Generate.ExtendChoice | src/store/generate.ts:172-188 | rank and substitution extend by one binding as the loop does |
| Generate.IsBound | src/store/generate.ts:199 | the `find` succeeds iff some binding has the token as its `$name` and has values present |
| Generate.AllFilled | src/store/generate.ts:198-200 | `every`: true iff each token is bound |
| Generate.AllCustomVarsAreFilled | src/store/generate.ts:197-201 | ready iff every extracted token is `"$" + name` of some binding with values present; true when there are no tokens |
| Generate.EmptyValuesCountAsFilled | src/store/generate.ts:199 | a binding with `[]` values counts as filled |
| Generate.CustomVarsStore.constructor | src/store/generate.ts:126-127 | the bindings start empty |
| Generate.CustomVarsStore.Push | src/store/generate.ts:143-155 | upsert by name: append if absent, otherwise same length |
| Generate.CustomVarsStore.Remove | src/store/generate.ts:132-142 | deletes the first binding with the name; no-op when absent |
| Generate.RunsStore.constructor | src/store/generate.ts:62-63 | the history starts as the loaded runs |
| Generate.RunsStore.Push | src/store/generate.ts:70-78 | appends the run |
| Generate.RunsStore.Remove | src/store/generate.ts:79-88 | deletes the first run with the id; no-op when absent |
| Generate.RunsStore.Clear | src/store/generate.ts:89-94 | the history becomes empty |
| Generate.FilteredRuns | src/store/generate.ts:100-105 | every kept run is in the history and matches, and every matching run is kept |
| Generate.PromptMatches | src/store/generate.ts:103 | the lower-cased filter occurs at some index of the lower-cased prompt; the empty filter always matches |
| Generate.EmptyFilterKeepsAll | src/store/generate.ts:101 | the `""` shortcut agrees with the general rule: all runs |
| Generate.FilterSamePredicate | src/store/generate.ts:103 | filters that agree on every element give the same result |
| Generate.FilterIgnoresCase | src/store/generate.ts:103 | lower-casing the filter changes nothing |
| Generate.FilteredRunsAfterPush | src/store/generate.ts:70-78 | a pushed run appears at the end of the view exactly when it matches |
| Queue.HasId | src/store/queue.ts:34 | the key test of the queue matches exactly the items with that id (also lines 47 and 57) |
| Queue.NotCompleted | src/store/queue.ts:70 | the test of `clearCompleted` keeps exactly the items whose status is not Completed (also line 88) |
| Queue.Toggled | src/store/queue.ts:49 | the new status is Pending or Skipped, and differs from the old one |
| Queue.WithStatus | src/store/queue.ts:57-62 | same length, same ids at every position |
| Queue.WithSkipToggled | src/store/queue.ts:47-49 | same length, same ids at every position |
| Queue.IncompleteQueue | src/store/queue.ts:87-89 | exactly the items that are not Completed |
| Queue.CurrentQueueItem | src/store/queue.ts:92-94 | some item iff one is Running; it is Running, and no earlier item is |
| Queue.QueueStore.constructor | src/store/queue.ts:16-17 | the queue starts as the loaded queue |
| Queue.QueueStore.Push | src/store/queue.ts:24-32 | appends the item and keeps every earlier one |
| Queue.QueueStore.Remove | src/store/queue.ts:33-45 | deletes the first item with the id; no-op when absent |
| Queue.QueueStore.ToggleSkip | src/store/queue.ts:46-55 | toggles the first item with the id; no-op when absent |
| Queue.QueueStore.UpdateStatus | src/store/queue.ts:56-68 | sets the status of the first item with the id; no-op when absent |
| Queue.QueueStore.ClearCompleted | src/store/queue.ts:69-75 | the new queue is `incompleteQueue` of the old one, with no Completed item |
| Queue.QueueStore.Clear | src/store/queue.ts:76-81 | the queue becomes empty |
| Queue.PushThenRemove | src/store/queue.ts:24-45 | push of a fresh id followed by remove of it restores the queue |
| Queue.RemoveDeletesFirst | src/store/queue.ts:34-40 | only the first item with the id is deleted; the rest keep their order |
| Queue.UpdateStatusChangesOne | src/store/queue.ts:57-63 | only the first item with the id changes, and only its status; an unknown id is a no-op |
| Queue.ToggleSkipChangesOne | src/store/queue.ts:47-50 | only that item's status changes: Skipped to Pending, anything else to Skipped |
| Queue.ToggleSkipTwice | src/store/queue.ts:49 | toggling twice restores Pending or Skipped; Running, Completed or Failed end as Pending |
| Queue.FindIndexSameKeys | src/store/queue.ts:47 | `findIndex` depends only on the key test |
| Queue.ClearCompletedIdempotent | src/store/queue.ts:69-75 | `clearCompleted` is idempotent |
| Queue.ClearCompletedPreservesOrder | src/store/queue.ts:70 | survivors keep their order; a queue is unchanged iff it has no Completed item |
| Queue.StartedItemIsCurrent | src/store/queue.ts:56-68 | in a queue with nothing Running, the item just set Running becomes the current item |
| Store.Store.constructor | src/store.ts:101-106 | empty `extractedVars` and `promptStrings` (lines 101-102), empty bindings with the closure array and the published value in sync (lines 105-106), and the run history as loaded at `src/store.ts:28-30` |
| Store.Store.PushCustomVar | src/store.ts:122-134 | upserts by name in the closure array and publishes that array |
| Store.Store.RemoveCustomVar | src/store.ts:111-121 | deletes the first binding with the name and publishes; an absent name publishes nothing; sync is kept |
| Store.Store.SetCustomVars | src/store.ts:110 | the raw setter publishes the value but leaves the closure array unchanged |
| Store.Store.ResetCustomVars | src/promptMatrix.ts:40-41 | the corrected reset: clears both the closure array and the published value, which are then in sync |
| Store.Store.PushRun | src/store.ts:37-45 | appends the run |
| Store.Store.RemoveRun | src/store.ts:46-55 | deletes the first run with the id; no-op when absent |
| Store.Store.ClearRuns | src/store.ts:56-62 | the history becomes empty |
| PromptMatrix.BuildStrings | src/promptMatrix.ts:4-37 | empty prompt stores `[]`; no bindings leaves the store as it was; otherwise the re-seeding expansion is stored |
| PromptMatrix.LegacyPass | src/promptMatrix.ts:19-31 | one binding's turn yields `[]` exactly when its value list is `[]`, because the seed is never empty |
| PromptMatrix.LegacyAccumulate | src/promptMatrix.ts:17-32 | no bindings give `[]`; otherwise the result is `[]` exactly when the last binding's list is `[]` |
| PromptMatrix.LegacyLength | src/promptMatrix.ts:17-32 | with every value list non-empty, the length is the product of the lengths, at least 1 |
| PromptMatrix.LegacyAgreesWithCurrent | src/promptMatrix.ts:17-32 | with every value list non-empty, the older builder gives exactly the current builder's strings, in the same order |
| PromptMatrix.LegacyRestartPrefix | src/promptMatrix.ts:19 | the re-seed after `[]`, for every prefix |
| PromptMatrix.LegacyRestart | src/promptMatrix.ts:19 | after a binding with `[]`, the expansion starts again from the raw prompt |
| PromptMatrix.LegacyExtract | src/promptMatrix.ts:44-47 | one single-element match array per start of `\$[\w]+`, left to right |
| PromptMatrix.ExtractVars | src/promptMatrix.ts:39-48 | as written: publishes `[]` for the bindings but leaves their closure array as it was, clears the expanded prompts, publishes the older matches, and leaves the runs alone |
| PromptMatrix.ExtractVarsCorrected | src/promptMatrix.ts:39-48 | the same with the corrected reset: the bindings are cleared and in sync |
| Scenarios.ExtractNameAndAge | src/store/generate.ts:118-122 | `hi $name, you are $age` yields `["$name", "$age"]` |
| Scenarios.DollarInsideWord | src/store/generate.ts:119 | `word$inside` yields nothing now; the older pattern yields `$inside` |
| Scenarios.DigitEndsCurrentToken | src/store/generate.ts:119 | `$age2` yields `$age` now; the older pattern yields `$age2` |
| Scenarios.ExpandTwoVariables | src/store/generate.ts:164-193 | `A $a $b` with a:[x,y], b:[1,2] yields `A x 1`, `A x 2`, `A y 1`, `A y 2` |
| Scenarios.BuildersDifferOnEmptyList | src/promptMatrix.ts:19 | `$b` with a:[], b:[x]: the current builder yields `[]`, the older one `["x"]` |
| Scenarios.ForceStatuses | src/store/queue.ts:56-68 | two status updates change only their own items |
| Scenarios.ClearCompletedExample | src/store/queue.ts:69-75 | [Completed, Pending, Failed] clears to [Pending, Failed] |
| Scenarios.ClearCompletedScenario | src/store/queue.ts:24-75 | push three jobs, complete the first, fail the third, clear completed: jobs 2 (Pending) and 3 (Failed) remain |
| Scenarios.ExtractThenPushAsWritten | src/promptMatrix.ts:39-48 | push `age`, `extractVars`, push `gender`: `[age, gender]` is published |
| Scenarios.ExtractThenPush | src/promptMatrix.ts:40-42 | with the corrected reset, the same steps publish only `[gender]` |

## Left out

- Persistence: `localStorage` reads and writes and JSON encoding are left out. The stores hold in-memory sequences, and each constructor takes the loaded list as a parameter.
- Storage-only `set` methods: these write storage without touching the in-memory list (`src/store/queue.ts:21-23`, `src/store/generate.ts:67-69`, `src/store.ts:34-36`).
- Svelte plumbing: `writable`, `derived` and `subscribe`. Derived stores are pure functions of the state.
- Flags and simple stores: the start, stop, processing and expanded flags, `prompt`, `isGenerating`, `elapsed`, `reusePrompt`, `runFilter`, `runSortOrder`, the Python path and the Stable Diffusion directory. These hold values but no logic.
- The raw `set` of the current bindings store (`src/store/generate.ts:131`). None of the modelled code calls it. The raw `set` of the older store is modelled as `Store.Store.SetCustomVars`.
- `sortedRuns`: it depends on `Date.parse`, which yields floating-point values or NaN, and it sorts the shared array in place.
- The Rust side (`src-tauri`), `src/store/form.ts`, `src/utils.ts`, `src/tooltip.js`, `src/store/system.ts`, `src/store/index.ts` and the Tailwind configuration are not part of this model. They are UI wiring, process spawning and filesystem I/O.
- Text.ReplaceAll: replaces literally. JavaScript's replacement patterns (`$$`, `$&`, `` $` ``, `$'`) in a value are not interpreted, so a value containing `$` can expand differently in the source.
- Text.ToLower: handles ASCII letters only. Full Unicode case mapping is not modelled.
- Text.IsWordChar: covers ASCII only, which is what `\w` means without the `u` flag. The `i` flag on the older pattern changes nothing, because `\w` already covers both cases.
- Queue items are values. The source writes `status` into a shared object, and that object could also be reachable from elsewhere; that aliasing is not captured.
- Dates are integers (milliseconds) and `scale` is a real. Number formatting and precision are not modelled.
- Logging: the `console.log` calls in the queue's `remove` and `updateStatus` (`src/store/queue.ts:35-38`, `src/store/queue.ts:58-61`) are not modelled; they print the queue and the index and change no state.
- `async` on the queue's `remove` and `updateStatus`: it has no `await`, so both are modelled as sequential.
- PromptMatrix.BuildStrings: requires every binding to have a value list, as the `CustomVar` type declares (`src/types.ts:17-20`). The error a missing list would raise at run time is not modelled.
- PromptMatrix.LegacyExtract: gives each match array only its matched text. The `index`, `input` and `groups` properties of a match are not modelled.

## Findings

| source | as written | input that shows it | evidently intended | confidence | as-written member | corrected member |
|---|---|---|---|---|---|---|
| src/store.ts:110 | `extractVars` (src/promptMatrix.ts:41) clears the bindings with the store's raw `set([])`. That setter replaces only the published value; the closure array `storedCustomVars`, which `push` and `remove` work on, keeps the old bindings. | push `age`, then `extractVars`, then push `gender`: `[age, gender]` is published | the reset empties the bindings, so the next push publishes `[gender]` | high; follows from the code, not executed | Scenarios.ExtractThenPushAsWritten | Scenarios.ExtractThenPush |

In the model, `Store.Store.SetCustomVars` is the setter as written, and
`PromptMatrix.ExtractVars` calls it as the source does.
`Store.Store.ResetCustomVars` is the corrected reset, and
`PromptMatrix.ExtractVarsCorrected` calls it.
