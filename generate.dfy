/** The prompt-matrix engine and list stores of the batch-generation screen:
    token extraction, expansion of a prompt against its variable bindings,
    the readiness check, the bindings store, and the run history with its
    prompt filter. */
module Generate {
  import opened Types
  import opened Lists
  import opened Text
  import opened Tokens
  import opened Matrix
  import opened Keyed

  // ---------------------------------------------------------------------
  // Token extraction
  // ---------------------------------------------------------------------

  /** `extractVars`: every match of `\B\$[a-zA-z]+`, left to right,
      duplicates kept: exactly the token at each position where a `$` not
      preceded by a word character is followed by a character in A-z. */
  function ExtractVars(prompt: string): (r: seq<string>)
    ensures r == TokensAt(Current, prompt, StartsFrom(Current, prompt, 0))
    ensures forall k :: 0 <= k < |r| ==> IsToken(Current, r[k])
  {
    ScanCharacterized(Current, prompt);
    Scan(Current, prompt)
  }

  // ---------------------------------------------------------------------
  // Prompt-matrix expansion
  // ---------------------------------------------------------------------

  /** What `buildPromptStrings` returns: `undefined` for no variables,
      `null` when no variable has values, otherwise the expanded strings. */
  datatype Expansion = Undefined | Null | Strings(strings: seq<string>)

  /** The accumulator `newPromptStrings` after the `forEach` has visited
      `vars`: `None` (null) until a variable with values is met; that one
      starts from `[prompt]`. An empty array is truthy in the source, so an
      empty accumulator is never re-seeded. */
  function Accumulate(prompt: string, vars: seq<CustomVar>): (r: Option<seq<string>>)
    ensures r.None? <==> forall k :: 0 <= k < |vars| ==> vars[k].values.None?
    decreases |vars|
  {
    if |vars| == 0 then None
    else
      var front := vars[..|vars| - 1];
      assert forall k :: 0 <= k < |front| ==> front[k] == vars[k];
      var prev := Accumulate(prompt, front);
      var cv := vars[|vars| - 1];
      match cv.values
      case None => prev
      case Some(vals) => Some(Step(if prev.None? then [prompt] else prev.value, cv.name, vals))
  }

  /** Specification of `buildPromptStrings`. */
  function PromptStrings(prompt: string, vars: seq<CustomVar>): (r: Expansion)
    ensures r == Undefined <==> |vars| == 0
    ensures r == Null <==> |vars| > 0 && forall k :: 0 <= k < |vars| ==> vars[k].values.None?
  {
    if |vars| == 0 then Undefined
    else match Accumulate(prompt, vars)
      case None => Null
      case Some(ss) => Strings(ss)
  }

  /** `buildPromptStrings`: the `forEach` over the variables, skipping those
      without values, and the nested loops of each pass. */
  method BuildPromptStrings(prompt: string, customVars: seq<CustomVar>) returns (r: Expansion)
    ensures r == PromptStrings(prompt, customVars)
  {
    if |customVars| == 0 {
      return Undefined;
    }
    var newPromptStrings: Option<seq<string>> := None;
    var i := 0;
    while i < |customVars|
      invariant 0 <= i <= |customVars|
      invariant newPromptStrings == Accumulate(prompt, customVars[..i])
    {
      var customVar := customVars[i];
      assert customVars[..i + 1][..i] == customVars[..i];
      if customVar.values.Some? {
        var partials := if newPromptStrings.None? then [prompt] else newPromptStrings.value;
        var temp := SubstituteAll(partials, customVar.name, customVar.values.value);
        newPromptStrings := Some(temp);
      }
      i := i + 1;
    }
    assert customVars[..i] == customVars;
    r := if newPromptStrings.None? then Null else Strings(newPromptStrings.value);
  }

  /** Number of values of a binding, counting a missing list as 1 (skipped). */
  function Width(cv: CustomVar): nat {
    match cv.values
    case None => 1
    case Some(vals) => |vals|
  }

  /** The product of the value counts of the bindings that have values. */
  function PresentProduct(vars: seq<CustomVar>): (n: nat)
    ensures (forall k :: 0 <= k < |vars| ==> vars[k].values.None?) ==> n == 1
    ensures (exists k :: 0 <= k < |vars| && vars[k].values == Some([])) ==> n == 0
    decreases |vars|
  {
    if |vars| == 0 then 1
    else
      var front := vars[..|vars| - 1];
      assert forall k :: 0 <= k < |front| ==> front[k] == vars[k];
      PresentProduct(front) * Width(vars[|vars| - 1])
  }

  /** Once a binding has values, the accumulator holds as many strings as
      the product of the value counts. */
  lemma {:induction false} AccumulateSize(prompt: string, vars: seq<CustomVar>)
    ensures Accumulate(prompt, vars).Some? ==> |Accumulate(prompt, vars).value| == PresentProduct(vars)
    decreases |vars|
  {
    if |vars| > 0 {
      var n := |vars|;
      var front := vars[..n - 1];
      assert forall k :: 0 <= k < n - 1 ==> front[k] == vars[k];
      AccumulateSize(prompt, front);
    }
  }

  /** Result size: as many strings as the product of the value counts, so
      a binding with `[]` makes the result `[]`. */
  lemma PromptStringsShape(prompt: string, vars: seq<CustomVar>)
    ensures PromptStrings(prompt, vars).Strings? ==>
      |PromptStrings(prompt, vars).strings| == PresentProduct(vars)
    ensures (exists k :: 0 <= k < |vars| && vars[k].values == Some([])) ==>
      PromptStrings(prompt, vars) == Strings([])
  {
    AccumulateSize(prompt, vars);
  }

  /** A choice of one value index per binding (ignored for bindings without values). */
  predicate ValidChoice(vars: seq<CustomVar>, choice: seq<nat>) {
    |choice| == |vars| &&
    forall k :: 0 <= k < |vars| && vars[k].values.Some? ==> choice[k] < |vars[k].values.value|
  }

  /** The prompt with each binding's chosen value substituted, binding by
      binding in list order. */
  function Substitute(prompt: string, vars: seq<CustomVar>, choice: seq<nat>): string
    requires ValidChoice(vars, choice)
    decreases |vars|
  {
    if |vars| == 0 then prompt
    else
      var n := |vars|;
      assert ValidChoice(vars[..n - 1], choice[..n - 1]);
      var prev := Substitute(prompt, vars[..n - 1], choice[..n - 1]);
      match vars[n - 1].values
      case None => prev
      case Some(vals) => ReplaceAll(prev, TokenOf(vars[n - 1].name), vals[choice[n - 1]])
  }

  /** Mixed-radix position of a choice: the first binding is the most
      significant digit, the last the least. */
  function Rank(vars: seq<CustomVar>, choice: seq<nat>): nat
    requires |choice| == |vars|
    decreases |vars|
  {
    if |vars| == 0 then 0
    else
      var n := |vars|;
      var prev := Rank(vars[..n - 1], choice[..n - 1]);
      match vars[n - 1].values
      case None => prev
      case Some(vals) => prev * |vals| + choice[n - 1]
  }

  lemma {:induction false} NoValuesSubstitutesNothing(prompt: string, vars: seq<CustomVar>, choice: seq<nat>)
    requires ValidChoice(vars, choice)
    requires forall k :: 0 <= k < |vars| ==> vars[k].values.None?
    ensures Substitute(prompt, vars, choice) == prompt && Rank(vars, choice) == 0
    decreases |vars|
  {
    if |vars| > 0 {
      var n := |vars|;
      assert ValidChoice(vars[..n - 1], choice[..n - 1]);
      NoValuesSubstitutesNothing(prompt, vars[..n - 1], choice[..n - 1]);
    }
  }

  /** The expansion is the Cartesian product in loop order: the combination
      `choice` sits at position `Rank(vars, choice)`. */
  lemma {:induction false} ExpansionHoldsEveryCombination(prompt: string, vars: seq<CustomVar>, choice: seq<nat>)
    requires ValidChoice(vars, choice)
    requires Accumulate(prompt, vars).Some?
    ensures Rank(vars, choice) < |Accumulate(prompt, vars).value|
    ensures Accumulate(prompt, vars).value[Rank(vars, choice)] == Substitute(prompt, vars, choice)
    decreases |vars|
  {
    var n := |vars|;
    var front, cfront, j := vars[..n - 1], choice[..n - 1], choice[n - 1];
    assert ValidChoice(front, cfront);
    assert choice == cfront + [j];
    ExtendChoice(prompt, vars, cfront, j);
    var prev := Accumulate(prompt, front);
    var cv := vars[n - 1];
    match cv.values
    case None =>
      ExpansionHoldsEveryCombination(prompt, front, cfront);
    case Some(vals) =>
      if prev.None? {
        NoValuesSubstitutesNothing(prompt, front, cfront);
        StepIndex([prompt], cv.name, vals, 0, j);
      } else {
        ExpansionHoldsEveryCombination(prompt, front, cfront);
        StepIndex(prev.value, cv.name, vals, Rank(front, cfront), j);
      }
  }

  lemma DivMod(k: nat, m: nat)
    requires m > 0
    ensures k == (k / m) * m + k % m && 0 <= k % m < m
  {
  }

  lemma MulLess(i: nat, m: nat, n: nat)
    requires m > 0 && i * m < n * m
    ensures i < n
  {
  }

  /** Conversely every expanded string is some combination, at its rank. */
  lemma {:induction false} EveryStringIsACombination(prompt: string, vars: seq<CustomVar>, k: nat)
    requires Accumulate(prompt, vars).Some? && k < |Accumulate(prompt, vars).value|
    ensures exists choice :: (ValidChoice(vars, choice) && Rank(vars, choice) == k &&
      Accumulate(prompt, vars).value[k] == Substitute(prompt, vars, choice))
    decreases |vars|
  {
    var n := |vars|;
    var front := vars[..n - 1];
    var prev := Accumulate(prompt, front);
    var cv := vars[n - 1];
    var cfront: seq<nat>, j: nat;
    if cv.values.None? {
      EveryStringIsACombination(prompt, front, k);
      cfront :| ValidChoice(front, cfront) && Rank(front, cfront) == k &&
        prev.value[k] == Substitute(prompt, front, cfront);
      j := 0;
    } else {
      var vals := cv.values.value;
      var seed := if prev.None? then [prompt] else prev.value;
      var i;
      i, j := SplitIndex(seed, cv.name, vals, k);
      if prev.None? {
        AccumulateSize(prompt, front);
        cfront := seq(n - 1, _ => 0);
        NoValuesSubstitutesNothing(prompt, front, cfront);
      } else {
        EveryStringIsACombination(prompt, front, i);
        cfront :| ValidChoice(front, cfront) && Rank(front, cfront) == i &&
          prev.value[i] == Substitute(prompt, front, cfront);
      }
    }
    ExtendChoice(prompt, vars, cfront, j);
  }

  /** Splits a position of a pass into its (partial, value) pair. */
  lemma SplitIndex(partials: seq<string>, name: string, values: seq<string>, k: nat) returns (i: nat, j: nat)
    requires k < |Step(partials, name, values)|
    ensures i < |partials| && j < |values| && k == i * |values| + j
    ensures Step(partials, name, values)[k] == ReplaceAll(partials[i], TokenOf(name), values[j])
  {
    var m := |values|;
    DivMod(k, m);
    i, j := k / m, k % m;
    MulLess(i, m, |partials|);
    StepIndex(partials, name, values, i, j);
  }

  /** A choice for all but the last binding, extended by one index for the last. */
  lemma ExtendChoice(prompt: string, vars: seq<CustomVar>, cfront: seq<nat>, j: nat)
    requires |vars| > 0 && ValidChoice(vars[..|vars| - 1], cfront)
    requires vars[|vars| - 1].values.Some? ==> j < |vars[|vars| - 1].values.value|
    ensures ValidChoice(vars, cfront + [j])
    ensures Rank(vars, cfront + [j]) ==
      (match vars[|vars| - 1].values
       case None => Rank(vars[..|vars| - 1], cfront)
       case Some(vals) => Rank(vars[..|vars| - 1], cfront) * |vals| + j)
    ensures Substitute(prompt, vars, cfront + [j]) ==
      (match vars[|vars| - 1].values
       case None => Substitute(prompt, vars[..|vars| - 1], cfront)
       case Some(vals) => ReplaceAll(Substitute(prompt, vars[..|vars| - 1], cfront), TokenOf(vars[|vars| - 1].name), vals[j]))
  {
    var choice := cfront + [j];
    assert choice[..|vars| - 1] == cfront;
  }

  // ---------------------------------------------------------------------
  // Readiness check
  // ---------------------------------------------------------------------

  /** `$customVars.find(cv => "$" + cv.name === ev && cv.values)` finds a
      binding: present values count, even an empty list (truthy). */
  predicate IsBound(ev: string, vars: seq<CustomVar>)
    ensures IsBound(ev, vars) <==>
      exists j :: 0 <= j < |vars| && TokenOf(vars[j].name) == ev && vars[j].values.Some?
  {
    FindIndex(vars, (cv: CustomVar) => TokenOf(cv.name) == ev && cv.values.Some?) > -1
  }

  /** `$extractedVars.every(...)` over the extracted tokens. */
  function AllFilled(extracted: seq<string>, vars: seq<CustomVar>): (r: bool)
    ensures r <==> forall k :: 0 <= k < |extracted| ==> IsBound(extracted[k], vars)
    decreases |extracted|
  {
    if |extracted| == 0 then true else IsBound(extracted[0], vars) && AllFilled(extracted[1..], vars)
  }

  /** `allCustomVarsAreFilled` for the current prompt and bindings. */
  function AllCustomVarsAreFilled(prompt: string, vars: seq<CustomVar>): (r: bool)
    ensures r <==> forall k :: 0 <= k < |ExtractVars(prompt)| ==>
      exists j :: 0 <= j < |vars| && TokenOf(vars[j].name) == ExtractVars(prompt)[k] && vars[j].values.Some?
    ensures |ExtractVars(prompt)| == 0 ==> r
  {
    AllFilled(ExtractVars(prompt), vars)
  }

  /** A binding whose value list is empty still counts as filled. */
  lemma EmptyValuesCountAsFilled(name: string)
    ensures AllFilled([TokenOf(name)], [CustomVar(name, Some([]))])
  {
    var vars := [CustomVar(name, Some([]))];
    var p := (cv: CustomVar) => TokenOf(cv.name) == TokenOf(name) && cv.values.Some?;
    assert p(vars[0]);
  }

  // ---------------------------------------------------------------------
  // Stores
  // ---------------------------------------------------------------------

  /** The variable-bindings store; `customVars` is its array. */
  class CustomVarsStore {
    var customVars: seq<CustomVar>

    constructor ()
      ensures customVars == []
    {
      customVars := [];
    }

    /** `push`: upsert by name. */
    method Push(customVar: CustomVar)
      modifies this
      ensures customVars == UpsertVar(old(customVars), customVar)
      ensures NoneNamed(old(customVars), customVar.name) ==> customVars == old(customVars) + [customVar]
      ensures !NoneNamed(old(customVars), customVar.name) ==> |customVars| == |old(customVars)|
    {
      var ix := FindIndex(customVars, HasName(customVar.name));
      if ix > -1 {
        customVars := customVars[ix := customVar];
      } else {
        customVars := customVars + [customVar];
      }
    }

    /** `remove`: delete the first binding with the same name, if any. */
    method Remove(customVar: CustomVar)
      modifies this
      ensures customVars == RemoveVar(old(customVars), customVar.name)
      ensures NoneNamed(old(customVars), customVar.name) ==> customVars == old(customVars)
    {
      var ix := FindIndex(customVars, HasName(customVar.name));
      if ix > -1 {
        customVars := customVars[..ix] + customVars[ix + 1..];
      }
    }
  }

  /** The run history store; `runs` is its array (loaded from storage). */
  class RunsStore {
    var runs: seq<Run>

    constructor (storedRuns: seq<Run>)
      ensures runs == storedRuns
    {
      runs := storedRuns;
    }

    /** `push`: append. */
    method Push(run: Run)
      modifies this
      ensures runs == old(runs) + [run]
    {
      runs := runs + [run];
    }

    /** `remove`: delete the first run with the same id, if any. */
    method Remove(run: Run)
      modifies this
      ensures runs == RemoveRun(old(runs), run.id)
      ensures (forall k :: 0 <= k < |old(runs)| ==> old(runs)[k].id != run.id) ==> runs == old(runs)
    {
      var ix := FindIndex(runs, HasRunId(run.id));
      if ix > -1 {
        runs := runs[..ix] + runs[ix + 1..];
      }
    }

    /** `clear`: empty the history. */
    method Clear()
      modifies this
      ensures runs == []
    {
      runs := [];
    }
  }

  // ---------------------------------------------------------------------
  // Run filter
  // ---------------------------------------------------------------------

  /** The filter test: the lower-cased prompt includes the lower-cased filter. */
  predicate PromptMatches(run: Run, filter: string)
    ensures PromptMatches(run, filter) <==> exists i :: OccursAt(ToLower(run.prompt), ToLower(filter), i)
    ensures filter == "" ==> PromptMatches(run, filter)
  {
    ContainsIff(ToLower(run.prompt), ToLower(filter));
    Contains(ToLower(run.prompt), ToLower(filter))
  }

  /** `filteredRuns`: all runs for the empty filter, otherwise the runs whose
      prompt contains the filter, ignoring case, in history order. */
  function FilteredRuns(runs: seq<Run>, filter: string): (r: seq<Run>)
    ensures forall k :: 0 <= k < |r| ==> r[k] in runs && PromptMatches(r[k], filter)
    ensures forall k :: 0 <= k < |runs| && PromptMatches(runs[k], filter) ==> runs[k] in r
  {
    if filter == "" then
      assert forall k :: 0 <= k < |runs| ==> PromptMatches(runs[k], filter);
      runs
    else Filter(runs, (run: Run) => PromptMatches(run, filter))
  }

  /** The empty-filter shortcut agrees with the general rule: every prompt
      includes the empty string. */
  lemma EmptyFilterKeepsAll(runs: seq<Run>)
    ensures FilteredRuns(runs, "") == runs
    ensures Filter(runs, (run: Run) => PromptMatches(run, "")) == runs
  {
    FilterKeepsAll(runs, (run: Run) => PromptMatches(run, ""));
  }

  lemma {:induction false} FilterSamePredicate<T>(s: seq<T>, p: T -> bool, q: T -> bool)
    requires forall k :: 0 <= k < |s| ==> p(s[k]) == q(s[k])
    ensures Filter(s, p) == Filter(s, q)
  {
    if |s| > 0 {
      FilterSamePredicate(s[1..], p, q);
    }
  }

  /** The filter ignores case: lower-casing it changes nothing. */
  lemma FilterIgnoresCase(runs: seq<Run>, filter: string)
    ensures FilteredRuns(runs, ToLower(filter)) == FilteredRuns(runs, filter)
  {
    ToLowerIdempotent(filter);
    if filter != "" {
      FilterSamePredicate(runs, (run: Run) => PromptMatches(run, ToLower(filter)), (run: Run) => PromptMatches(run, filter));
    }
  }

  /** A pushed run shows up at the end of the filtered view exactly when it matches. */
  lemma FilteredRunsAfterPush(runs: seq<Run>, run: Run, filter: string)
    ensures FilteredRuns(runs + [run], filter) ==
      FilteredRuns(runs, filter) + (if PromptMatches(run, filter) then [run] else [])
  {
    if filter != "" {
      var p := (r: Run) => PromptMatches(r, filter);
      FilterConcat(runs, [run], p);
      assert Filter([run], p) == (if p(run) then [run] else []) + Filter([run][1..], p);
    } else {
      assert PromptMatches(run, filter);
    }
  }
}
