/** The older prompt-matrix code: `buildStrings`, which expands a prompt and
    writes the result to the `promptStrings` store, and `extractVars`, which
    resets the stores and publishes the tokens of a prompt. */
module PromptMatrix {
  import opened Types
  import opened Text
  import opened Tokens
  import opened Matrix
  import opened Store
  import Generate

  /** Every binding has a value list, as the `CustomVar` type declares. */
  predicate AllHaveValues(vars: seq<CustomVar>) {
    forall k :: 0 <= k < |vars| ==> vars[k].values.Some?
  }

  /** Every binding has a non-empty value list. */
  predicate AllNonEmpty(vars: seq<CustomVar>) {
    forall k :: 0 <= k < |vars| ==> vars[k].values.Some? && |vars[k].values.value| > 0
  }

  /** One variable's turn of the `forEach`: an empty accumulator is
      re-seeded with `[prompt]`, then the nested loops run. */
  function LegacyPass(prompt: string, prev: seq<string>, cv: CustomVar): (r: seq<string>)
    requires cv.values.Some?
    ensures r == [] <==> cv.values.value == []
  {
    Step(if |prev| == 0 then [prompt] else prev, cv.name, cv.values.value)
  }

  /** The accumulator after the `forEach` has visited `vars`. */
  function LegacyAccumulate(prompt: string, vars: seq<CustomVar>): (r: seq<string>)
    requires AllHaveValues(vars)
    ensures |vars| == 0 ==> r == []
    ensures |vars| > 0 ==> (r == [] <==> vars[|vars| - 1].values.value == [])
    decreases |vars|
  {
    if |vars| == 0 then []
    else
      var n := |vars|;
      assert AllHaveValues(vars[..n - 1]);
      LegacyPass(prompt, LegacyAccumulate(prompt, vars[..n - 1]), vars[n - 1])
  }

  /** `buildStrings`: an empty prompt stores `[]` at once; no variables
      stores nothing; otherwise the `forEach` with its nested loops runs and
      the final accumulator is stored. */
  method BuildStrings(st: Store, prompt: string, customVarsArray: seq<CustomVar>)
    requires AllHaveValues(customVarsArray)
    modifies st`promptStrings
    ensures prompt == "" ==> st.promptStrings == []
    ensures prompt != "" && |customVarsArray| == 0 ==> st.promptStrings == old(st.promptStrings)
    ensures prompt != "" && |customVarsArray| > 0 ==>
      st.promptStrings == LegacyAccumulate(prompt, customVarsArray)
  {
    if prompt == "" {
      st.promptStrings := [];
      return;
    }
    var vars := customVarsArray;
    var newPromptStrings: seq<string> := [];
    if |vars| == 0 {
      return;
    }
    var i := 0;
    while i < |vars|
      invariant 0 <= i <= |vars|
      invariant AllHaveValues(vars[..i])
      invariant newPromptStrings == LegacyAccumulate(prompt, vars[..i])
    {
      var customVar := vars[i];
      assert vars[..i + 1][..i] == vars[..i];
      if |newPromptStrings| == 0 {
        newPromptStrings := [prompt];
      }
      var temp := SubstituteAll(newPromptStrings, customVar.name, customVar.values.value);
      newPromptStrings := temp;
      i := i + 1;
    }
    assert vars[..i] == vars;
    st.promptStrings := newPromptStrings;
  }

  /** With every value list non-empty, the result has as many strings as the
      product of the list lengths, and at least one. */
  lemma {:induction false} LegacyLength(prompt: string, vars: seq<CustomVar>)
    requires AllNonEmpty(vars)
    ensures |vars| > 0 ==> |LegacyAccumulate(prompt, vars)| == Generate.PresentProduct(vars) > 0
    decreases |vars|
  {
    if |vars| > 0 {
      var n := |vars|;
      var front := vars[..n - 1];
      assert AllNonEmpty(front);
      LegacyLength(prompt, front);
      var prev := LegacyAccumulate(prompt, front);
      var seed := if |prev| == 0 then [prompt] else prev;
      assert n - 1 == 0 ==> Generate.PresentProduct(front) == 1 && |seed| == 1;
    }
  }

  /** With every value list non-empty the older builder and the current one
      expand to the same strings. */
  lemma {:induction false} LegacyAgreesWithCurrent(prompt: string, vars: seq<CustomVar>)
    requires AllNonEmpty(vars) && |vars| > 0
    ensures Generate.Accumulate(prompt, vars) == Some(LegacyAccumulate(prompt, vars))
    decreases |vars|
  {
    var n := |vars|;
    var front := vars[..n - 1];
    assert AllNonEmpty(front);
    if n > 1 {
      LegacyAgreesWithCurrent(prompt, front);
      LegacyLength(prompt, front);
    } else {
      assert front == [];
    }
  }

  lemma {:induction false} LegacyRestartPrefix(prompt: string, vars: seq<CustomVar>, k: nat, m: nat)
    requires AllHaveValues(vars) && k < m <= |vars| && vars[k].values == Some([])
    ensures AllHaveValues(vars[..m]) && AllHaveValues(vars[k + 1..m])
    ensures LegacyAccumulate(prompt, vars[..m]) == LegacyAccumulate(prompt, vars[k + 1..m])
    decreases m
  {
    assert AllHaveValues(vars[..m]);
    assert AllHaveValues(vars[k + 1..m]);
    if m > k + 1 {
      LegacyRestartPrefix(prompt, vars, k, m - 1);
      var a, b := vars[..m], vars[k + 1..m];
      assert a[..m - 1] == vars[..m - 1];
      assert b[..|b| - 1] == vars[k + 1..m - 1];
      assert a[m - 1] == b[|b| - 1];
      assert AllHaveValues(vars[..m - 1]) && AllHaveValues(vars[k + 1..m - 1]);
      assert LegacyAccumulate(prompt, a) == LegacyPass(prompt, LegacyAccumulate(prompt, vars[..m - 1]), a[m - 1]);
      assert LegacyAccumulate(prompt, b) == LegacyPass(prompt, LegacyAccumulate(prompt, vars[k + 1..m - 1]), a[m - 1]);
    }
  }

  /** After a variable with an empty list the expansion starts again from
      the raw prompt: the variables before it no longer matter. */
  lemma LegacyRestart(prompt: string, vars: seq<CustomVar>, k: nat)
    requires AllHaveValues(vars) && k < |vars| && vars[k].values == Some([])
    ensures AllHaveValues(vars[k + 1..])
    ensures LegacyAccumulate(prompt, vars) == LegacyAccumulate(prompt, vars[k + 1..])
  {
    LegacyRestartPrefix(prompt, vars, k, |vars|);
    assert vars[..|vars|] == vars;
    assert vars[k + 1..|vars|] == vars[k + 1..];
  }

  /** The match arrays `[...prompt.matchAll(/\$[\w]+/gi)]`: one
      single-element array per token, left to right. */
  function LegacyExtract(prompt: string): (r: seq<seq<string>>)
    ensures |r| == |StartsFrom(Legacy, prompt, 0)|
    ensures forall k :: 0 <= k < |r| ==> r[k] == [TokenAt(Legacy, prompt, StartsFrom(Legacy, prompt, 0)[k])]
  {
    ScanCharacterized(Legacy, prompt);
    var tokens := Scan(Legacy, prompt);
    seq(|tokens|, k requires 0 <= k < |tokens| => [tokens[k]])
  }

  /** `extractVars` as written: clear the bindings with the raw setter and
      the expanded prompts, then publish the tokens. The raw setter leaves
      the closure array of the bindings as it was. */
  method ExtractVars(st: Store, prompt: string)
    modifies st`customVars, st`promptStrings, st`extractedVars
    ensures st.customVars == [] && st.promptStrings == []
    ensures st.storedCustomVars == old(st.storedCustomVars)
    ensures st.extractedVars == LegacyExtract(prompt)
    ensures st.runs == old(st.runs)
  {
    st.SetCustomVars([]);
    st.promptStrings := [];
    st.extractedVars := LegacyExtract(prompt);
  }

  /** `extractVars` with the corrected reset: the closure array is cleared
      too, so the bindings stay in sync. */
  method ExtractVarsCorrected(st: Store, prompt: string)
    modifies st`storedCustomVars, st`customVars, st`promptStrings, st`extractedVars
    ensures st.customVars == [] && st.storedCustomVars == [] && st.InSync() && st.promptStrings == []
    ensures st.extractedVars == LegacyExtract(prompt)
    ensures st.runs == old(st.runs)
  {
    st.ResetCustomVars();
    st.promptStrings := [];
    st.extractedVars := LegacyExtract(prompt);
  }
}
