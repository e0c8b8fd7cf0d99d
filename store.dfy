/** The older global stores: the variable bindings (with the raw `set` the
    store exposes), the run history, and the two plain stores the older
    prompt-matrix code writes, `extractedVars` and `promptStrings`. */
module Store {
  import opened Types
  import opened Lists
  import opened Keyed

  class Store {
    /** The closure array `storedCustomVars` that `push` and `remove` update. */
    var storedCustomVars: seq<CustomVar>
    /** The value subscribers of `customVars` see. */
    var customVars: seq<CustomVar>
    /** The run history (closure array and published value coincide). */
    var runs: seq<Run>
    /** `extractedVars`: one single-element match array per token. */
    var extractedVars: seq<seq<string>>
    /** `promptStrings`: the expanded prompts. */
    var promptStrings: seq<string>

    /** The published bindings are the array `push` and `remove` work on. */
    predicate InSync()
      reads this
    {
      customVars == storedCustomVars
    }

    constructor (storedRuns: seq<Run>)
      ensures storedCustomVars == [] && customVars == [] && InSync()
      ensures runs == storedRuns && extractedVars == [] && promptStrings == []
    {
      storedCustomVars, customVars := [], [];
      runs := storedRuns;
      extractedVars, promptStrings := [], [];
    }

    /** `customVars.push`: upsert by name in the closure array, then publish it. */
    method PushCustomVar(customVar: CustomVar)
      modifies this`storedCustomVars, this`customVars
      ensures storedCustomVars == UpsertVar(old(storedCustomVars), customVar)
      ensures customVars == storedCustomVars
    {
      var ix := FindIndex(storedCustomVars, HasName(customVar.name));
      if ix > -1 {
        storedCustomVars := storedCustomVars[ix := customVar];
      } else {
        storedCustomVars := storedCustomVars + [customVar];
      }
      customVars := storedCustomVars;
    }

    /** `customVars.remove`: delete the first binding with the name from the
        closure array and publish it; an absent name publishes nothing. */
    method RemoveCustomVar(customVar: CustomVar)
      modifies this`storedCustomVars, this`customVars
      ensures storedCustomVars == RemoveVar(old(storedCustomVars), customVar.name)
      ensures customVars ==
        if NoneNamed(old(storedCustomVars), customVar.name) then old(customVars) else storedCustomVars
      ensures old(InSync()) ==> InSync()
    {
      var ix := FindIndex(storedCustomVars, HasName(customVar.name));
      if ix > -1 {
        storedCustomVars := storedCustomVars[..ix] + storedCustomVars[ix + 1..];
        customVars := storedCustomVars;
      }
    }

    /** `customVars.set`, as written: the raw store setter, which publishes
        `value` but leaves the closure array as it was. */
    method SetCustomVars(value: seq<CustomVar>)
      modifies this`customVars
      ensures customVars == value && storedCustomVars == old(storedCustomVars)
    {
      customVars := value;
    }

    /** Corrected reset: empty the closure array as well as the published value. */
    method ResetCustomVars()
      modifies this`storedCustomVars, this`customVars
      ensures customVars == [] && storedCustomVars == [] && InSync()
    {
      storedCustomVars := [];
      customVars := storedCustomVars;
    }

    /** `runs.push`: append. */
    method PushRun(run: Run)
      modifies this`runs
      ensures runs == old(runs) + [run]
    {
      runs := runs + [run];
    }

    /** `runs.remove`: delete the first run with the same id, if any. */
    method RemoveRun(run: Run)
      modifies this`runs
      ensures runs == Keyed.RemoveRun(old(runs), run.id)
      ensures (forall k :: 0 <= k < |old(runs)| ==> old(runs)[k].id != run.id) ==> runs == old(runs)
    {
      var ix := FindIndex(runs, HasRunId(run.id));
      if ix > -1 {
        runs := runs[..ix] + runs[ix + 1..];
      }
    }

    /** `runs.clear`: empty the history. */
    method ClearRuns()
      modifies this`runs
      ensures runs == []
    {
      runs := [];
    }
  }
}
