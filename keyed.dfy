/** The keyed list updates behind the variable-bindings and run-history
    stores: upsert and remove of a binding by name, remove of a run by id. */
module Keyed {
  import opened Types
  import opened Lists

  /** `cv.name === name`, the key test of the bindings list. */
  function HasName(name: string): (f: CustomVar -> bool)
    ensures forall cv :: f(cv) <==> cv.name == name
    ensures forall cv: CustomVar, vs :: f(cv.(values := vs)) == f(cv)
  {
    (cv: CustomVar) => cv.name == name
  }

  /** `r.id === id`, the key test of the run history. */
  function HasRunId(id: string): (f: Run -> bool)
    ensures forall r :: f(r) <==> r.id == id
  {
    (r: Run) => r.id == id
  }

  /** Binding `push`: replace the first binding with the same name, or append. */
  function UpsertVar(vars: seq<CustomVar>, cv: CustomVar): (r: seq<CustomVar>)
    ensures cv in r
  {
    ReplaceFirstOrAppend(vars, cv, HasName(cv.name))
  }

  /** Binding `remove`: delete the first binding with the given name. */
  function RemoveVar(vars: seq<CustomVar>, name: string): (r: seq<CustomVar>)
    ensures |r| <= |vars|
  {
    RemoveFirst(vars, HasName(name))
  }

  /** Run `remove`: delete the first run with the given id. */
  function RemoveRun(runs: seq<Run>, id: string): (r: seq<Run>)
    ensures |r| <= |runs|
  {
    RemoveFirst(runs, HasRunId(id))
  }

  /** No binding of `a` is named `name`. */
  predicate NoneNamed(a: seq<CustomVar>, name: string) {
    forall k :: 0 <= k < |a| ==> a[k].name != name
  }

  /** Names are a key: no two bindings share one. */
  predicate UniqueNames(vars: seq<CustomVar>) {
    forall i, j :: 0 <= i < j < |vars| ==> vars[i].name != vars[j].name
  }

  /** Upsert of a present name replaces the first such binding in place:
      same length, every other position untouched. */
  lemma UpsertVarReplaces(a: seq<CustomVar>, prev: CustomVar, b: seq<CustomVar>, cv: CustomVar)
    requires NoneNamed(a, cv.name) && prev.name == cv.name
    ensures UpsertVar(a + [prev] + b, cv) == a + [cv] + b
  {
    ReplaceFirstSplit(a, prev, b, cv, HasName(cv.name));
  }

  /** Upsert of an absent name appends. */
  lemma UpsertVarAppends(vars: seq<CustomVar>, cv: CustomVar)
    requires NoneNamed(vars, cv.name)
    ensures UpsertVar(vars, cv) == vars + [cv]
  {
    ReplaceFirstAbsent(vars, cv, HasName(cv.name));
  }

  /** Pushing the same binding twice leaves what pushing it once does. */
  lemma UpsertVarTwice(vars: seq<CustomVar>, cv: CustomVar)
    ensures UpsertVar(UpsertVar(vars, cv), cv) == UpsertVar(vars, cv)
  {
    ReplaceFirstIdempotent(vars, cv, HasName(cv.name));
  }

  /** Remove deletes the first binding with the name and keeps the rest in order. */
  lemma RemoveVarFirst(a: seq<CustomVar>, x: CustomVar, b: seq<CustomVar>)
    requires NoneNamed(a, x.name)
    ensures RemoveVar(a + [x] + b, x.name) == a + b
  {
    RemoveFirstSplit(a, x, b, HasName(x.name));
  }

  /** Remove of an absent name is a no-op. */
  lemma RemoveVarAbsent(vars: seq<CustomVar>, name: string)
    requires NoneNamed(vars, name)
    ensures RemoveVar(vars, name) == vars
  {
    RemoveFirstAbsent(vars, HasName(name));
  }

  /** Upsert keeps names unique, and afterwards `cv` is the one binding named `cv.name`. */
  lemma UpsertVarKeepsNamesUnique(vars: seq<CustomVar>, cv: CustomVar)
    requires UniqueNames(vars)
    ensures UniqueNames(UpsertVar(vars, cv))
    ensures forall k :: 0 <= k < |UpsertVar(vars, cv)| && UpsertVar(vars, cv)[k].name == cv.name ==> UpsertVar(vars, cv)[k] == cv
  {
    var ix := FindIndex(vars, HasName(cv.name));
    var r := UpsertVar(vars, cv);
    if ix > -1 {
      assert r == vars[ix := cv];
      assert forall k :: 0 <= k < |r| ==> r[k].name == vars[k].name;
    } else {
      assert r == vars + [cv];
      assert forall k :: 0 <= k < |vars| ==> vars[k].name != cv.name;
    }
  }

  /** Remove keeps names unique and leaves no binding with the removed name. */
  lemma RemoveVarKeepsNamesUnique(vars: seq<CustomVar>, name: string)
    requires UniqueNames(vars)
    ensures UniqueNames(RemoveVar(vars, name))
    ensures NoneNamed(RemoveVar(vars, name), name)
  {
    var ix := FindIndex(vars, HasName(name));
    if ix > -1 {
      var r := RemoveVar(vars, name);
      assert r == vars[..ix] + vars[ix + 1..];
      assert forall k :: 0 <= k < |r| ==> r[k] == (if k < ix then vars[k] else vars[k + 1]);
    }
  }

  /** Remove deletes the first run with the id and keeps the rest in order. */
  lemma RemoveRunFirst(a: seq<Run>, x: Run, b: seq<Run>)
    requires forall k :: 0 <= k < |a| ==> a[k].id != x.id
    ensures RemoveRun(a + [x] + b, x.id) == a + b
  {
    RemoveFirstSplit(a, x, b, HasRunId(x.id));
  }

  /** Remove of an absent id is a no-op. */
  lemma RemoveRunAbsent(runs: seq<Run>, id: string)
    requires forall k :: 0 <= k < |runs| ==> runs[k].id != id
    ensures RemoveRun(runs, id) == runs
  {
    RemoveFirstAbsent(runs, HasRunId(id));
  }
}
