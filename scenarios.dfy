/** Worked examples of the model on small inputs: token and expansion
    examples, an input on which the two builders differ, the older
    `extractVars` followed by a push, and clearing the completed jobs of a queue. */
module Scenarios {
  import opened Types
  import opened Text
  import opened Tokens
  import opened Matrix
  import Generate
  import Queue
  import PromptMatrix
  import Keyed
  import Store

  const NameAge := "hi $name, you are $age"

  lemma NameAgeTail()
    ensures ScanFrom(Current, NameAge, 8) == ["$age"]
  {
    var s := NameAge;
    assert forall k :: 8 <= k < 18 ==> s[k] != '$';
    SkipNoDollar(Current, s, 8, 18);
    assert s[18..22] == "$age";
    assert forall k :: 18 < k < 22 ==> InRun(Current, s[k]);
    ScanFromMatch(Current, s, 18, 22);
  }

  lemma NameAgeHead()
    ensures ScanFrom(Current, NameAge, 0) == ["$name"] + ScanFrom(Current, NameAge, 8)
  {
    var s := NameAge;
    assert forall k :: 0 <= k < 3 ==> s[k] != '$';
    SkipNoDollar(Current, s, 0, 3);
    assert s[3..8] == "$name";
    assert s[8] == ',';
    assert forall k :: 3 < k < 8 ==> InRun(Current, s[k]);
    ScanFromMatch(Current, s, 3, 8);
  }

  /** Tokens come out left to right. */
  lemma ExtractNameAndAge()
    ensures Generate.ExtractVars(NameAge) == ["$name", "$age"]
  {
    NameAgeHead();
    NameAgeTail();
  }

  const WordDollar := "word$inside"

  lemma WordDollarCurrent()
    ensures ScanFrom(Current, WordDollar, 0) == []
  {
    var s := WordDollar;
    assert forall k :: 0 <= k < 4 ==> s[k] != '$';
    SkipNoDollar(Current, s, 0, 4);
    assert !StartsToken(Current, s, 4);
    assert forall k :: 5 <= k < |s| ==> s[k] != '$';
    SkipNoDollar(Current, s, 5, |s|);
  }

  lemma WordDollarLegacy()
    ensures ScanFrom(Legacy, WordDollar, 0) == ["$inside"]
  {
    var s := WordDollar;
    assert forall k :: 0 <= k < 4 ==> s[k] != '$';
    SkipNoDollar(Legacy, s, 0, 4);
    assert s[4..|s|] == "$inside";
    assert forall k :: 4 < k < |s| ==> InRun(Legacy, s[k]);
    ScanFromMatch(Legacy, s, 4, |s|);
  }

  /** Under the current rule a `$` inside a word starts no token; under the
      older rule it does. */
  lemma DollarInsideWord()
    ensures Generate.ExtractVars(WordDollar) == []
    ensures PromptMatrix.LegacyExtract(WordDollar) == [["$inside"]]
  {
    WordDollarCurrent();
    WordDollarLegacy();
  }

  const Age2 := "$age2"

  lemma Age2Current()
    ensures ScanFrom(Current, Age2, 0) == ["$age"]
  {
    var s := Age2;
    assert s[..4] == "$age";
    assert forall k :: 0 < k < 4 ==> InRun(Current, s[k]);
    ScanFromMatch(Current, s, 0, 4);
    SkipNoDollar(Current, s, 4, 5);
  }

  lemma Age2Legacy()
    ensures ScanFrom(Legacy, Age2, 0) == ["$age2"]
  {
    var s := Age2;
    assert forall k :: 0 < k < 5 ==> InRun(Legacy, s[k]);
    ScanFromMatch(Legacy, s, 0, 5);
    assert s[0..5] == s;
  }

  /** The current run stops at a digit; the older one takes it. */
  lemma DigitEndsCurrentToken()
    ensures Generate.ExtractVars(Age2) == ["$age"]
    ensures PromptMatrix.LegacyExtract(Age2) == [["$age2"]]
  {
    Age2Current();
    Age2Legacy();
  }

  const Template := "A $a $b"

  lemma SubstituteA(v: string)
    requires |v| == 1 && v[0] != '$'
    ensures ReplaceAll(Template, "$a", v) == "A " + v + " $b"
  {
    var p := "$a";
    ReplaceAllShort("b", p, v);
    assert "$b"[..2] != p by { assert "$b"[..2][1] != p[1]; }
    assert "$b"[1..] == "b";
    ReplaceAllSkips(" ", "$b", p, v);
    ReplaceAllAtFront(p, " $b", v);
    ReplaceAllSkips("A ", "$a $b", p, v);
    assert Template == "A " + (p + " $b");
    assert " $b" == " " + "$b";
  }

  lemma SubstituteB(u: string, v: string)
    requires |u| == 1 && u[0] != '$'
    ensures ReplaceAll("A " + u + " $b", "$b", v) == "A " + u + " " + v
  {
    var p := "$b";
    ReplaceAllAtFront(p, "", v);
    ReplaceAllShort("", p, v);
    ReplaceAllSkips("A " + u + " ", p, p, v);
    assert "A " + u + " $b" == ("A " + u + " ") + p;
    assert p + "" == p;
  }

  lemma FirstPass()
    ensures Step([Template], "a", ["x", "y"]) == ["A x $b", "A y $b"]
  {
    assert TokenOf("a") == "$a";
    SubstituteA("x");
    SubstituteA("y");
    assert [Template][..0] == [];
    var subs := Substitutions(Template, "a", ["x", "y"]);
    assert subs[0] == "A x $b" && subs[1] == "A y $b";
    assert Step([Template], "a", ["x", "y"]) == [] + subs;
  }

  lemma SecondPassAt(u: string)
    requires u == "x" || u == "y"
    ensures Substitutions("A " + u + " $b", "b", ["1", "2"]) == ["A " + u + " 1", "A " + u + " 2"]
  {
    assert TokenOf("b") == "$b";
    SubstituteB(u, "1");
    SubstituteB(u, "2");
    var subs := Substitutions("A " + u + " $b", "b", ["1", "2"]);
    assert subs[0] == "A " + u + " 1" && subs[1] == "A " + u + " 2";
  }

  lemma SecondPass()
    ensures Step(["A x $b", "A y $b"], "b", ["1", "2"]) == ["A x 1", "A x 2", "A y 1", "A y 2"]
  {
    SecondPassAt("x");
    SecondPassAt("y");
    assert "A " + "x" + " $b" == "A x $b" && "A " + "y" + " $b" == "A y $b";
    assert "A " + "x" + " 1" == "A x 1" && "A " + "x" + " 2" == "A x 2";
    assert "A " + "y" + " 1" == "A y 1" && "A " + "y" + " 2" == "A y 2";
    var ps := ["A x $b", "A y $b"];
    assert ps[..1] == ["A x $b"];
    assert ps[..1][..0] == [];
    assert Step(ps[..1], "b", ["1", "2"]) == [] + ["A x 1", "A x 2"];
  }

  /** The example expansion: first variable outermost, values innermost. */
  lemma ExpandTwoVariables()
    ensures Generate.PromptStrings(Template, [CustomVar("a", Some(["x", "y"])), CustomVar("b", Some(["1", "2"]))])
      == Generate.Strings(["A x 1", "A x 2", "A y 1", "A y 2"])
  {
    var a := CustomVar("a", Some(["x", "y"]));
    var b := CustomVar("b", Some(["1", "2"]));
    FirstPass();
    SecondPass();
    assert [a, b][..1] == [a];
    assert [a][..0] == [];
    assert Generate.Accumulate(Template, [a]) == Some(["A x $b", "A y $b"]);
    assert Generate.Accumulate(Template, [a, b]) == Some(["A x 1", "A x 2", "A y 1", "A y 2"]);
  }

  /** An empty value list followed by another variable: the current builder
      yields nothing, the older one starts again from the raw prompt. */
  lemma BuildersDifferOnEmptyList()
    ensures Generate.PromptStrings("$b", [CustomVar("a", Some([])), CustomVar("b", Some(["x"]))])
      == Generate.Strings([])
    ensures PromptMatrix.LegacyAccumulate("$b", [CustomVar("a", Some([])), CustomVar("b", Some(["x"]))]) == ["x"]
  {
    var a := CustomVar("a", Some([]));
    var b := CustomVar("b", Some(["x"]));
    var vars := [a, b];
    assert vars[0].values == Some([]);
    Generate.PromptStringsShape("$b", vars);
    PromptMatrix.LegacyRestart("$b", vars, 0);
    assert vars[1..] == [b];
    assert [b][..0] == [];
    ReplaceAllAtFront("$b", "", "x");
    ReplaceAllShort("", "$b", "x");
    assert "$b" + "" == "$b";
    assert ["$b"][..0] == [];
    assert TokenOf("b") == "$b";
    assert ReplaceAll("$b", "$b", "x") == "x";
    var subs := Substitutions("$b", "b", ["x"]);
    assert subs[0] == ReplaceAll("$b", TokenOf("b"), "x");
    assert subs == ["x"];
    assert Step(["$b"], "b", ["x"]) == [] + subs;
  }

  /** Forcing the first job to Completed and the third to Failed changes only those two. */
  lemma ForceStatuses(j1: QueueItem, j2: QueueItem, j3: QueueItem)
    requires j1.id != j2.id && j1.id != j3.id && j2.id != j3.id
    ensures Queue.WithStatus(Queue.WithStatus([j1, j2, j3], j1.id, Completed), j3.id, Failed)
      == [j1.(status := Completed), j2, j3.(status := Failed)]
  {
    Queue.UpdateStatusChangesOne([], j1, [j2, j3], Completed);
    assert [j1, j2, j3] == [] + [j1] + [j2, j3];
    var done := j1.(status := Completed);
    assert [] + [done] + [j2, j3] == [done, j2] + [j3] + [];
    Queue.UpdateStatusChangesOne([done, j2], j3, [], Failed);
  }

  /** Clearing Completed from [Completed, Pending, Failed] leaves [Pending, Failed]. */
  lemma ClearCompletedExample(a: QueueItem, b: QueueItem, c: QueueItem)
    requires a.status == Completed && b.status == Pending && c.status == Failed
    ensures Queue.IncompleteQueue([a, b, c]) == [b, c]
  {
    Queue.ClearCompletedPreservesOrder([a], [b, c]);
    Queue.ClearCompletedPreservesOrder([b, c], []);
    assert [a] + [b, c] == [a, b, c];
    assert [b, c] + [] == [b, c];
    assert Queue.IncompleteQueue([a]) == [];
  }

  /** Three jobs enqueued and forced to Completed, Pending and Failed:
      clearing the completed ones leaves the Pending and the Failed job, in
      that order. */
  method ClearCompletedScenario(run: Run) returns (remaining: seq<QueueItem>)
    ensures |remaining| == 2
    ensures remaining[0].id == "2" && remaining[0].status == Pending
    ensures remaining[1].id == "3" && remaining[1].status == Failed
  {
    var q := new Queue.QueueStore([]);
    var j1 := QueueItem("1", run, Pending, 0, None, None);
    var j2 := QueueItem("2", run, Pending, 0, None, None);
    var j3 := QueueItem("3", run, Pending, 0, None, None);
    q.Push(j1);
    q.Push(j2);
    q.Push(j3);
    assert q.queue == [j1, j2, j3];
    q.UpdateStatus("1", Completed);
    q.UpdateStatus("3", Failed);
    ForceStatuses(j1, j2, j3);
    ClearCompletedExample(j1.(status := Completed), j2, j3.(status := Failed));
    q.ClearCompleted();
    remaining := q.queue;
  }

  /** As written, the older `extractVars` does not clear the bindings for
      good: push `age`, extract the tokens of a new prompt, push `gender`,
      and `age` is published again. */
  method ExtractThenPushAsWritten() returns (published: seq<CustomVar>)
    ensures published == [CustomVar("age", Some(["old", "young"])), CustomVar("gender", Some(["woman"]))]
  {
    var st := new Store.Store([]);
    var age := CustomVar("age", Some(["old", "young"]));
    var gender := CustomVar("gender", Some(["woman"]));
    st.PushCustomVar(age);
    PromptMatrix.ExtractVars(st, "a $gender");
    assert st.customVars == [] && st.storedCustomVars == [age];
    Keyed.UpsertVarAppends([age], gender);
    st.PushCustomVar(gender);
    published := st.customVars;
  }

  /** With the corrected reset, the same steps publish only `gender`. */
  method ExtractThenPush() returns (published: seq<CustomVar>)
    ensures published == [CustomVar("gender", Some(["woman"]))]
  {
    var st := new Store.Store([]);
    var age := CustomVar("age", Some(["old", "young"]));
    var gender := CustomVar("gender", Some(["woman"]));
    st.PushCustomVar(age);
    PromptMatrix.ExtractVarsCorrected(st, "a $gender");
    Keyed.UpsertVarAppends([], gender);
    st.PushCustomVar(gender);
    published := st.customVars;
  }
}
