/** One pass of the prompt-matrix expansion, shared by both builders: for
    each partial prompt (outer loop) and each value of the current variable
    (inner loop), replace every `$name` in the partial by the value. */
module Matrix {
  import opened Text

  /** The literal a variable is written as in a prompt. */
  function TokenOf(name: string): (t: string)
    ensures |t| == |name| + 1 && t[0] == '$' && t[1..] == name
  {
    "$" + name
  }

  /** The strings one partial prompt yields, one per value, in value order. */
  function Substitutions(partial: string, name: string, values: seq<string>): (r: seq<string>)
    ensures |r| == |values|
    ensures forall j :: 0 <= j < |values| ==> r[j] == ReplaceAll(partial, TokenOf(name), values[j])
  {
    seq(|values|, j requires 0 <= j < |values| => ReplaceAll(partial, TokenOf(name), values[j]))
  }

  /** The temporary list after the nested loops over `partials` and `values`. */
  function Step(partials: seq<string>, name: string, values: seq<string>): (r: seq<string>)
    ensures |r| == |partials| * |values|
    decreases |partials|
  {
    if |partials| == 0 then []
    else
      MulStep(|partials| - 1, |values|);
      Step(partials[..|partials| - 1], name, values) + Substitutions(partials[|partials| - 1], name, values)
  }

  lemma MulStep(n: nat, m: nat)
    ensures (n + 1) * m == n * m + m
  {
  }

  lemma MulBound(i: nat, j: nat, n: nat, m: nat)
    requires i < n && j < m
    ensures i * m + j < n * m
  {
    MulStep(i, m);
    assert (i + 1) * m <= n * m by {
      assert i + 1 <= n;
    }
  }

  /** Order of the pass: partial `i` with value `j` lands at `i * |values| + j`,
      partials outermost and values innermost. */
  lemma {:induction false} StepIndex(partials: seq<string>, name: string, values: seq<string>, i: nat, j: nat)
    requires i < |partials| && j < |values|
    ensures i * |values| + j < |Step(partials, name, values)|
    ensures Step(partials, name, values)[i * |values| + j] == ReplaceAll(partials[i], TokenOf(name), values[j])
    decreases |partials|
  {
    var n := |partials|;
    var front := partials[..n - 1];
    MulBound(i, j, n, |values|);
    if i < n - 1 {
      StepIndex(front, name, values, i, j);
      MulBound(i, j, n - 1, |values|);
    } else {
      assert i * |values| == |Step(front, name, values)|;
    }
  }

  /** A variable with no values empties the accumulator. */
  lemma {:induction false} StepNoValues(partials: seq<string>, name: string)
    ensures Step(partials, name, []) == []
    decreases |partials|
  {
    if |partials| > 0 {
      StepNoValues(partials[..|partials| - 1], name);
    }
  }

  /** The nested `for ... of` loops that fill `temp`. */
  method SubstituteAll(partials: seq<string>, name: string, values: seq<string>) returns (temp: seq<string>)
    ensures temp == Step(partials, name, values)
  {
    temp := [];
    var p := 0;
    while p < |partials|
      invariant 0 <= p <= |partials|
      invariant temp == Step(partials[..p], name, values)
    {
      var partial := partials[p];
      ghost var before := temp;
      var v := 0;
      while v < |values|
        invariant 0 <= v <= |values|
        invariant temp == before + Substitutions(partial, name, values[..v])
      {
        assert Substitutions(partial, name, values[..v + 1])
            == Substitutions(partial, name, values[..v]) + [ReplaceAll(partial, TokenOf(name), values[v])];
        temp := temp + [ReplaceAll(partial, TokenOf(name), values[v])];
        v := v + 1;
      }
      assert values[..v] == values;
      assert partials[..p + 1][..p] == partials[..p];
      p := p + 1;
    }
    assert partials[..p] == partials;
  }
}
