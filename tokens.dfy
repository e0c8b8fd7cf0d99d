/** The global regular-expression scan (`matchAll`) that finds `$name`
    placeholders in a prompt, for the two patterns the code base has used:
    `\B\$[a-zA-z]+` (the current one) and `\$[\w]+` (the older one). */
module Tokens {
  import opened Text

  /** Which token pattern is scanned for. */
  datatype Rule =
    | Current  // `\B\$[a-zA-z]+`: guarded by `\B`, run over the range A-z
    | Legacy   // `\$[\w]+`: no guard, run over word characters

  /** The characters a token's run after `$` may contain. */
  predicate InRun(rule: Rule, c: char)
    ensures InRun(rule, c) ==> c != '$'
    ensures 'a' <= c <= 'z' || 'A' <= c <= 'Z' || c == '_' ==> InRun(rule, c)
    ensures '0' <= c <= '9' ==> (InRun(rule, c) <==> rule == Legacy)
  {
    match rule
    case Current => InLetterRange(c)
    case Legacy => IsWordChar(c)
  }

  /** The position before `s[i]` satisfies the pattern's leading assertion.
      For `\B` in front of the non-word `$`: the string starts there or the
      previous character is not a word character. */
  predicate Guarded(rule: Rule, s: string, i: nat)
    requires i < |s|
    ensures rule == Legacy ==> Guarded(rule, s, i)
    ensures rule == Current && s[i] == '$' ==> (Guarded(rule, s, i) <==> NoWordBoundary(s, i))
  {
    match rule
    case Current => i == 0 || !IsWordChar(s[i - 1])
    case Legacy => true
  }

  /** A match of the pattern begins at `i`. */
  predicate StartsToken(rule: Rule, s: string, i: nat)
    requires i < |s|
    ensures StartsToken(rule, s, i) ==> s[i] == '$' && i + 1 < |s| && s[i + 1] != '$'
    ensures StartsToken(rule, s, i) && rule == Current ==> NoWordBoundary(s, i)
    ensures rule == Legacy && s[i] == '$' && i + 1 < |s| && IsWordChar(s[i + 1]) ==> StartsToken(rule, s, i)
  {
    s[i] == '$' && Guarded(rule, s, i) && i + 1 < |s| && InRun(rule, s[i + 1])
  }

  /** End of the maximal run of `InRun` characters starting at `j` (the greedy `+`). */
  function RunEnd(rule: Rule, s: string, j: nat): (e: nat)
    requires j <= |s|
    ensures j <= e <= |s|
    ensures forall k :: j <= k < e ==> InRun(rule, s[k])
    ensures e == |s| || !InRun(rule, s[e])
    decreases |s| - j
  {
    if j < |s| && InRun(rule, s[j]) then RunEnd(rule, s, j + 1) else j
  }

  /** The text of the match that begins at `i`. */
  function TokenAt(rule: Rule, s: string, i: nat): (t: string)
    requires i < |s| && StartsToken(rule, s, i)
    ensures |t| >= 2 && t[0] == '$'
    ensures forall k :: 1 <= k < |t| ==> InRun(rule, t[k])
  {
    s[i..RunEnd(rule, s, i + 1)]
  }

  /** A well-formed token: `$` then a non-empty run of `InRun` characters. */
  predicate IsToken(rule: Rule, t: string) {
    |t| >= 2 && t[0] == '$' && forall k :: 1 <= k < |t| ==> InRun(rule, t[k])
  }

  /** The engine's scan from `i`: try to match at `i`; on success emit the
      match and resume at its end, otherwise resume one character later. */
  function ScanFrom(rule: Rule, s: string, i: nat): (r: seq<string>)
    requires i <= |s|
    ensures forall k :: 0 <= k < |r| ==> IsToken(rule, r[k])
    decreases |s| - i
  {
    if i == |s| then []
    else if StartsToken(rule, s, i) then [TokenAt(rule, s, i)] + ScanFrom(rule, s, RunEnd(rule, s, i + 1))
    else ScanFrom(rule, s, i + 1)
  }

  /** All matches in `s`, left to right, duplicates kept. */
  function Scan(rule: Rule, s: string): (r: seq<string>)
    ensures forall k :: 0 <= k < |r| ==> IsToken(rule, r[k])
  {
    ScanFrom(rule, s, 0)
  }

  /** Reference definition: the positions at or after `i` where a match
      begins, in increasing order, found without skipping any position. */
  function StartsFrom(rule: Rule, s: string, i: nat): (ps: seq<nat>)
    requires i <= |s|
    ensures forall k :: 0 <= k < |ps| ==> i <= ps[k] < |s| && StartsToken(rule, s, ps[k])
    ensures forall j :: i <= j < |s| && StartsToken(rule, s, j) ==> j in ps
    ensures forall k, l :: 0 <= k < l < |ps| ==> ps[k] < ps[l]
    decreases |s| - i
  {
    if i == |s| then []
    else if StartsToken(rule, s, i) then [i] + StartsFrom(rule, s, i + 1)
    else StartsFrom(rule, s, i + 1)
  }

  /** The match texts at the given start positions. */
  function TokensAt(rule: Rule, s: string, ps: seq<nat>): (r: seq<string>)
    requires forall k :: 0 <= k < |ps| ==> ps[k] < |s| && StartsToken(rule, s, ps[k])
    ensures |r| == |ps|
    ensures forall k :: 0 <= k < |ps| ==> r[k] == TokenAt(rule, s, ps[k])
  {
    if |ps| == 0 then [] else [TokenAt(rule, s, ps[0])] + TokensAt(rule, s, ps[1..])
  }

  /** No match begins inside a run, since `$` is never a run character. */
  lemma {:induction false} NoStartInsideRun(rule: Rule, s: string, i: nat, e: nat)
    requires i <= e <= |s|
    requires forall k :: i <= k < e ==> InRun(rule, s[k])
    ensures StartsFrom(rule, s, i) == StartsFrom(rule, s, e)
    decreases e - i
  {
    if i < e {
      assert s[i] != '$';
      NoStartInsideRun(rule, s, i + 1, e);
    }
  }

  lemma TokensAtCons(rule: Rule, s: string, i: nat, ps: seq<nat>)
    requires i < |s| && StartsToken(rule, s, i)
    requires forall k :: 0 <= k < |ps| ==> ps[k] < |s| && StartsToken(rule, s, ps[k])
    ensures TokensAt(rule, s, [i] + ps) == [TokenAt(rule, s, i)] + TokensAt(rule, s, ps)
  {
    assert ([i] + ps)[1..] == ps;
  }

  /** The engine's skipping scan finds exactly the matches at the
      reference start positions: skipping over a match loses nothing. */
  lemma {:induction false} ScanFromIsTokensAtStarts(rule: Rule, s: string, i: nat)
    requires i <= |s|
    ensures ScanFrom(rule, s, i) == TokensAt(rule, s, StartsFrom(rule, s, i))
    decreases |s| - i
  {
    if i == |s| {
    } else if StartsToken(rule, s, i) {
      var e := RunEnd(rule, s, i + 1);
      ScanFromIsTokensAtStarts(rule, s, e);
      NoStartInsideRun(rule, s, i + 1, e);
      var rest := StartsFrom(rule, s, e);
      assert StartsFrom(rule, s, i) == [i] + rest;
      TokensAtCons(rule, s, i, rest);
    } else {
      ScanFromIsTokensAtStarts(rule, s, i + 1);
    }
  }

  /** The scan's result is the token at every start position, in order: a
      `$` yields a token exactly when `StartsToken` holds there. */
  lemma ScanCharacterized(rule: Rule, s: string)
    ensures Scan(rule, s) == TokensAt(rule, s, StartsFrom(rule, s, 0))
  {
    ScanFromIsTokensAtStarts(rule, s, 0);
  }

  /** Under the current rule a `$` right after a word character starts no
      token; under the older rule it does whenever a run character follows. */
  lemma DollarAfterWordChar(s: string, i: nat)
    requires 0 < i < |s| - 1 && s[i] == '$' && IsWordChar(s[i - 1])
    ensures i !in StartsFrom(Current, s, 0)
    ensures IsWordChar(s[i + 1]) ==> i in StartsFrom(Legacy, s, 0)
  {
  }

  /** The scan passes over any stretch without `$`. */
  lemma {:induction false} SkipNoDollar(rule: Rule, s: string, i: nat, j: nat)
    requires i <= j <= |s|
    requires forall k :: i <= k < j ==> s[k] != '$'
    ensures ScanFrom(rule, s, i) == ScanFrom(rule, s, j)
    decreases j - i
  {
    if i < j {
      SkipNoDollar(rule, s, i + 1, j);
    }
  }

  /** A match from `i` to `e` is emitted and the scan resumes at `e`. */
  lemma ScanFromMatch(rule: Rule, s: string, i: nat, e: nat)
    requires i < e <= |s| && s[i] == '$' && Guarded(rule, s, i)
    requires forall k :: i < k < e ==> InRun(rule, s[k])
    requires i + 1 < e && (e == |s| || !InRun(rule, s[e]))
    ensures ScanFrom(rule, s, i) == [s[i..e]] + ScanFrom(rule, s, e)
  {
    RunEndAt(rule, s, i + 1, e);
  }

  /** A run of `InRun` characters ending at `e` ends the match there. */
  lemma RunEndAt(rule: Rule, s: string, j: nat, e: nat)
    requires j <= e <= |s|
    requires forall k :: j <= k < e ==> InRun(rule, s[k])
    requires e == |s| || !InRun(rule, s[e])
    ensures RunEnd(rule, s, j) == e
  {
  }
}
