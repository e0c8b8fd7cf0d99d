/** The string built-ins the core relies on: `replaceAll` with a literal
    pattern, `includes`, `toLowerCase` (ASCII letters only), and the
    character classes of the token patterns. */
module Text {

  /** `\w` outside Unicode mode: ASCII letters, digits and underscore. */
  predicate IsWordChar(c: char)
    ensures IsWordChar(c) ==> c as int < 128
    ensures IsWordChar(c) ==> c != '$' && c != ' '
    ensures c == '_' || '0' <= c <= '9' ==> IsWordChar(c)
  {
    ('A' <= c <= 'Z') || ('a' <= c <= 'z') || ('0' <= c <= '9') || c == '_'
  }

  /** The range `A-z` (0x41..0x7A): the letters plus `[ \ ] ^ _` and the backtick. */
  predicate InLetterRange(c: char)
    ensures 'a' <= c <= 'z' || 'A' <= c <= 'Z' ==> InLetterRange(c)
    ensures '0' <= c <= '9' || c == '$' ==> !InLetterRange(c)
    ensures InLetterRange(c) && !IsWordChar(c) <==> c == '[' || c == '\\' || c == ']' || c == '^' || c == '`'
  {
    'A' <= c <= 'z'
  }

  /** There is no word boundary at position `i`, between `s[i - 1]` and
      `s[i]`: both sides are word characters or neither is (a side past
      either end of `s` counts as a non-word character). This is `\B`. */
  predicate NoWordBoundary(s: string, i: nat)
    requires i <= |s|
  {
    (i > 0 && IsWordChar(s[i - 1])) == (i < |s| && IsWordChar(s[i]))
  }

  /** `p` occurs in `s` starting at index `i`. */
  predicate OccursAt(s: string, p: string, i: int) {
    0 <= i && i + |p| <= |s| && s[i..i + |p|] == p
  }

  /** `includes`: `sub` occurs somewhere in `s` (the empty string always does). */
  predicate Contains(s: string, sub: string)
    ensures |sub| == 0 ==> Contains(s, sub)
    ensures Contains(s, sub) ==> |sub| <= |s|
    decreases |s|
  {
    (|sub| <= |s| && s[..|sub|] == sub) || (|s| > 0 && Contains(s[1..], sub))
  }

  /** `includes` agrees with "occurs at some index". */
  lemma {:induction false} ContainsIff(s: string, sub: string)
    ensures Contains(s, sub) <==> exists i :: OccursAt(s, sub, i)
  {
    if |sub| <= |s| && s[..|sub|] == sub {
      assert OccursAt(s, sub, 0);
    } else if |s| > 0 {
      ContainsIff(s[1..], sub);
      if Contains(s[1..], sub) {
        var i :| OccursAt(s[1..], sub, i);
        assert s[i + 1..i + 1 + |sub|] == s[1..][i..i + |sub|];
        assert OccursAt(s, sub, i + 1);
      }
      if i :| OccursAt(s, sub, i) {
        assert i != 0;
        assert s[1..][i - 1..i - 1 + |sub|] == s[i..i + |sub|];
        assert OccursAt(s[1..], sub, i - 1);
      }
    }
  }

  /** `replaceAll(pat, v)` with a literal, non-empty pattern: scan left to
      right and replace every non-overlapping occurrence. */
  function ReplaceAll(s: string, pat: string, v: string): (r: string)
    requires |pat| > 0
    ensures !Contains(s, pat) ==> r == s
    decreases |s|
  {
    if |s| < |pat| then s
    else if s[..|pat|] == pat then v + ReplaceAll(s[|pat|..], pat, v)
    else [s[0]] + ReplaceAll(s[1..], pat, v)
  }

  /** A prefix without the pattern's first character is copied unchanged. */
  lemma {:induction false} ReplaceAllSkips(a: string, b: string, pat: string, v: string)
    requires |pat| > 0
    requires forall k :: 0 <= k < |a| ==> a[k] != pat[0]
    ensures ReplaceAll(a + b, pat, v) == a + ReplaceAll(b, pat, v)
    decreases |a|
  {
    if |a| > 0 {
      var s := a + b;
      ReplaceAllSkips(a[1..], b, pat, v);
      assert s[1..] == a[1..] + b;
      if |s| < |pat| {
        assert ReplaceAll(b, pat, v) == b;
      } else {
        assert s[..|pat|] != pat by {
          assert s[..|pat|][0] == a[0];
        }
        calc {
          ReplaceAll(s, pat, v);
          [s[0]] + ReplaceAll(s[1..], pat, v);
          [a[0]] + (a[1..] + ReplaceAll(b, pat, v));
          { assert [a[0]] + a[1..] == a; }
          a + ReplaceAll(b, pat, v);
        }
      }
    } else {
      assert a + b == b;
    }
  }

  /** An occurrence at the front is replaced and the scan resumes after it. */
  lemma ReplaceAllAtFront(pat: string, b: string, v: string)
    requires |pat| > 0
    ensures ReplaceAll(pat + b, pat, v) == v + ReplaceAll(b, pat, v)
  {
    var s := pat + b;
    assert s[..|pat|] == pat;
    assert s[|pat|..] == b;
  }

  /** A string shorter than the pattern is left alone. */
  lemma ReplaceAllShort(s: string, pat: string, v: string)
    requires 0 < |pat| && |s| < |pat|
    ensures ReplaceAll(s, pat, v) == s
  {
  }

  /** ASCII `toLowerCase` of one character. */
  function LowerChar(c: char): (d: char)
    ensures 'A' <= c <= 'Z' ==> 'a' <= d <= 'z' && d as int == c as int + 32
    ensures !('A' <= d <= 'Z')
    ensures !('A' <= c <= 'Z') ==> d == c
  {
    if 'A' <= c <= 'Z' then (c as int + 32) as char else c
  }

  /** `toLowerCase`, restricted to ASCII letters. */
  function ToLower(s: string): (r: string)
    ensures |r| == |s|
    ensures forall i :: 0 <= i < |s| ==> r[i] == LowerChar(s[i])
  {
    seq(|s|, i requires 0 <= i < |s| => LowerChar(s[i]))
  }

  /** Lower-casing is idempotent. */
  lemma ToLowerIdempotent(s: string)
    ensures ToLower(ToLower(s)) == ToLower(s)
  {
  }
}
