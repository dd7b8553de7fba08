/** Python's substring test `sub in s` and `s.replace(old, new)` on code-point strings. */
module Strings {

  predicate StartsWith(s: string, p: string)
  {
    |p| <= |s| && s[..|p|] == p
  }

  /** `sub in s`, scanning start positions left to right. */
  predicate Contains(s: string, sub: string)
    decreases |s|
  {
    StartsWith(s, sub) || (s != [] && Contains(s[1..], sub))
  }

  /** `sub` occurs in `s` starting at index i. */
  predicate OccursAt(s: string, sub: string, i: nat)
  {
    i + |sub| <= |s| && s[i..i + |sub|] == sub
  }

  /** The scan finds exactly the strings that occur somewhere. */
  lemma {:induction false} ContainsIff(s: string, sub: string)
    ensures Contains(s, sub) <==> exists i: nat :: OccursAt(s, sub, i)
    decreases |s|
  {
    if StartsWith(s, sub) {
      assert OccursAt(s, sub, 0);
    } else if s != [] {
      ContainsIff(s[1..], sub);
      if Contains(s[1..], sub) {
        var i: nat :| OccursAt(s[1..], sub, i);
        assert s[i + 1..i + 1 + |sub|] == s[1..][i..i + |sub|];
        assert OccursAt(s, sub, i + 1);
      } else {
        forall i: nat | 0 < i && OccursAt(s, sub, i)
          ensures OccursAt(s[1..], sub, i - 1)
        {
          assert s[1..][i - 1..i - 1 + |sub|] == s[i..i + |sub|];
        }
      }
    }
  }

  /** `s.replace(pattern, replacement)`: every non-overlapping occurrence of
      `pattern`, found left to right, becomes `replacement`. */
  function ReplaceAll(s: string, pattern: string, replacement: string): string
    requires |pattern| > 0
    decreases |s|
  {
    if StartsWith(s, pattern) then replacement + ReplaceAll(s[|pattern|..], pattern, replacement)
    else if s == [] then []
    else [s[0]] + ReplaceAll(s[1..], pattern, replacement)
  }

  /** Without an occurrence nothing is replaced. */
  lemma {:induction false} ReplaceAllAbsent(s: string, pattern: string, replacement: string)
    requires |pattern| > 0 && !Contains(s, pattern)
    ensures ReplaceAll(s, pattern, replacement) == s
    decreases |s|
  {
    if s != [] {
      ReplaceAllAbsent(s[1..], pattern, replacement);
    }
  }

  /** With an occurrence the replacement text appears in the result. */
  lemma {:induction false} ReplaceAllPresent(s: string, pattern: string, replacement: string)
    requires |pattern| > 0 && Contains(s, pattern)
    ensures Contains(ReplaceAll(s, pattern, replacement), replacement)
    decreases |s|
  {
    var r := ReplaceAll(s, pattern, replacement);
    if StartsWith(s, pattern) {
      assert r[..|replacement|] == replacement;
      assert StartsWith(r, replacement);
    } else {
      ReplaceAllPresent(s[1..], pattern, replacement);
      assert r[1..] == ReplaceAll(s[1..], pattern, replacement);
    }
  }

  /** An occurrence one place into `s` is an occurrence at the start of its tail. */
  lemma OccursShift(s: string, sub: string, k: nat)
    requires s != []
    ensures OccursAt(s, sub, k + 1) <==> OccursAt(s[1..], sub, k)
  {
    if k + 1 + |sub| <= |s| {
      assert s[1..][k..k + |sub|] == s[k + 1..k + 1 + |sub|];
    }
  }

  /** No occurrence before i in `s` is no occurrence before i - 1 in its tail. */
  lemma NoneBeforeShift(s: string, sub: string, i: nat)
    requires 0 < i <= |s| && forall k: nat :: k < i ==> !OccursAt(s, sub, k)
    ensures forall k: nat :: k < i - 1 ==> !OccursAt(s[1..], sub, k)
  {
    forall k: nat | k < i - 1
      ensures !OccursAt(s[1..], sub, k)
    {
      OccursShift(s, sub, k);
    }
  }

  /** The first occurrence is replaced and the scan resumes after it: with
      `ReplaceAllAbsent`, this determines the result on every input. */
  lemma {:induction false} ReplaceAllFirst(s: string, pattern: string, replacement: string, i: nat)
    requires |pattern| > 0 && OccursAt(s, pattern, i)
    requires forall k: nat :: k < i ==> !OccursAt(s, pattern, k)
    ensures ReplaceAll(s, pattern, replacement) ==
      s[..i] + replacement + ReplaceAll(s[i + |pattern|..], pattern, replacement)
    decreases i
  {
    if i == 0 {
      assert StartsWith(s, pattern);
    } else {
      var t := s[1..];
      ReplaceAllSkip(s, pattern, replacement);
      OccursShift(s, pattern, i - 1);
      NoneBeforeShift(s, pattern, i);
      ReplaceAllFirst(t, pattern, replacement, i - 1);
      assert t[i - 1 + |pattern|..] == s[i + |pattern|..];
      ConsPrefix(s, i, replacement, ReplaceAll(s[i + |pattern|..], pattern, replacement));
    }
  }

  /** Where `pattern` does not start, the first character is copied. */
  lemma ReplaceAllSkip(s: string, pattern: string, replacement: string)
    requires |pattern| > 0 && s != [] && !OccursAt(s, pattern, 0)
    ensures ReplaceAll(s, pattern, replacement) == [s[0]] + ReplaceAll(s[1..], pattern, replacement)
  {
    if |pattern| <= |s| {
      assert s[..|pattern|] == s[0..|pattern|];
    }
  }

  lemma ConsPrefix(s: string, i: nat, middle: string, rest: string)
    requires 0 < i <= |s|
    ensures [s[0]] + (s[1..][..i - 1] + middle + rest) == s[..i] + middle + rest
  {
    assert [s[0]] + s[1..][..i - 1] == s[..i];
  }
}
