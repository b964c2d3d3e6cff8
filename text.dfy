/**
 * Plain string searching over `seq<char>`: where a pattern occurs in a text
 * and the first place it occurs at or after a given index. The code-block
 * extractor and the prompt builder are both stated in these terms.
 */
module Text {

  datatype Option<T> = None | Some(value: T)

  /** `pat` occurs in `s` starting at index `i`. */
  predicate OccursAt(pat: string, s: string, i: int) {
    0 <= i && i + |pat| <= |s| && s[i..i + |pat|] == pat
  }

  /** `s` ends with `suffix`. */
  predicate EndsWith(s: string, suffix: string) {
    |suffix| <= |s| && s[|s| - |suffix|..] == suffix
  }

  /** `pat` occurs somewhere in `s`. */
  predicate Contains(s: string, pat: string) {
    exists i :: 0 <= i <= |s| && OccursAt(pat, s, i)
  }

  /**
   * The first index at or after `from` where `pat` occurs in `s`, or None
   * if it occurs nowhere from there on.
   */
  function FindFrom(pat: string, s: string, from: nat): (r: Option<nat>)
    ensures r.Some? ==> from <= r.value && OccursAt(pat, s, r.value)
    ensures forall j :: from <= j && (r.None? || j < r.value) ==> !OccursAt(pat, s, j)
    decreases |s| - from
  {
    if from + |pat| > |s| then None
    else if s[from..from + |pat|] == pat then Some(from)
    else FindFrom(pat, s, from + 1)
  }

  /** An occurrence inside a slice of `s` is an occurrence in `s`, shifted by the slice's start. */
  lemma OccursInSlice(pat: string, s: string, lo: nat, hi: nat, k: int)
    requires lo <= hi <= |s|
    requires OccursAt(pat, s[lo..hi], k)
    ensures OccursAt(pat, s, lo + k) && lo + k + |pat| <= hi
  {
    forall t | 0 <= t < |pat|
      ensures s[lo + k..lo + k + |pat|][t] == pat[t]
    {
      assert s[lo..hi][k..k + |pat|][t] == s[lo + k + t];
    }
  }

  /** An occurrence in `a` is still there, at the same index, in `a + b`. */
  lemma OccursInPrefix(pat: string, a: string, b: string, k: int)
    requires OccursAt(pat, a, k)
    ensures OccursAt(pat, a + b, k)
  {
    assert (a + b)[k..k + |pat|] == a[k..k + |pat|];
  }

  /** An occurrence in `a + b` that ends within `a` is an occurrence in `a`. */
  lemma OccursWithinPrefix(pat: string, a: string, b: string, k: int)
    requires OccursAt(pat, a + b, k) && k + |pat| <= |a|
    ensures OccursAt(pat, a, k)
  {
    assert (a + b)[k..k + |pat|] == a[k..k + |pat|];
  }

  /** Occurrences in `b` are the occurrences in `a + b` past `a`, moved along by its length. */
  lemma OccursInSuffix(pat: string, a: string, b: string, k: int)
    requires 0 <= k
    ensures OccursAt(pat, b, k) <==> OccursAt(pat, a + b, |a| + k)
  {
    if k + |pat| <= |b| {
      assert (a + b)[|a| + k..|a| + k + |pat|] == b[k..k + |pat|];
    }
  }

  /** A concatenation starts with its first part. */
  lemma OccursFirst(a: string, b: string)
    ensures OccursAt(a, a + b, 0)
  {
    assert (a + b)[..|a|] == a;
  }

  /** A concatenation splits back into its two parts. */
  lemma SplitConcat(a: string, b: string)
    ensures (a + b)[..|a|] == a && (a + b)[|a|..] == b
  {
  }

  /** Cutting a text and joining the pieces gives the text back. */
  lemma JoinSplit(s: string, k: nat)
    requires k <= |s|
    ensures s[..k] + s[k..] == s
  {
  }

  /** The last two parts of a concatenation together end it. */
  lemma EndsWithLast(a: string, b: string, c: string)
    ensures EndsWith(a + b + c, b + c)
  {
    assert (a + b + c)[|a|..] == b + c;
  }

  /** Regrouping a concatenation of six parts around its fourth. */
  lemma Regroup(a: string, b: string, c: string, d: string, e: string, f: string)
    ensures a + (b + c + d) + e + f == a + b + (c + (d + e + f))
  {
  }

  /** The middle of a three-part concatenation occurs where the first part ends. */
  lemma OccursBetween(a: string, b: string, c: string)
    ensures OccursAt(b, a + b + c, |a|)
  {
    assert (a + b + c)[|a|..|a| + |b|] == b;
  }

  /** A slice of `b` is the same slice of `a + b`, moved along by the length of `a`. */
  lemma SliceInSuffix(a: string, b: string, i: nat, j: nat)
    requires i <= j <= |b|
    ensures (a + b)[|a| + i..|a| + j] == b[i..j]
  {
  }

  /** A text that lacks some character of `pat` cannot contain `pat`. */
  lemma MissingCharExcludes(pat: string, s: string, j: nat)
    requires j < |pat| && pat[j] !in s
    ensures !Contains(s, pat)
  {
    forall i | OccursAt(pat, s, i)
      ensures false
    {
    }
  }

  /** One mismatching character rules out an occurrence at `i`. */
  lemma MismatchExcludes(pat: string, s: string, i: int, j: nat)
    requires j < |pat|
    requires 0 <= i && i + |pat| <= |s| ==> s[i + j] != pat[j]
    ensures !OccursAt(pat, s, i)
  {
    if 0 <= i && i + |pat| <= |s| {
      assert s[i..i + |pat|][j] == s[i + j];
    }
  }
}
