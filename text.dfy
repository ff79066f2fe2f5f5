/** The Kotlin `String` operations the flow relies on, on `seq<char>`. */
module Text {

  /** `\w` of java.util.regex (no UNICODE_CHARACTER_CLASS flag): `[a-zA-Z_0-9]`. */
  predicate IsWordChar(c: char) {
    ('a' <= c <= 'z') || ('A' <= c <= 'Z') || ('0' <= c <= '9') || c == '_'
  }

  predicate AllWord(s: string) {
    forall k :: 0 <= k < |s| ==> IsWordChar(s[k])
  }

  /** `s.startsWith(prefix)` */
  predicate StartsWith(s: string, prefix: string) {
    prefix <= s
  }

  /** `s.endsWith(suffix)` */
  predicate EndsWith(s: string, suffix: string) {
    |suffix| <= |s| && s[|s| - |suffix|..] == suffix
  }

  /** pat occurs in s at position k */
  predicate OccursAt(s: string, pat: string, k: int) {
    0 <= k && k + |pat| <= |s| && s[k..k + |pat|] == pat
  }

  /** `s.contains(sub)` */
  predicate Contains(s: string, sub: string) {
    exists k :: 0 <= k <= |s| - |sub| && OccursAt(s, sub, k)
  }

  /** `s.removeSuffix(suffix)`: drops one trailing occurrence of suffix, if there is one. */
  function RemoveSuffix(s: string, suffix: string): (r: string)
    ensures EndsWith(s, suffix) ==> r + suffix == s
    ensures !EndsWith(s, suffix) ==> r == s
  {
    if EndsWith(s, suffix) then s[..|s| - |suffix|] else s
  }

  /**
   * `s.replace(oldValue, newValue)` for a non-empty oldValue: scanning left to right, each
   * occurrence is replaced and the search resumes right after it. A replacement no longer than
   * the pattern never lengthens the string.
   */
  function Replace(s: string, oldValue: string, newValue: string): (r: string)
    requires |oldValue| > 0
    ensures |newValue| <= |oldValue| ==> |r| <= |s|
    decreases |s|
  {
    if |s| < |oldValue| then s
    else if OccursAt(s, oldValue, 0) then newValue + Replace(s[|oldValue|..], oldValue, newValue)
    else [s[0]] + Replace(s[1..], oldValue, newValue)
  }

  /** An occurrence j places into s[i..] is one at i + j in s. */
  lemma OccursAtShift(s: string, pat: string, i: nat, j: nat)
    requires i + j <= |s|
    ensures OccursAt(s, pat, i + j) == OccursAt(s[i..], pat, j)
  {
    if i + j + |pat| <= |s| {
      assert s[i + j..i + j + |pat|] == s[i..][j..j + |pat|];
    }
  }

  /** A string without an occurrence is left as it is. */
  lemma {:induction false} ReplaceWithoutOccurrence(s: string, oldValue: string, newValue: string)
    requires |oldValue| > 0
    requires !Contains(s, oldValue)
    ensures Replace(s, oldValue, newValue) == s
    decreases |s|
  {
    if |s| >= |oldValue| {
      assert !OccursAt(s, oldValue, 0);
      forall k | 0 <= k <= |s[1..]| - |oldValue|
        ensures !OccursAt(s[1..], oldValue, k)
      {
        OccursAtShift(s, oldValue, 1, k);
      }
      ReplaceWithoutOccurrence(s[1..], oldValue, newValue);
      assert [s[0]] + s[1..] == s;
    }
  }

  /**
   * The first occurrence and the rest: when the first occurrence of oldValue in s is at k, the
   * result is s[..k] + newValue followed by the replace of what follows that occurrence.
   */
  lemma {:induction false} ReplaceAtFirstOccurrence(s: string, oldValue: string, newValue: string, k: nat)
    requires |oldValue| > 0
    requires OccursAt(s, oldValue, k)
    requires forall j :: 0 <= j < k ==> !OccursAt(s, oldValue, j)
    ensures Replace(s, oldValue, newValue) == s[..k] + newValue + Replace(s[k + |oldValue|..], oldValue, newValue)
    decreases k
  {
    if k == 0 {
      ReplaceAtStart(s, oldValue, newValue);
    } else {
      FirstOccurrenceInTail(s, oldValue, k);
      ReplaceAtFirstOccurrence(s[1..], oldValue, newValue, k - 1);
      ReplaceSkipToOccurrence(s, oldValue, newValue, k);
    }
  }

  /** An occurrence at the start is replaced at once. */
  lemma ReplaceAtStart(s: string, oldValue: string, newValue: string)
    requires |oldValue| > 0 && OccursAt(s, oldValue, 0)
    ensures Replace(s, oldValue, newValue) == s[..0] + newValue + Replace(s[|oldValue|..], oldValue, newValue)
  {
    assert s[..0] == [];
  }

  /** The first occurrence at k > 0, from the same fact about the tail. */
  lemma ReplaceSkipToOccurrence(s: string, oldValue: string, newValue: string, k: nat)
    requires |oldValue| > 0 && 0 < k && k + |oldValue| <= |s| && !OccursAt(s, oldValue, 0)
    requires Replace(s[1..], oldValue, newValue) ==
             s[1..][..k - 1] + newValue + Replace(s[1..][k - 1 + |oldValue|..], oldValue, newValue)
    ensures Replace(s, oldValue, newValue) == s[..k] + newValue + Replace(s[k + |oldValue|..], oldValue, newValue)
  {
    DropOneThenMore(s, k, |oldValue|);
    ReplaceSkip(s, oldValue, newValue, k, Replace(s[k + |oldValue|..], oldValue, newValue));
  }

  /** Dropping the first character moves the first occurrence one place to the left. */
  lemma FirstOccurrenceInTail(s: string, oldValue: string, k: nat)
    requires 0 < k && OccursAt(s, oldValue, k)
    requires forall j :: 0 <= j < k ==> !OccursAt(s, oldValue, j)
    ensures OccursAt(s[1..], oldValue, k - 1)
    ensures forall j :: 0 <= j < k - 1 ==> !OccursAt(s[1..], oldValue, j)
  {
    OccursAtShift(s, oldValue, 1, k - 1);
    forall j | 0 <= j < k - 1
      ensures !OccursAt(s[1..], oldValue, j)
    {
      OccursAtShift(s, oldValue, 1, j);
    }
  }

  lemma DropOneThenMore(s: string, k: nat, m: nat)
    requires 0 < k && k + m <= |s|
    ensures s[1..][k - 1 + m..] == s[k + m..]
  {
  }

  /** Without an occurrence at 0 the scan keeps s[0] and goes on with the tail. */
  lemma ReplaceSkip(s: string, oldValue: string, newValue: string, k: nat, rest: string)
    requires |oldValue| > 0 && 0 < k && k + |oldValue| <= |s| && !OccursAt(s, oldValue, 0)
    requires Replace(s[1..], oldValue, newValue) == s[1..][..k - 1] + newValue + rest
    ensures Replace(s, oldValue, newValue) == s[..k] + newValue + rest
  {
    ReplaceKeepsHead(s, oldValue, newValue);
    ConsAssoc(s[0], s[1..][..k - 1], newValue, rest);
    assert [s[0]] + s[1..][..k - 1] == s[..k];
  }

  lemma ReplaceKeepsHead(s: string, oldValue: string, newValue: string)
    requires |oldValue| > 0 && |oldValue| <= |s| && !OccursAt(s, oldValue, 0)
    ensures Replace(s, oldValue, newValue) == [s[0]] + Replace(s[1..], oldValue, newValue)
  {
  }

  /** Re-association of a one-character head. */
  lemma ConsAssoc(c: char, a: string, b: string, r: string)
    ensures [c] + (a + b + r) == [c] + a + b + r
  {
  }
}
