/**
 * The companion object of JvmAutoDevFlow: `matchControllerName`, the first match of the
 * java.util.regex pattern `(\w+Controller)` in a text, as `Regex.find` computes it: try each
 * start position from the left; at a start, greedy `\w+` takes the whole run of word characters
 * and then gives characters back one at a time until the literal `Controller` follows.
 */
module ControllerName {
  import opened Wrappers
  import opened Text

  const Suffix: string := "Controller"

  /** `\w+Controller` matches text[i..j + 10], the `\w+` part being text[i..j]. */
  predicate MatchAt(text: string, i: int, j: int) {
    0 <= i < j && OccursAt(text, Suffix, j) && AllWord(text[i..j])
  }

  /** The match at (i, j) is the one `find` reports: no match starts further left, none at i is longer. */
  ghost predicate LeftmostLongest(text: string, i: int, j: int) {
    && MatchAt(text, i, j)
    && (forall a, b :: 0 <= a < i ==> !MatchAt(text, a, b))
    && (forall b :: j < b ==> !MatchAt(text, i, b))
  }

  /** Where the greedy `\w+` stops when started at i. */
  function WordEnd(text: string, i: nat): (e: nat)
    requires i <= |text|
    ensures i <= e <= |text|
    ensures AllWord(text[i..e])
    ensures e < |text| ==> !IsWordChar(text[e])
    decreases |text| - i
  {
    if i < |text| && IsWordChar(text[i]) then
      var e := WordEnd(text, i + 1);
      assert forall k :: 0 < k < e - i ==> text[i..e][k] == text[i + 1..e][k - 1];
      e
    else i
  }

  /** Backtracking of `\w+` started at i: the largest split point j' <= j followed by `Controller`. */
  function GiveBack(text: string, i: nat, j: nat): (r: Option<nat>)
    requires i < j <= |text|
    ensures r.Some? ==> i < r.value <= j && OccursAt(text, Suffix, r.value)
    ensures r.Some? ==> forall k :: r.value < k <= j ==> !OccursAt(text, Suffix, k)
    ensures r.None? ==> forall k :: i < k <= j ==> !OccursAt(text, Suffix, k)
    decreases j
  {
    if OccursAt(text, Suffix, j) then Some(j)
    else if j == i + 1 then None
    else GiveBack(text, i, j - 1)
  }

  /** The longest match starting at i, as the end of its `\w+` part. */
  function LongestAt(text: string, i: nat): (r: Option<nat>)
    requires i <= |text|
    ensures r.Some? ==> MatchAt(text, i, r.value)
    ensures r.Some? ==> forall b :: r.value < b ==> !MatchAt(text, i, b)
    ensures r.None? ==> forall b :: !MatchAt(text, i, b)
  {
    var e := WordEnd(text, i);
    WordRunBound(text, i, e);
    if e == i then None
    else
      var r := GiveBack(text, i, e);
      if r.Some? then
        assert forall k :: 0 <= k < r.value - i ==> text[i..r.value][k] == text[i..e][k];
        r
      else r
  }

  /** A match at i cannot reach past the end of the run of word characters at i. */
  lemma WordRunBound(text: string, i: nat, e: nat)
    requires i <= e <= |text|
    requires e < |text| ==> !IsWordChar(text[e])
    ensures forall b :: MatchAt(text, i, b) ==> b <= e
  {
  }

  /** `find` from start position i: the first start with a match, and the longest match there. */
  function FindFrom(text: string, i: nat): (r: Option<(nat, nat)>)
    requires i <= |text|
    ensures r.Some? ==> i <= r.value.0 && MatchAt(text, r.value.0, r.value.1)
    ensures r.Some? ==> forall b :: r.value.1 < b ==> !MatchAt(text, r.value.0, b)
    ensures r.Some? ==> forall a, b :: i <= a < r.value.0 ==> !MatchAt(text, a, b)
    ensures r.None? ==> forall a, b :: i <= a ==> !MatchAt(text, a, b)
    decreases |text| - i
  {
    if i == |text| then None
    else
      match LongestAt(text, i)
      case Some(j) => Some((i, j))
      case None => FindFrom(text, i + 1)
  }

  /** Every character of `Controller` is a word character. */
  lemma SuffixIsWord()
    ensures AllWord(Suffix)
  {
    assert forall k :: 0 <= k < |Suffix| ==> Suffix[k] in "Controller";
  }

  /** The text of a match consists of word characters only. */
  lemma MatchIsWord(text: string, i: nat, j: nat)
    requires MatchAt(text, i, j)
    ensures AllWord(text[i..j + |Suffix|])
  {
    SuffixIsWord();
    assert text[i..j + |Suffix|] == text[i..j] + Suffix;
  }

  /**
   * `matchControllerName(targetEndpoint)`: `regex.find(targetEndpoint)?.groupValues?.get(1)`.
   * null exactly when no substring is one or more word characters followed by `Controller`;
   * otherwise the leftmost, longest such substring.
   */
  function MatchControllerName(targetEndpoint: string): (r: Option<string>)
    ensures r.None? <==> forall a, b :: !MatchAt(targetEndpoint, a, b)
    ensures r.Some? ==> exists a, b :: LeftmostLongest(targetEndpoint, a, b) && r.value == targetEndpoint[a..b + |Suffix|]
    ensures r.Some? ==> AllWord(r.value) && EndsWith(r.value, Suffix) && |r.value| > |Suffix|
  {
    match FindFrom(targetEndpoint, 0)
    case None => None
    case Some((a, b)) =>
      FoundIsLeftmostLongest(targetEndpoint, a, b);
      MatchText(targetEndpoint, a, b);
      Some(targetEndpoint[a..b + |Suffix|])
  }

  lemma FoundIsLeftmostLongest(text: string, a: nat, b: nat)
    requires FindFrom(text, 0) == Some((a, b))
    ensures LeftmostLongest(text, a, b)
  {
  }

  /** The text of a match is word characters ending in `Controller`, longer than it. */
  lemma MatchText(text: string, a: nat, b: nat)
    requires MatchAt(text, a, b)
    ensures var m := text[a..b + |Suffix|];
            AllWord(m) && EndsWith(m, Suffix) && |m| > |Suffix|
  {
    MatchIsWord(text, a, b);
    var m := text[a..b + |Suffix|];
    assert m[|m| - |Suffix|..] == text[b..b + |Suffix|];
  }

  /** The leftmost-longest match is unique, so the contract above determines the result. */
  lemma LeftmostLongestUnique(text: string, i: int, j: int, i': int, j': int)
    requires LeftmostLongest(text, i, j) && LeftmostLongest(text, i', j')
    ensures i == i' && j == j'
  {
  }

  /** A text that does not contain `Controller` has no controller name. */
  lemma {:induction false} NoSuffixNoName(text: string)
    requires !Contains(text, Suffix)
    ensures MatchControllerName(text) == None
  {
  }

  const UseUserController: string := "Use UserController to add this endpoint"

  lemma ExampleMatchesAtFour()
    ensures MatchAt(UseUserController, 4, 8)
  {
    var text := UseUserController;
    assert text[8..18] == Suffix by {
      assert forall k :: 0 <= k < 10 ==> text[8..18][k] == text[8 + k];
    }
    assert text[4..8] == "User" by {
      assert forall k :: 0 <= k < 4 ==> text[4..8][k] == text[4 + k];
    }
    assert AllWord("User");
  }

  lemma ExampleNothingBeforeFour(a: int, b: int)
    requires 0 <= a < 4
    ensures !MatchAt(UseUserController, a, b)
  {
    var text := UseUserController;
    assert text[3] == ' ';
  }

  lemma ExampleNothingLongerAtFour(b: int)
    requires 8 < b
    ensures !MatchAt(UseUserController, 4, b)
  {
    var text := UseUserController;
    assert text[18] == ' ';
  }

  lemma ExampleIsLeftmostLongest()
    ensures LeftmostLongest(UseUserController, 4, 8)
  {
    ExampleMatchesAtFour();
    forall a, b | 0 <= a < 4
      ensures !MatchAt(UseUserController, a, b)
    {
      ExampleNothingBeforeFour(a, b);
    }
    forall b | 8 < b
      ensures !MatchAt(UseUserController, 4, b)
    {
      ExampleNothingLongerAtFour(b);
    }
  }

  lemma ExampleName()
    ensures UseUserController[4..18] == "UserController"
  {
    var text := UseUserController;
    assert forall k :: 0 <= k < 14 ==> text[4..18][k] == text[4 + k];
  }

  /** `Use UserController to add this endpoint` names `UserController`. */
  lemma UserControllerExample()
    ensures MatchControllerName(UseUserController) == Some("UserController")
  {
    var text := UseUserController;
    ExampleIsLeftmostLongest();
    ExampleName();
    var r := MatchControllerName(text);
    assert r.Some?;
    var a, b :| LeftmostLongest(text, a, b) && r.value == text[a..b + |Suffix|];
    LeftmostLongestUnique(text, a, b, 4, 8);
  }
}
