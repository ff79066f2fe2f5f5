/** The names JvmAutoDevFlow derives from a controller name. */
module Names {
  import opened Text
  import ControllerName

  /**
   * `selectedControllerName.removeSuffix("Controller") + "Service"`: a service class name whose
   * stem is the controller name without its trailing `Controller`, if it has one.
   */
  function ServiceName(selectedControllerName: string): (r: string)
    ensures EndsWith(r, "Service")
    ensures EndsWith(selectedControllerName, ControllerName.Suffix)
            ==> r[..|r| - 7] + ControllerName.Suffix == selectedControllerName
    ensures !EndsWith(selectedControllerName, ControllerName.Suffix) ==> r[..|r| - 7] == selectedControllerName
  {
    var r := RemoveSuffix(selectedControllerName, ControllerName.Suffix) + "Service";
    assert r[..|r| - 7] == RemoveSuffix(selectedControllerName, ControllerName.Suffix);
    r
  }

  /** The file a service class lives in: `"$serviceName.java"`. */
  function JavaFileName(className: string): string {
    className + ".java"
  }

  /** `targetEndpoint.replace("Controller", "")`: the endpoint with its `Controller`s removed, never longer. */
  function RelevantName(targetEndpoint: string): (r: string)
    ensures |r| <= |targetEndpoint|
  {
    Replace(targetEndpoint, ControllerName.Suffix, "")
  }

  /** One trailing `Controller` gives way to `Service`. */
  lemma ServiceNameOfController(base: string)
    ensures ServiceName(base + ControllerName.Suffix) == base + "Service"
  {
    var n := base + ControllerName.Suffix;
    assert n[|n| - |ControllerName.Suffix|..] == ControllerName.Suffix;
    assert n[..|n| - |ControllerName.Suffix|] == base;
  }

  /** A name without the trailing `Controller` keeps all of itself. */
  lemma ServiceNameOfOther(name: string)
    requires !EndsWith(name, ControllerName.Suffix)
    ensures ServiceName(name) == name + "Service"
  {
  }

  /** Only the last `Controller` of a doubled suffix goes. */
  lemma ServiceNameRemovesOnlyOne()
    ensures ServiceName("UserControllerController") == "UserControllerService"
  {
    ServiceNameOfController("UserController");
    assert "UserController" + ControllerName.Suffix == "UserControllerController";
  }

  /** `Controller` starts with its only `C`, so it cannot overlap a later occurrence of itself. */
  lemma SuffixHasOneC(k: int)
    requires 0 < k < |ControllerName.Suffix|
    ensures ControllerName.Suffix[k] != 'C'
  {
  }

  /** In base + `Controller` + rest, with no `Controller` inside base, the first occurrence is the appended one. */
  lemma {:induction false} FirstOccurrenceIsAppended(base: string, rest: string, j: int)
    requires !Contains(base, ControllerName.Suffix)
    requires 0 <= j < |base|
    ensures !OccursAt(base + ControllerName.Suffix + rest, ControllerName.Suffix, j)
  {
    var c := ControllerName.Suffix;
    var s := base + c + rest;
    if OccursAt(s, c, j) {
      if j + |c| <= |base| {
        assert base[j..j + |c|] == s[j..j + |c|];
        assert OccursAt(base, c, j);
        assert false;
      } else {
        var k := |base| - j;
        assert s[j..j + |c|][k] == s[|base|] == c[0];
        SuffixHasOneC(k);
        assert false;
      }
    }
  }

  /** Up to its first `Controller`, an endpoint keeps its text; the rest is stripped in turn. */
  lemma RelevantNameStrips(base: string, rest: string)
    requires !Contains(base, ControllerName.Suffix)
    ensures RelevantName(base + ControllerName.Suffix + rest) == base + RelevantName(rest)
  {
    var c := ControllerName.Suffix;
    var s := base + c + rest;
    forall j | 0 <= j < |base|
      ensures !OccursAt(s, c, j)
    {
      FirstOccurrenceIsAppended(base, rest, j);
    }
    assert s[|base|..|base| + |c|] == c;
    ReplaceAtFirstOccurrence(s, c, "", |base|);
    assert s[|base| + |c|..] == rest;
    assert s[..|base|] == base;
  }

  /** The relevant name of `XController` is `X` when X holds no `Controller`. */
  lemma RelevantNameOfController(base: string)
    requires !Contains(base, ControllerName.Suffix)
    ensures RelevantName(base + ControllerName.Suffix) == base
  {
    RelevantNameStrips(base, []);
    assert base + ControllerName.Suffix + [] == base + ControllerName.Suffix;
  }

  /** Every `Controller` goes, not only the trailing one. */
  lemma RelevantNameOfTwo(first: string, second: string)
    requires !Contains(first, ControllerName.Suffix) && !Contains(second, ControllerName.Suffix)
    ensures RelevantName(first + ControllerName.Suffix + second + ControllerName.Suffix) == first + second
  {
    var c := ControllerName.Suffix;
    RelevantNameStrips(first, second + c);
    RelevantNameOfController(second);
    assert first + c + (second + c) == first + c + second + c;
  }

  /** One pass only: the removal can join two halves into a new `Controller`. */
  lemma RelevantNameIsOnePass()
    ensures RelevantName("ContControllerroller") == ControllerName.Suffix
    ensures RelevantName(RelevantName("ContControllerroller")) == ""
  {
    var c := ControllerName.Suffix;
    ShortHasNoSuffix("Cont");
    ShortHasNoSuffix("roller");
    RelevantNameOfOther("roller");
    RelevantNameStrips("Cont", "roller");
    assert "Cont" + c + "roller" == "ContControllerroller";
    assert "Cont" + "roller" == c;
    RelevantNameOfController("");
    assert "" + c == c;
  }

  lemma ShortHasNoSuffix(s: string)
    requires |s| < |ControllerName.Suffix|
    ensures !Contains(s, ControllerName.Suffix)
  {
  }

  /** A name without `Controller` is its own relevant name. */
  lemma RelevantNameOfOther(name: string)
    requires !Contains(name, ControllerName.Suffix)
    ensures RelevantName(name) == name
  {
    ReplaceWithoutOccurrence(name, ControllerName.Suffix, "");
  }
}
