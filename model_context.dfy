/**
 * The models handed to the controller-method prompt (needUpdateMethodOfController): the
 * `*Request`/`*Response` classes that mention the relevant name, then the first class whose
 * name starts with it.
 */
module ModelContext {
  import opened Wrappers
  import opened Text
  import opened Seqs
  import opened FlowModel
  import opened Names

  /** `it.name.endsWith("Request") || it.name.endsWith("Response")` */
  predicate IsRequestOrResponse(c: DtClass) {
    EndsWith(c.name, "Request") || EndsWith(c.name, "Response")
  }

  /** `it.name.contains(relevantName) && (it.name.endsWith("Request") || it.name.endsWith("Response"))` */
  predicate IsRequestOrResponseOf(c: DtClass, relevantName: string) {
    Contains(c.name, relevantName) && IsRequestOrResponse(c)
  }

  /** `allModels.filter { … }` */
  function Dtos(allModels: seq<DtClass>, relevantName: string): seq<DtClass> {
    Filter(allModels, c => IsRequestOrResponseOf(c, relevantName))
  }

  /** `allModels.find { it.name.startsWith(relevantName) }` */
  function RelevantDto(allModels: seq<DtClass>, relevantName: string): Option<DtClass> {
    Find(allModels, (c: DtClass) => StartsWith(c.name, relevantName))
  }

  /** The `models` of needUpdateMethodOfController for the endpoint targetEndpoint. */
  function ModelsFor(allModels: seq<DtClass>, targetEndpoint: string): (models: seq<DtClass>)
    ensures Dtos(allModels, RelevantName(targetEndpoint)) <= models
    ensures |models| <= |allModels| + 1
    ensures forall k :: 0 <= k < |models| ==> models[k] in allModels
  {
    var relevantName := RelevantName(targetEndpoint);
    var dtos := Dtos(allModels, relevantName);
    match RelevantDto(allModels, relevantName)
    case Some(relevantDto) => dtos + [relevantDto]
    case None => dtos
  }

  /** i is the first inventory position whose name starts with relevantName. */
  ghost predicate FirstStartingWith(allModels: seq<DtClass>, relevantName: string, i: int) {
    && 0 <= i < |allModels|
    && StartsWith(allModels[i].name, relevantName)
    && forall k :: 0 <= k < i ==> !StartsWith(allModels[k].name, relevantName)
  }

  /**
   * The model context: the filtered classes are exactly the inventory's `*Request`/`*Response`
   * classes containing the relevant name; the first class starting with the relevant name is
   * appended when there is one (even if it already is among them), and nothing otherwise.
   */
  lemma ModelsForContents(allModels: seq<DtClass>, targetEndpoint: string)
    ensures var relevantName := RelevantName(targetEndpoint);
            var dtos := Dtos(allModels, relevantName);
            var models := ModelsFor(allModels, targetEndpoint);
            && (forall k :: 0 <= k < |dtos| ==> dtos[k] in allModels && IsRequestOrResponseOf(dtos[k], relevantName))
            && (forall k :: 0 <= k < |allModels| && IsRequestOrResponseOf(allModels[k], relevantName) ==> allModels[k] in dtos)
            && ((forall k :: 0 <= k < |allModels| ==> !StartsWith(allModels[k].name, relevantName)) ==> models == dtos)
            && (forall i :: FirstStartingWith(allModels, relevantName, i) ==> models == dtos + [allModels[i]])
  {
    var relevantName := RelevantName(targetEndpoint);
    var p := (c: DtClass) => StartsWith(c.name, relevantName);
    forall i | FirstStartingWith(allModels, relevantName, i)
      ensures RelevantDto(allModels, relevantName) == Some(allModels[i])
    {
      var r := FirstIndex(allModels, p);
      assert r.Some?;
      assert r.value == i;
    }
  }

  /** The filtered classes keep inventory order: a class added at the end is added at the end. */
  lemma DtosKeepOrder(allModels: seq<DtClass>, c: DtClass, relevantName: string)
    ensures Dtos(allModels + [c], relevantName) ==
            Dtos(allModels, relevantName) + (if IsRequestOrResponseOf(c, relevantName) then [c] else [])
  {
    FilterSnoc(allModels, c, x => IsRequestOrResponseOf(x, relevantName));
  }

  /**
   * With no controller named (endpoint ""), the relevant name is empty: every `*Request`/`*Response`
   * class is taken, followed by the first class of the inventory.
   */
  lemma ModelsForEmptyEndpoint(allModels: seq<DtClass>)
    requires allModels != []
    ensures ModelsFor(allModels, "") ==
            Filter(allModels, IsRequestOrResponse) + [allModels[0]]
  {
    assert RelevantName("") == "";
    forall c: DtClass
      ensures IsRequestOrResponseOf(c, "") == IsRequestOrResponse(c)
    {
      assert OccursAt(c.name, "", 0);
    }
    FilterSame(allModels, (c: DtClass) => IsRequestOrResponseOf(c, ""), IsRequestOrResponse);
    assert StartsWith(allModels[0].name, "");
  }

  /** Filtering by two predicates that agree gives the same result. */
  lemma {:induction false} FilterSame<T>(s: seq<T>, p: T -> bool, q: T -> bool)
    requires forall x :: p(x) == q(x)
    ensures Filter(s, p) == Filter(s, q)
    decreases |s|
  {
    if s != [] {
      FilterSame(s[1..], p, q);
    }
  }
}
