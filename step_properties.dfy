/** What each step of JvmAutoDevFlow promises, stated over the run state and the trace of calls. */
module StepProperties {
  import opened Wrappers
  import opened Text
  import opened Seqs
  import opened FlowModel
  import opened ControllerName
  import opened Names
  import opened ModelContext
  import opened ArtifactRouter
  import opened Steps
  import opened RoutingProperties

  // ---- Step 1: getOrCreateStoryDetail ----

  /** A valid description comes back unchanged: no prompt, no kanban update. */
  lemma StoryDetailWhenValid(env: Env, s: Snap, id: string)
    requires env.isValidStory(env.storyById(s.trace, id).description)
    ensures GetOrCreateStoryDetail(env, s, id) == After(s, Ok(env.storyById(s.trace, id).description))
  {
  }

  /** Otherwise exactly one prompt, then one updateStoryDetail with the answer, which is returned. */
  lemma StoryDetailWhenInvalid(env: Env, s: Snap, id: string)
    requires !env.isValidStory(env.storyById(s.trace, id).description)
    ensures var story := env.storyById(s.trace, id);
            var p := StoryDetailPrompt(env.projectInfo(s.trace), story.description);
            var r := GetOrCreateStoryDetail(env, s, id);
            && r.snap == s.(trace := r.snap.trace)
            && match env.complete(s.trace, p)
               case Err(e) => r.snap.trace == s.trace + [Ask(p)] && r.out == Err(e)
               case Ok(detail) =>
                 var update := UpdateStoryDetail(SimpleStory(story.id, story.title, detail));
                 && r.snap.trace == s.trace + [Ask(p), update]
                 && r.out == (if env.fails(s.trace + [Ask(p)], update).Some? then Err(env.fails(s.trace + [Ask(p)], update).value) else Ok(detail))
  {
  }

  // ---- Step 2: updateOrCreateDtoAndEntity ----

  /** One prompt over the model inventory, then every class routed with no hint: no force, no controller name. */
  lemma DtoAndEntityRouting(env: Env, s: Snap, storyDetail: string)
    ensures var p := DtoAndEntityPrompt(storyDetail, env.modelList(s.trace));
            var r := UpdateOrCreateDtoAndEntity(env, s, storyDetail);
            && |r.snap.trace| > |s.trace|
            && r.snap.trace[..|s.trace| + 1] == s.trace + [Ask(p)]
            && r.snap.selectedControllerName == s.selectedControllerName
            && r.snap.isNewController == s.isNewController
            && match env.complete(s.trace, p)
               case Err(e) => r.snap.trace == s.trace + [Ask(p)] && r.out == Err(e)
               case Ok(answer) =>
                 var units := Units(env, env.parseCodeFromString(answer));
                 var n := |r.snap.trace| - |s.trace| - 1;
                 && n <= |units|
                 && r.snap.trace[|s.trace| + 1..] == RoutedCalls(env, units[..n], "", false)
                 && (r.out.Ok? ==> n == |units|)
  {
    var p := DtoAndEntityPrompt(storyDetail, env.modelList(s.trace));
    var a := ExecutePrompt(env, s, p);
    if a.out.Ok? {
      RouteCodesCalls(env, a.snap, env.parseCodeFromString(a.out.value), false, "");
      var r := UpdateOrCreateDtoAndEntity(env, s, storyDetail);
      assert r.snap.trace[..|s.trace| + 1] == a.snap.trace;
    }
  }

  // ---- Step 3: fetchSuggestEndpoint ----

  /** The endpoint prompt, with the controller inventory read before it. */
  function EndpointPromptOf(env: Env, s: Snap, storyDetail: string): Prompt {
    EndpointPrompt(storyDetail, env.controllerList(s.trace))
  }

  /** A failed prompt propagates; nothing else changes. */
  lemma FetchWhenPromptFails(env: Env, s: Snap, storyDetail: string)
    requires env.complete(s.trace, EndpointPromptOf(env, s, storyDetail)).Err?
    ensures FetchSuggestEndpoint(env, s, storyDetail) ==
            After(s.(trace := s.trace + [Ask(EndpointPromptOf(env, s, storyDetail))]),
                  Err(env.complete(s.trace, EndpointPromptOf(env, s, storyDetail)).error))
  {
  }

  /** An answer naming no controller: the empty target, and isNewController left as it was. */
  lemma FetchWithoutControllerName(env: Env, s: Snap, storyDetail: string, answer: string)
    requires env.complete(s.trace, EndpointPromptOf(env, s, storyDetail)) == Ok(answer)
    requires forall a, b :: !MatchAt(answer, a, b)
    ensures FetchSuggestEndpoint(env, s, storyDetail) ==
            After(s.(trace := s.trace + [Ask(EndpointPromptOf(env, s, storyDetail))]),
                  Ok(TargetEndpoint("", DtClass("", []), false)))
  {
  }

  /** A name absent from the inventory: isNewController := true, and a target of that name with an empty class. */
  lemma FetchNewController(env: Env, s: Snap, storyDetail: string, answer: string, name: string)
    requires env.complete(s.trace, EndpointPromptOf(env, s, storyDetail)) == Ok(answer)
    requires MatchControllerName(answer) == Some(name)
    requires forall k :: 0 <= k < |env.controllerList(s.trace)| ==> env.controllerList(s.trace)[k].name != name
    ensures FetchSuggestEndpoint(env, s, storyDetail) ==
            After(s.(trace := s.trace + [Ask(EndpointPromptOf(env, s, storyDetail))], isNewController := true),
                  Ok(TargetEndpoint(name, DtClass(name, []), false)))
  {
  }

  /** A name in the inventory: the first inventory entry of that name is the target's controller. */
  lemma FetchExistingController(env: Env, s: Snap, storyDetail: string, answer: string, name: string, i: nat)
    requires env.complete(s.trace, EndpointPromptOf(env, s, storyDetail)) == Ok(answer)
    requires MatchControllerName(answer) == Some(name)
    requires i < |env.controllerList(s.trace)| && env.controllerList(s.trace)[i].name == name
    requires forall k :: 0 <= k < i ==> env.controllerList(s.trace)[k].name != name
    ensures FetchSuggestEndpoint(env, s, storyDetail) ==
            After(s.(trace := s.trace + [Ask(EndpointPromptOf(env, s, storyDetail))]),
                  Ok(TargetEndpoint(name, env.controllerList(s.trace)[i], env.defaultIsNeedToCreated)))
  {
    var files := env.controllerList(s.trace);
    var r := FirstIndex(files, (c: DtClass) => c.name == name);
    assert r.Some?;
    assert r.value == i;
  }

  // ---- Step 4: updateOrCreateEndpointCode ----

  /** The number of endpoint-generation attempts in a stretch of the trace: its controller-method prompts. */
  function Attempts(d: seq<Call>): nat
    decreases |d|
  {
    if d == [] then 0
    else (if d[0].Ask? && d[0].prompt.ControllerMethodPrompt? then 1 else 0) + Attempts(d[1..])
  }

  lemma {:induction false} AttemptsAppend(a: seq<Call>, b: seq<Call>)
    ensures Attempts(a + b) == Attempts(a) + Attempts(b)
    decreases |a|
  {
    if a == [] {
      assert a + b == b;
    } else {
      assert (a + b)[1..] == a[1..] + b;
      AttemptsAppend(a[1..], b);
    }
  }

  /** Creation calls are not attempts. */
  lemma {:induction false} NoAttemptsInCreations(d: seq<Call>)
    requires forall k :: 0 <= k < |d| ==> d[k].IsCreation()
    ensures Attempts(d) == 0
    decreases |d|
  {
    if d != [] {
      NoAttemptsInCreations(d[1..]);
    }
  }

  /** The prompt of one endpoint-generation attempt. */
  function EndpointMethodPrompt(env: Env, s: Snap, target: TargetEndpoint, storyDetail: string, isNewController: bool): Prompt {
    ControllerMethodPrompt(target.controller, storyDetail, ModelsFor(env.modelList(s.trace), target.endpoint),
                           env.serviceList(s.trace), isNewController)
  }

  /** An attempt's prompt comes first; a failed prompt ends the attempt; the run fields are kept. */
  lemma DoExecutePrompt(env: Env, s: Snap, target: TargetEndpoint, storyDetail: string, isNewController: bool)
    ensures var p := EndpointMethodPrompt(env, s, target, storyDetail, isNewController);
            var r := DoExecuteUpdateEndpoint(env, s, target, storyDetail, isNewController);
            && |r.snap.trace| > |s.trace|
            && r.snap.trace[..|s.trace| + 1] == s.trace + [Ask(p)]
            && r.snap.selectedControllerName == s.selectedControllerName
            && r.snap.isNewController == s.isNewController
            && (env.complete(s.trace, p).Err? ==>
                  r == After(s.(trace := s.trace + [Ask(p)]), Err(env.complete(s.trace, p).error)))
  {
    var p := EndpointMethodPrompt(env, s, target, storyDetail, isNewController);
    var a := ExecutePrompt(env, s, p);
    if a.out.Ok? {
      RouteCodesCalls(env, a.snap, env.parseCodeFromString(a.out.value), target.isNeedToCreated, target.controller.name);
      var r := DoExecuteUpdateEndpoint(env, s, target, storyDetail, isNewController);
      assert r.snap.trace[..|s.trace| + 1] == a.snap.trace;
    }
  }

  /**
   * After the prompt each class of each parsed block is routed in order with
   * target.isNeedToCreated and target.controller.name; an empty parse creates nothing.
   */
  lemma DoExecuteRoutes(env: Env, s: Snap, target: TargetEndpoint, storyDetail: string, isNewController: bool, answer: string)
    requires env.complete(s.trace, EndpointMethodPrompt(env, s, target, storyDetail, isNewController)) == Ok(answer)
    ensures var p := EndpointMethodPrompt(env, s, target, storyDetail, isNewController);
            var r := DoExecuteUpdateEndpoint(env, s, target, storyDetail, isNewController);
            var units := Units(env, env.parseCodeFromString(answer));
            var n := |r.snap.trace| - |s.trace| - 1;
            && (env.parseCodeFromString(answer) == [] ==> r == After(s.(trace := s.trace + [Ask(p)]), Ok(())))
            && 0 <= n <= |units|
            && r.snap.trace[|s.trace| + 1..] == RoutedCalls(env, units[..n], target.controller.name, target.isNeedToCreated)
            && (r.out.Ok? ==> n == |units|)
  {
    var p := EndpointMethodPrompt(env, s, target, storyDetail, isNewController);
    var a := ExecutePrompt(env, s, p);
    RouteCodesCalls(env, a.snap, env.parseCodeFromString(answer), target.isNeedToCreated, target.controller.name);
  }

  /** After its prompt an attempt makes only creation calls. */
  lemma DoExecuteCreations(env: Env, s: Snap, target: TargetEndpoint, storyDetail: string, isNewController: bool)
    ensures var r := DoExecuteUpdateEndpoint(env, s, target, storyDetail, isNewController);
            forall k :: |s.trace| < k < |r.snap.trace| ==> r.snap.trace[k].IsCreation()
  {
    var p := EndpointMethodPrompt(env, s, target, storyDetail, isNewController);
    var r := DoExecuteUpdateEndpoint(env, s, target, storyDetail, isNewController);
    DoExecutePrompt(env, s, target, storyDetail, isNewController);
    if env.complete(s.trace, p).Ok? {
      var answer := env.complete(s.trace, p).value;
      DoExecuteRoutes(env, s, target, storyDetail, isNewController, answer);
      var units := Units(env, env.parseCodeFromString(answer));
      var n := |r.snap.trace| - |s.trace| - 1;
      forall k | |s.trace| < k < |r.snap.trace|
        ensures r.snap.trace[k].IsCreation()
      {
        var i := k - |s.trace| - 1;
        assert r.snap.trace[k] == r.snap.trace[|s.trace| + 1..][i];
        RoutedCallsAt(env, units[..n], target.controller.name, target.isNeedToCreated, i);
      }
    }
  }

  /** A controller-method prompt followed by creations is one attempt. */
  lemma OneAskThenCreations(t: seq<Call>, from: nat)
    requires from < |t| && t[from].Ask? && t[from].prompt.ControllerMethodPrompt?
    requires forall k :: from < k < |t| ==> t[k].IsCreation()
    ensures Attempts(t[from..]) == 1
  {
    assert t[from..][1..] == t[from + 1..];
    NoAttemptsInCreations(t[from + 1..]);
  }

  /** One call of doExecuteUpdateEndpoint is exactly one attempt. */
  lemma DoExecuteOneAttempt(env: Env, s: Snap, target: TargetEndpoint, storyDetail: string, isNewController: bool)
    ensures var r := DoExecuteUpdateEndpoint(env, s, target, storyDetail, isNewController);
            && |r.snap.trace| > |s.trace|
            && s.trace <= r.snap.trace
            && Attempts(r.snap.trace[|s.trace|..]) == 1
  {
    var r := DoExecuteUpdateEndpoint(env, s, target, storyDetail, isNewController);
    DoExecutePrompt(env, s, target, storyDetail, isNewController);
    DoExecuteCreations(env, s, target, storyDetail, isNewController);
    assert r.snap.trace[|s.trace|] == (s.trace + [Ask(EndpointMethodPrompt(env, s, target, storyDetail, isNewController))])[|s.trace|];
    OneAskThenCreations(r.snap.trace, |s.trace|);
  }

  /** Attempts over two consecutive stretches add up. */
  lemma AttemptsOfTwoStretches(t0: seq<Call>, t1: seq<Call>, t2: seq<Call>)
    requires t0 <= t1 <= t2
    ensures Attempts(t2[|t0|..]) == Attempts(t1[|t0|..]) + Attempts(t2[|t1|..])
  {
    assert t2[|t0|..] == t1[|t0|..] + t2[|t1|..];
    AttemptsAppend(t1[|t0|..], t2[|t1|..]);
  }

  /**
   * The retry policy: selectedControllerName := target.controller.name first; when the attempt
   * fails, exactly one more with the same target, story and isNewController, whose outcome (its
   * exception included) is the step's.
   */
  lemma EndpointRetryOutcome(env: Env, s: Snap, target: TargetEndpoint, storyDetail: string)
    ensures var s1 := s.(selectedControllerName := target.controller.name);
            var first := DoExecuteUpdateEndpoint(env, s1, target, storyDetail, s.isNewController);
            var r := UpdateOrCreateEndpointCode(env, s, target, storyDetail);
            && r.snap.selectedControllerName == target.controller.name
            && r.snap.isNewController == s.isNewController
            && (first.out.Ok? ==> r == first)
            && (first.out.Err? ==> r == DoExecuteUpdateEndpoint(env, first.snap, target, storyDetail, s.isNewController))
  {
    var s1 := s.(selectedControllerName := target.controller.name);
    var first := DoExecuteUpdateEndpoint(env, s1, target, storyDetail, s.isNewController);
    DoExecutePrompt(env, s1, target, storyDetail, s.isNewController);
    DoExecutePrompt(env, first.snap, target, storyDetail, s.isNewController);
  }

  /** One attempt when it succeeds, two when it fails: never a third. */
  lemma EndpointRetryAttempts(env: Env, s: Snap, target: TargetEndpoint, storyDetail: string)
    ensures var s1 := s.(selectedControllerName := target.controller.name);
            var first := DoExecuteUpdateEndpoint(env, s1, target, storyDetail, s.isNewController);
            var r := UpdateOrCreateEndpointCode(env, s, target, storyDetail);
            && s.trace <= first.snap.trace <= r.snap.trace
            && Attempts(r.snap.trace[|s.trace|..]) == (if first.out.Ok? then 1 else 2)
  {
    var s1 := s.(selectedControllerName := target.controller.name);
    var first := DoExecuteUpdateEndpoint(env, s1, target, storyDetail, s.isNewController);
    DoExecuteOneAttempt(env, s1, target, storyDetail, s.isNewController);
    EndpointRetryOutcome(env, s, target, storyDetail);
    if first.out.Err? {
      var second := DoExecuteUpdateEndpoint(env, first.snap, target, storyDetail, s.isNewController);
      DoExecuteOneAttempt(env, first.snap, target, storyDetail, s.isNewController);
      AttemptsOfTwoStretches(s.trace, first.snap.trace, second.snap.trace);
    }
  }

  // ---- Step 5: updateOrCreateServiceAndRepository ----

  /**
   * The update path is taken exactly when some service file is named serviceName + ".java", with
   * the first such file; otherwise a service file is created.
   */
  lemma ServicePath(env: Env, s: Snap)
    ensures var serviceName := ServiceName(s.selectedControllerName);
            var files := env.allServiceFiles(s.trace);
            var r := UpdateOrCreateServiceAndRepository(env, s);
            && ((forall k :: 0 <= k < |files| ==> files[k].name != JavaFileName(serviceName)) ==>
                  r == CreateServiceFile(env, s, serviceName))
            && (forall i :: (0 <= i < |files| && files[i].name == JavaFileName(serviceName) &&
                            (forall k :: 0 <= k < i ==> files[k].name != JavaFileName(serviceName))) ==>
                  r == UpdateServiceMethod(env, s, files[i], serviceName))
  {
    var serviceName := ServiceName(s.selectedControllerName);
    var files := env.allServiceFiles(s.trace);
    var p := (f: SourceFile) => f.name == JavaFileName(serviceName);
    FilterFirst(files, p);
    forall i | 0 <= i < |files| && files[i].name == JavaFileName(serviceName) &&
               (forall k :: 0 <= k < i ==> files[k].name != JavaFileName(serviceName))
      ensures FirstIndex(files, p) == Some(i)
    {
      var r := FirstIndex(files, p);
      assert r.Some?;
      assert r.value == i;
    }
  }

  /** The used-but-missing methods, as findUsageCode and findNoExistMethod report them. */
  function MissingMethods(env: Env, s: Snap, serviceFile: SourceFile, serviceName: string): seq<string> {
    env.findNoExistMethod(s.trace, serviceFile, env.findUsageCode(s.selectedControllerCode, serviceName))
  }

  /** No missing method: no prompt and no update. */
  lemma ServiceNothingMissing(env: Env, s: Snap, serviceFile: SourceFile, serviceName: string)
    requires MissingMethods(env, s, serviceFile, serviceName) == []
    ensures UpdateServiceMethod(env, s, serviceFile, serviceName) == After(s, Ok(()))
  {
  }

  /** updateMethod for each block, in order, stopping at the first exception. */
  lemma {:induction false} UpdateMethodsCalls(env: Env, s: Snap, serviceFile: SourceFile, serviceName: string, codes: seq<string>)
    ensures var r := UpdateMethods(env, s, serviceFile, serviceName, codes);
            && r.snap == s.(trace := r.snap.trace)
            && s.trace <= r.snap.trace
            && var n := |r.snap.trace| - |s.trace|;
            && n <= |codes|
            && (forall k :: 0 <= k < n ==> r.snap.trace[|s.trace| + k] == UpdateMethod(serviceFile, serviceName, codes[k]))
            && (r.out.Ok? ==> n == |codes|)
    decreases |codes|
  {
    if codes != [] {
      var a := Invoke(env, s, UpdateMethod(serviceFile, serviceName, codes[0]));
      if a.out.Ok? {
        UpdateMethodsCalls(env, a.snap, serviceFile, serviceName, codes[1..]);
        var r := UpdateMethods(env, s, serviceFile, serviceName, codes);
        assert r.snap.trace[|s.trace|] == UpdateMethod(serviceFile, serviceName, codes[0]);
        assert forall k :: 0 < k < |codes| ==> codes[1..][k - 1] == codes[k];
      }
    }
  }

  /** The updates stop at the first exception: every earlier updateMethod succeeded and the last one threw it. */
  lemma {:induction false} UpdateMethodsStopAtFirstFailure(env: Env, s: Snap, serviceFile: SourceFile, serviceName: string, codes: seq<string>)
    ensures var r := UpdateMethods(env, s, serviceFile, serviceName, codes);
            && s.trace <= r.snap.trace
            && (r.out.Err? ==> |r.snap.trace| > |s.trace| && env.fails(r.snap.trace[..|r.snap.trace| - 1], r.snap.trace[|r.snap.trace| - 1]) == Some(r.out.error))
            && FaultFree(env, r.snap.trace, |s.trace|, |r.snap.trace| - (if r.out.Err? then 1 else 0))
    decreases |codes|
  {
    if codes != [] {
      var a := Invoke(env, s, UpdateMethod(serviceFile, serviceName, codes[0]));
      assert a.snap.trace[..|s.trace|] == s.trace;
      if a.out.Ok? {
        assert FaultFree(env, a.snap.trace, |s.trace|, |a.snap.trace|);
        UpdateMethodsStopAtFirstFailure(env, a.snap, serviceFile, serviceName, codes[1..]);
        var r := UpdateMethods(env, s, serviceFile, serviceName, codes);
        FaultFreeExtend(env, a.snap.trace, r.snap.trace, |s.trace|, |r.snap.trace| - (if r.out.Err? then 1 else 0));
      }
    }
  }

  /**
   * Missing methods: exactly one prompt scoped to them, then one updateMethod(serviceFile,
   * serviceName, code) per parsed block; never a whole-file creation; the run state is unchanged.
   */
  lemma ServiceMissingMethods(env: Env, s: Snap, serviceFile: SourceFile, serviceName: string)
    requires MissingMethods(env, s, serviceFile, serviceName) != []
    ensures var usedCode := env.findUsageCode(s.selectedControllerCode, serviceName);
            var p := ServiceMethodPrompt(serviceFile, usedCode, MissingMethods(env, s, serviceFile, serviceName));
            var r := UpdateServiceMethod(env, s, serviceFile, serviceName);
            && r.snap == s.(trace := r.snap.trace)
            && |r.snap.trace| > |s.trace|
            && r.snap.trace[..|s.trace| + 1] == s.trace + [Ask(p)]
            && Attempts(r.snap.trace[|s.trace|..]) == 0
            && (forall k :: |s.trace| < k < |r.snap.trace| ==> r.snap.trace[k].UpdateMethod? && !r.snap.trace[k].IsCreation())
            && match env.complete(s.trace, p)
               case Err(e) => r.snap.trace == s.trace + [Ask(p)] && r.out == Err(e)
               case Ok(answer) =>
                 var codes := env.parseCodeFromString(answer);
                 var n := |r.snap.trace| - |s.trace| - 1;
                 && n <= |codes|
                 && (forall k :: 0 <= k < n ==> r.snap.trace[|s.trace| + 1 + k] == UpdateMethod(serviceFile, serviceName, codes[k]))
                 && (r.out.Ok? ==> n == |codes|)
  {
    var usedCode := env.findUsageCode(s.selectedControllerCode, serviceName);
    var p := ServiceMethodPrompt(serviceFile, usedCode, MissingMethods(env, s, serviceFile, serviceName));
    var a := ExecutePrompt(env, s, p);
    var r := UpdateServiceMethod(env, s, serviceFile, serviceName);
    if a.out.Ok? {
      var codes := env.parseCodeFromString(a.out.value);
      UpdateMethodsCalls(env, a.snap, serviceFile, serviceName, codes);
      assert r.snap.trace[..|s.trace| + 1] == a.snap.trace;
      forall k | |s.trace| < k < |r.snap.trace|
        ensures r.snap.trace[k].UpdateMethod?
      {
        assert r.snap.trace[|a.snap.trace| + (k - |a.snap.trace|)] == UpdateMethod(serviceFile, serviceName, codes[k - |a.snap.trace|]);
      }
    }
    assert r.snap.trace[|s.trace|] == Ask(p);
    ServiceUpdatesAreNotAttempts(r.snap.trace, |s.trace|);
  }

  /** A stretch of one prompt that is not a controller-method prompt and updates holds no attempt. */
  lemma {:induction false} ServiceUpdatesAreNotAttempts(t: seq<Call>, from: nat)
    requires from < |t| && t[from].Ask? && t[from].prompt.ServiceMethodPrompt?
    requires forall k :: from < k < |t| ==> t[k].UpdateMethod?
    ensures Attempts(t[from..]) == 0
    decreases |t| - from
  {
    if from + 1 < |t| {
      assert t[from..][1..] == t[from + 1..];
      UpdatesAreNotAttempts(t[from + 1..]);
    } else {
      assert t[from..][1..] == [];
    }
  }

  lemma {:induction false} UpdatesAreNotAttempts(d: seq<Call>)
    requires forall k :: 0 <= k < |d| ==> d[k].UpdateMethod?
    ensures Attempts(d) == 0
    decreases |d|
  {
    if d != [] {
      UpdatesAreNotAttempts(d[1..]);
    }
  }

  /**
   * Creating the service: one prompt built from the controller, then every parsed class routed
   * with the force flag, which sends each to createControllerOrUpdateMethod("", class, true).
   */
  lemma CreateServiceRoutesForced(env: Env, s: Snap, serviceName: string, answer: string)
    requires env.complete(s.trace, ServiceAndRepositoryPrompt(ControllerCodeOf(env, s, serviceName))) == Ok(answer)
    ensures var p := ServiceAndRepositoryPrompt(ControllerCodeOf(env, s, serviceName));
            var r := CreateServiceFile(env, s, serviceName);
            var units := Units(env, env.parseCodeFromString(answer));
            var n := |r.snap.trace| - |s.trace| - 1;
            && 0 <= n <= |units|
            && r.snap.trace[..|s.trace| + 1] == s.trace + [Ask(p)]
            && (forall k :: 0 <= k < n ==> r.snap.trace[|s.trace| + 1 + k] == CreateControllerOrUpdateMethod("", units[k], true))
            && (r.out.Ok? ==> n == |units|)
  {
    var p := ServiceAndRepositoryPrompt(ControllerCodeOf(env, s, serviceName));
    var a := ExecutePrompt(env, s, p);
    var r := CreateServiceFile(env, s, serviceName);
    var units := Units(env, env.parseCodeFromString(answer));
    RouteCodesCalls(env, a.snap, env.parseCodeFromString(answer), true, "");
    assert r.snap.trace[..|s.trace| + 1] == a.snap.trace;
    var n := |r.snap.trace| - |s.trace| - 1;
    forall k | 0 <= k < n
      ensures r.snap.trace[|s.trace| + 1 + k] == CreateControllerOrUpdateMethod("", units[k], true)
    {
      assert r.snap.trace[|s.trace| + 1 + k] == r.snap.trace[|a.snap.trace|..][k];
      RoutedCallsAt(env, units[..n], "", true, k);
      assert units[..n][k] == units[k];
      ForcedIsController(env, units[k], "");
    }
  }

  /** Creating the service keeps the controller name and isNewController. */
  lemma CreateServiceKeepsRunState(env: Env, s: Snap, serviceName: string)
    ensures var r := CreateServiceFile(env, s, serviceName);
            && r.snap.selectedControllerName == s.selectedControllerName
            && r.snap.isNewController == s.isNewController
  {
    var p := ServiceAndRepositoryPrompt(ControllerCodeOf(env, s, serviceName));
    var a := ExecutePrompt(env, s, p);
    if a.out.Ok? {
      RouteCodesCalls(env, a.snap, env.parseCodeFromString(a.out.value), true, "");
    }
  }

  /**
   * The controller file is looked up under the bare controller name: when every controller file
   * is named `*.java` and the controller name is not, the prompt is always built from
   * selectedControllerCode.
   */
  lemma ControllerCodeFromGeneratedCode(env: Env, s: Snap, serviceName: string)
    requires forall k :: 0 <= k < |env.allControllerFiles(s.trace)| ==> EndsWith(env.allControllerFiles(s.trace)[k].name, ".java")
    requires !EndsWith(s.selectedControllerName, ".java")
    ensures ControllerCodeOf(env, s, serviceName) == GeneratedCode(s.selectedControllerCode)
  {
  }

  /** A controller name the regex produced has no `.`, so it never ends in `.java`. */
  lemma MatchedNameIsNotAFileName(text: string, name: string)
    requires MatchControllerName(text) == Some(name)
    ensures !EndsWith(name, ".java")
  {
    assert IsWordChar(name[|name| - 5]);
    assert !IsWordChar('.');
  }

  // ---- the run state across the steps ----
  //
  // isNewController is never reset: no step sets it to false, and only fetchSuggestEndpoint sets
  // it at all. selectedControllerName is set only by updateOrCreateEndpointCode. The five lemmas
  // below state this step by step.

  /** Step 1 changes only the history. */
  lemma StoryDetailKeepsRunState(env: Env, s: Snap, id: string)
    ensures GetOrCreateStoryDetail(env, s, id).snap == s.(trace := GetOrCreateStoryDetail(env, s, id).snap.trace)
  {
  }

  lemma DtoAndEntityKeepsRunState(env: Env, s: Snap, storyDetail: string)
    ensures UpdateOrCreateDtoAndEntity(env, s, storyDetail).snap.isNewController == s.isNewController
    ensures UpdateOrCreateDtoAndEntity(env, s, storyDetail).snap.selectedControllerName == s.selectedControllerName
  {
    DtoAndEntityRouting(env, s, storyDetail);
  }

  lemma FetchOnlySetsIsNewController(env: Env, s: Snap, storyDetail: string)
    ensures var r := FetchSuggestEndpoint(env, s, storyDetail);
            && r.snap.selectedControllerName == s.selectedControllerName
            && r.snap.selectedControllerCode == s.selectedControllerCode
            && (s.isNewController ==> r.snap.isNewController)
  {
  }

  lemma EndpointCodeKeepsIsNewController(env: Env, s: Snap, target: TargetEndpoint, storyDetail: string)
    ensures UpdateOrCreateEndpointCode(env, s, target, storyDetail).snap.isNewController == s.isNewController
  {
    EndpointRetryOutcome(env, s, target, storyDetail);
  }

  lemma ServiceAndRepositoryKeepsRunState(env: Env, s: Snap)
    ensures UpdateOrCreateServiceAndRepository(env, s).snap.isNewController == s.isNewController
    ensures UpdateOrCreateServiceAndRepository(env, s).snap.selectedControllerName == s.selectedControllerName
  {
    var serviceName := ServiceName(s.selectedControllerName);
    var files := FilesNamed(env.allServiceFiles(s.trace), JavaFileName(serviceName));
    if files != [] {
      var file := files[0];
      if MissingMethods(env, s, file, serviceName) != [] {
        ServiceMissingMethods(env, s, file, serviceName);
      }
    } else {
      CreateServiceKeepsRunState(env, s, serviceName);
    }
  }
}
