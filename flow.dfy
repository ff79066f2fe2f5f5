/** The JVM pipeline controller: five steps over per-run fields, calling its collaborators. */
module Flow {
  import opened Wrappers
  import opened FlowModel
  import opened ControllerName
  import opened Names
  import opened ModelContext
  import opened Steps

  class JvmAutoDevFlow {
    /** The kanban, language model and code creator given to initContext. */
    const env: Env
    var selectedControllerName: string
    var selectedControllerCode: string
    var isNewController: bool
    /** The calls made to the collaborators, in order. */
    var trace: History

    function Snapshot(): Snap
      reads this
    {
      Snap(selectedControllerName, selectedControllerCode, isNewController, trace)
    }

    /** A fresh flow after initContext: the field initialisers, and no call made yet. */
    constructor InitContext(env: Env)
      ensures this.env == env
      ensures Snapshot() == Snap("", "", false, [])
    {
      this.env := env;
      selectedControllerName := "";
      selectedControllerCode := "";
      isNewController := false;
      trace := [];
    }

    method Invoke(c: Call) returns (out: Result<()>)
      modifies this
      ensures After(Snapshot(), out) == Steps.Invoke(env, old(Snapshot()), c)
    {
      var failure := env.fails(trace, c);
      trace := trace + [c];
      out := if failure.Some? then Err(failure.value) else Ok(());
    }

    method ExecutePrompt(promptText: Prompt) returns (out: Result<string>)
      modifies this
      ensures After(Snapshot(), out) == Steps.ExecutePrompt(env, old(Snapshot()), promptText)
    {
      out := env.complete(trace, promptText);
      trace := trace + [Ask(promptText)];
    }

    /** Step 1: keep a valid story description, or have one written and store it on the kanban. */
    method GetOrCreateStoryDetail(id: string) returns (out: Result<string>)
      modifies this
      ensures After(Snapshot(), out) == Steps.GetOrCreateStoryDetail(env, old(Snapshot()), id)
    {
      var simpleProject := env.projectInfo(trace);
      var story := env.storyById(trace, id);
      var storyDetail := story.description;
      if !env.isValidStory(storyDetail) {
        var answer := ExecutePrompt(StoryDetailPrompt(simpleProject, story.description));
        if answer.Err? {
          return answer;
        }
        storyDetail := answer.value;
        var newStory := SimpleStory(story.id, story.title, storyDetail);
        var updated := Invoke(UpdateStoryDetail(newStory));
        if updated.Err? {
          return Err(updated.error);
        }
      }
      out := Ok(storyDetail);
    }

    /** Step 2: generate DTOs and entities and route every class without a controller hint. */
    method UpdateOrCreateDtoAndEntity(storyDetail: string) returns (out: Result<()>)
      modifies this
      ensures After(Snapshot(), out) == Steps.UpdateOrCreateDtoAndEntity(env, old(Snapshot()), storyDetail)
    {
      var files := env.modelList(trace);
      var result := ExecutePrompt(DtoAndEntityPrompt(storyDetail, files));
      if result.Err? {
        return Err(result.error);
      }
      var dtos := env.parseCodeFromString(result.value);
      ghost var start := Snapshot();
      var i := 0;
      while i < |dtos|
        invariant 0 <= i <= |dtos|
        invariant RouteCodes(env, start, dtos, false, "") == RouteCodes(env, Snapshot(), dtos[i..], false, "")
      {
        assert dtos[i..][1..] == dtos[i + 1..];
        var o := CreateCodeByType(dtos[i], false, "");
        if o.Err? {
          return o;
        }
        i := i + 1;
      }
      out := Ok(());
    }

    /** Step 3: ask for the controller to change and look it up in the controller inventory. */
    method FetchSuggestEndpoint(storyDetail: string) returns (out: Result<TargetEndpoint>)
      modifies this
      ensures After(Snapshot(), out) == Steps.FetchSuggestEndpoint(env, old(Snapshot()), storyDetail)
    {
      var files := env.controllerList(trace);
      var targetEndpoint := ExecutePrompt(EndpointPrompt(storyDetail, files));
      if targetEndpoint.Err? {
        return Err(targetEndpoint.error);
      }
      var controller := MatchControllerName(targetEndpoint.value);
      if controller.None? {
        return Ok(TargetEndpoint("", DtClass("", []), false));
      }
      var targetController := ClassNamed(files, controller.value);
      if targetController.None? {
        isNewController := true;
        return Ok(TargetEndpoint(controller.value, DtClass(controller.value, []), false));
      }
      out := Ok(TargetEndpoint(controller.value, targetController.value, env.defaultIsNeedToCreated));
    }

    /** Step 4: generate the endpoint; on an exception, try exactly once more. */
    method UpdateOrCreateEndpointCode(target: TargetEndpoint, storyDetail: string) returns (out: Result<()>)
      modifies this
      ensures After(Snapshot(), out) == Steps.UpdateOrCreateEndpointCode(env, old(Snapshot()), target, storyDetail)
    {
      selectedControllerName := target.controller.name;
      out := DoExecuteUpdateEndpoint(target, storyDetail, isNewController);
      if out.Err? {
        out := DoExecuteUpdateEndpoint(target, storyDetail, isNewController);
      }
    }

    /** Step 5: update the existing service of the selected controller, or create one. */
    method UpdateOrCreateServiceAndRepository() returns (out: Result<()>)
      modifies this
      ensures After(Snapshot(), out) == Steps.UpdateOrCreateServiceAndRepository(env, old(Snapshot()))
    {
      var serviceName := ServiceName(selectedControllerName);
      var files := FilesNamed(env.allServiceFiles(trace), JavaFileName(serviceName));
      if files != [] {
        out := UpdateServiceMethod(files[0], serviceName);
      } else {
        out := CreateServiceFile(serviceName);
      }
    }

    /** Add to an existing service only the methods the controller uses and the file lacks. */
    method UpdateServiceMethod(serviceFile: SourceFile, serviceName: string) returns (out: Result<()>)
      modifies this
      ensures After(Snapshot(), out) == Steps.UpdateServiceMethod(env, old(Snapshot()), serviceFile, serviceName)
    {
      var usedCode := env.findUsageCode(selectedControllerCode, serviceName);
      var noExistMethods := env.findNoExistMethod(trace, serviceFile, usedCode);
      if noExistMethods == [] {
        return Ok(());
      }
      var result := ExecutePrompt(ServiceMethodPrompt(serviceFile, usedCode, noExistMethods));
      if result.Err? {
        return Err(result.error);
      }
      var services := env.parseCodeFromString(result.value);
      ghost var start := Snapshot();
      var i := 0;
      while i < |services|
        invariant 0 <= i <= |services|
        invariant UpdateMethods(env, start, serviceFile, serviceName, services) ==
                  UpdateMethods(env, Snapshot(), serviceFile, serviceName, services[i..])
      {
        assert services[i..][1..] == services[i + 1..];
        var o := Invoke(UpdateMethod(serviceFile, serviceName, services[i]));
        if o.Err? {
          return o;
        }
        i := i + 1;
      }
      out := Ok(());
    }

    /** Generate a service (and what comes with it) from the controller and route it all as forced. */
    method CreateServiceFile(serviceName: string) returns (out: Result<()>)
      modifies this
      ensures After(Snapshot(), out) == Steps.CreateServiceFile(env, old(Snapshot()), serviceName)
    {
      var controllerFile := FilesNamed(env.allControllerFiles(trace), selectedControllerName);
      var controllerCode := if controllerFile == [] then GeneratedCode(selectedControllerCode)
                            else ControllerFilePrefix(controllerFile[0], serviceName);
      var result := ExecutePrompt(ServiceAndRepositoryPrompt(controllerCode));
      if result.Err? {
        return Err(result.error);
      }
      var services := env.parseCodeFromString(result.value);
      ghost var start := Snapshot();
      var i := 0;
      while i < |services|
        invariant 0 <= i <= |services|
        invariant RouteCodes(env, start, services, true, "") == RouteCodes(env, Snapshot(), services[i..], true, "")
      {
        assert services[i..][1..] == services[i + 1..];
        var o := CreateCodeByType(services[i], true, "");
        if o.Err? {
          return o;
        }
        i := i + 1;
      }
      out := Ok(());
    }

    method DoExecuteUpdateEndpoint(target: TargetEndpoint, storyDetail: string, isNewController: bool)
      returns (out: Result<()>)
      modifies this
      ensures After(Snapshot(), out) ==
              Steps.DoExecuteUpdateEndpoint(env, old(Snapshot()), target, storyDetail, isNewController)
    {
      var codes := FetchForEndpoint(target.endpoint, target.controller, storyDetail, isNewController);
      if codes.Err? {
        return Err(codes.error);
      }
      if codes.value == [] {
        return Ok(());
      }
      var blocks := codes.value;
      ghost var start := Snapshot();
      var i := 0;
      while i < |blocks|
        invariant 0 <= i <= |blocks|
        invariant RouteCodes(env, start, blocks, target.isNeedToCreated, target.controller.name) ==
                  RouteCodes(env, Snapshot(), blocks[i..], target.isNeedToCreated, target.controller.name)
      {
        assert blocks[i..][1..] == blocks[i + 1..];
        var o := CreateCodeByType(blocks[i], target.isNeedToCreated, target.controller.name);
        if o.Err? {
          return o;
        }
        i := i + 1;
      }
      out := Ok(());
    }

    /** Split a code block into classes and route each, in order. */
    method CreateCodeByType(code: string, isNeedCreateController: bool, controllerName: string)
      returns (out: Result<()>)
      modifies this
      ensures After(Snapshot(), out) ==
              Steps.CreateCodeByType(env, old(Snapshot()), code, isNeedCreateController, controllerName)
    {
      var units := env.splitClass(code);
      ghost var start := Snapshot();
      var i := 0;
      while i < |units|
        invariant 0 <= i <= |units|
        invariant RouteUnits(env, start, units, controllerName, isNeedCreateController) ==
                  RouteUnits(env, Snapshot(), units[i..], controllerName, isNeedCreateController)
      {
        assert units[i..][1..] == units[i + 1..];
        var o := CreateCode(units[i], controllerName, isNeedCreateController);
        if o.Err? {
          return o;
        }
        i := i + 1;
      }
      out := Ok(());
    }

    /** Route one class: the first branch whose condition holds; only the controller branch keeps the code. */
    method CreateCode(code: string, controllerName: string, isNeedCreateController: bool) returns (out: Result<()>)
      modifies this
      ensures After(Snapshot(), out) ==
              Steps.CreateCode(env, old(Snapshot()), code, controllerName, isNeedCreateController)
    {
      if isNeedCreateController || env.isController(code) {
        selectedControllerCode := code;
        out := Invoke(CreateControllerOrUpdateMethod(controllerName, code, isNeedCreateController));
      } else if env.isService(code) {
        out := Invoke(CreateService(code));
      } else if env.isEntity(code) {
        out := Invoke(CreateEntity(code));
      } else if env.isDto(code) {
        out := Invoke(CreateDto(code));
      } else if env.isRepository(code) {
        out := Invoke(CreateRepository(code));
      } else {
        out := Invoke(CreateClass(code));
      }
    }

    method FetchForEndpoint(targetEndpoint: string, targetController: DtClass, storyDetail: string,
                            isNewController: bool) returns (out: Result<seq<string>>)
      modifies this
      ensures After(Snapshot(), out) ==
              Steps.FetchForEndpoint(env, old(Snapshot()), targetEndpoint, targetController, storyDetail, isNewController)
    {
      var content := NeedUpdateMethodOfController(targetEndpoint, targetController, storyDetail, isNewController);
      if content.Err? {
        return Err(content.error);
      }
      out := Ok(env.parseCodeFromString(content.value));
    }

    /** Build the controller-method prompt from the relevant models and the services, and run it. */
    method NeedUpdateMethodOfController(targetEndpoint: string, clazz: DtClass, storyDetail: string,
                                        isNewController: bool) returns (out: Result<string>)
      modifies this
      ensures After(Snapshot(), out) ==
              Steps.NeedUpdateMethodOfController(env, old(Snapshot()), targetEndpoint, clazz, storyDetail, isNewController)
    {
      var allModels := env.modelList(trace);
      var relevantName := RelevantName(targetEndpoint);
      var dtos := Dtos(allModels, relevantName);
      var relevantDto := RelevantDto(allModels, relevantName);
      var models := if relevantDto.Some? then dtos + [relevantDto.value] else dtos;
      var services := env.serviceList(trace);
      out := ExecutePrompt(ControllerMethodPrompt(clazz, storyDetail, models, services, isNewController));
    }
  }
}
