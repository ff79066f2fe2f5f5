/**
 * What each operation of JvmAutoDevFlow does, as a function of the collaborators and of the
 * state before it: the new run state, the calls made (appended to the trace) and the outcome
 * (a value, or the exception that escaped).
 */
module Steps {
  import opened Wrappers
  import opened Seqs
  import opened FlowModel
  import opened ControllerName
  import opened Names
  import opened ModelContext
  import opened ArtifactRouter

  /** The fields of a JvmAutoDevFlow and the calls it has made. */
  datatype Snap = Snap(selectedControllerName: string, selectedControllerCode: string,
                       isNewController: bool, trace: History)

  /** The state after an operation and its outcome. */
  datatype After<T> = After(snap: Snap, out: Result<T>)

  /** The same failure, for an operation returning nothing. */
  function Fail<T>(a: After<T>): After<()>
    requires a.out.Err?
  {
    After(a.snap, Err(a.out.error))
  }

  /** A call to the kanban or the code creator: recorded, and it may throw. */
  function Invoke(env: Env, s: Snap, c: Call): After<()> {
    var failure := env.fails(s.trace, c);
    After(s.(trace := s.trace + [c]), if failure.Some? then Err(failure.value) else Ok(()))
  }

  /** executePrompt: one request to the language model. */
  function ExecutePrompt(env: Env, s: Snap, promptText: Prompt): After<string> {
    After(s.(trace := s.trace + [Ask(promptText)]), env.complete(s.trace, promptText))
  }

  /** `files.find { it.name == name }` */
  function ClassNamed(files: seq<DtClass>, name: string): Option<DtClass> {
    Find(files, (c: DtClass) => c.name == name)
  }

  /** `files.filter { it.name == name }` */
  function FilesNamed(files: seq<SourceFile>, name: string): seq<SourceFile> {
    Filter(files, (f: SourceFile) => f.name == name)
  }

  // ---- Step 1 ----

  function GetOrCreateStoryDetail(env: Env, s: Snap, id: string): After<string> {
    var simpleProject := env.projectInfo(s.trace);
    var story := env.storyById(s.trace, id);
    if env.isValidStory(story.description) then After(s, Ok(story.description))
    else
      var a := ExecutePrompt(env, s, StoryDetailPrompt(simpleProject, story.description));
      if a.out.Err? then a
      else
        var u := Invoke(env, a.snap, UpdateStoryDetail(SimpleStory(story.id, story.title, a.out.value)));
        After(u.snap, if u.out.Err? then Err(u.out.error) else a.out)
  }

  // ---- routing of generated code ----

  function CreateCode(env: Env, s: Snap, code: string, controllerName: string, isNeedCreateController: bool): After<()> {
    var k := Classify(env, code, isNeedCreateController);
    var s' := if k == ControllerKind then s.(selectedControllerCode := code) else s;
    Invoke(env, s', CreationCall(k, code, controllerName, isNeedCreateController))
  }

  /** createCode for each class, in order, stopping at the first exception. */
  function RouteUnits(env: Env, s: Snap, units: seq<string>, controllerName: string, isNeedCreateController: bool): After<()>
    decreases |units|
  {
    if units == [] then After(s, Ok(()))
    else
      var a := CreateCode(env, s, units[0], controllerName, isNeedCreateController);
      if a.out.Err? then a else RouteUnits(env, a.snap, units[1..], controllerName, isNeedCreateController)
  }

  function CreateCodeByType(env: Env, s: Snap, code: string, isNeedCreateController: bool, controllerName: string): After<()> {
    RouteUnits(env, s, env.splitClass(code), controllerName, isNeedCreateController)
  }

  /** createCodeByType for each code block, in order, stopping at the first exception. */
  function RouteCodes(env: Env, s: Snap, codes: seq<string>, isNeedCreateController: bool, controllerName: string): After<()>
    decreases |codes|
  {
    if codes == [] then After(s, Ok(()))
    else
      var a := CreateCodeByType(env, s, codes[0], isNeedCreateController, controllerName);
      if a.out.Err? then a else RouteCodes(env, a.snap, codes[1..], isNeedCreateController, controllerName)
  }

  // ---- Step 2 ----

  function UpdateOrCreateDtoAndEntity(env: Env, s: Snap, storyDetail: string): After<()> {
    var files := env.modelList(s.trace);
    var a := ExecutePrompt(env, s, DtoAndEntityPrompt(storyDetail, files));
    if a.out.Err? then Fail(a)
    else RouteCodes(env, a.snap, env.parseCodeFromString(a.out.value), false, "")
  }

  // ---- Step 3 ----

  function FetchSuggestEndpoint(env: Env, s: Snap, storyDetail: string): After<TargetEndpoint> {
    var files := env.controllerList(s.trace);
    var a := ExecutePrompt(env, s, EndpointPrompt(storyDetail, files));
    if a.out.Err? then After(a.snap, Err(a.out.error))
    else
      match MatchControllerName(a.out.value)
      case None => After(a.snap, Ok(TargetEndpoint("", DtClass("", []), false)))
      case Some(controller) =>
        match ClassNamed(files, controller)
        case None =>
          After(a.snap.(isNewController := true), Ok(TargetEndpoint(controller, DtClass(controller, []), false)))
        case Some(targetController) =>
          After(a.snap, Ok(TargetEndpoint(controller, targetController, env.defaultIsNeedToCreated)))
  }

  // ---- Step 4 ----

  function NeedUpdateMethodOfController(env: Env, s: Snap, targetEndpoint: string, clazz: DtClass,
                                        storyDetail: string, isNewController: bool): After<string> {
    var models := ModelsFor(env.modelList(s.trace), targetEndpoint);
    var services := env.serviceList(s.trace);
    ExecutePrompt(env, s, ControllerMethodPrompt(clazz, storyDetail, models, services, isNewController))
  }

  function FetchForEndpoint(env: Env, s: Snap, targetEndpoint: string, targetController: DtClass,
                            storyDetail: string, isNewController: bool): After<seq<string>> {
    var a := NeedUpdateMethodOfController(env, s, targetEndpoint, targetController, storyDetail, isNewController);
    if a.out.Err? then After(a.snap, Err(a.out.error))
    else After(a.snap, Ok(env.parseCodeFromString(a.out.value)))
  }

  function DoExecuteUpdateEndpoint(env: Env, s: Snap, target: TargetEndpoint, storyDetail: string,
                                   isNewController: bool): After<()> {
    var f := FetchForEndpoint(env, s, target.endpoint, target.controller, storyDetail, isNewController);
    if f.out.Err? then Fail(f)
    else if f.out.value == [] then After(f.snap, Ok(()))
    else RouteCodes(env, f.snap, f.out.value, target.isNeedToCreated, target.controller.name)
  }

  /** The attempt, and on an exception one more attempt with the same arguments. */
  function UpdateOrCreateEndpointCode(env: Env, s: Snap, target: TargetEndpoint, storyDetail: string): After<()> {
    var s1 := s.(selectedControllerName := target.controller.name);
    var first := DoExecuteUpdateEndpoint(env, s1, target, storyDetail, s1.isNewController);
    if first.out.Ok? then first
    else DoExecuteUpdateEndpoint(env, first.snap, target, storyDetail, first.snap.isNewController)
  }

  // ---- Step 5 ----

  function UpdateOrCreateServiceAndRepository(env: Env, s: Snap): After<()> {
    var serviceName := ServiceName(s.selectedControllerName);
    var files := FilesNamed(env.allServiceFiles(s.trace), JavaFileName(serviceName));
    if files != [] then UpdateServiceMethod(env, s, files[0], serviceName)
    else CreateServiceFile(env, s, serviceName)
  }

  function UpdateServiceMethod(env: Env, s: Snap, serviceFile: SourceFile, serviceName: string): After<()> {
    var usedCode := env.findUsageCode(s.selectedControllerCode, serviceName);
    var noExistMethods := env.findNoExistMethod(s.trace, serviceFile, usedCode);
    if noExistMethods == [] then After(s, Ok(()))
    else
      var a := ExecutePrompt(env, s, ServiceMethodPrompt(serviceFile, usedCode, noExistMethods));
      if a.out.Err? then Fail(a)
      else UpdateMethods(env, a.snap, serviceFile, serviceName, env.parseCodeFromString(a.out.value))
  }

  /** `processor.updateMethod(serviceFile, serviceName, code)` for each block, stopping at the first exception. */
  function UpdateMethods(env: Env, s: Snap, serviceFile: SourceFile, serviceName: string, codes: seq<string>): After<()>
    decreases |codes|
  {
    if codes == [] then After(s, Ok(()))
    else
      var a := Invoke(env, s, UpdateMethod(serviceFile, serviceName, codes[0]));
      if a.out.Err? then a else UpdateMethods(env, a.snap, serviceFile, serviceName, codes[1..])
  }

  /** The controller source the service prompt is built from. */
  function ControllerCodeOf(env: Env, s: Snap, serviceName: string): ControllerSource {
    var controllerFile := FilesNamed(env.allControllerFiles(s.trace), s.selectedControllerName);
    if controllerFile == [] then GeneratedCode(s.selectedControllerCode)
    else ControllerFilePrefix(controllerFile[0], serviceName)
  }

  function CreateServiceFile(env: Env, s: Snap, serviceName: string): After<()> {
    var a := ExecutePrompt(env, s, ServiceAndRepositoryPrompt(ControllerCodeOf(env, s, serviceName)));
    if a.out.Err? then Fail(a)
    else RouteCodes(env, a.snap, env.parseCodeFromString(a.out.value), true, "")
  }
}
