/**
 * The values JvmAutoDevFlow works on, the calls it makes to its collaborators, and the
 * collaborators themselves as a fixed interface of total functions.
 */
module FlowModel {
  import opened Wrappers

  /** A class of the source inventory: its name and its method signatures. */
  datatype DtClass = DtClass(name: string, methods: seq<string>)

  /** The generation target of the endpoint step. */
  datatype TargetEndpoint = TargetEndpoint(endpoint: string, controller: DtClass, isNeedToCreated: bool)

  /** A story of the kanban. */
  datatype SimpleStory = SimpleStory(id: string, title: string, description: string)

  /** The project the kanban reports. */
  datatype SimpleProjectInfo = SimpleProjectInfo(id: string, name: string, description: string)

  /** A Java source file of the IDE project. */
  datatype SourceFile = SourceFile(path: string, name: string)

  /** What the service prompt is built from: the generated controller body, or a controller file. */
  datatype ControllerSource =
    | GeneratedCode(code: string)
    | ControllerFilePrefix(file: SourceFile, serviceName: string)

  /** A prompt, as the arguments given to the prompt template (the template's text is opaque). */
  datatype Prompt =
    | StoryDetailPrompt(project: SimpleProjectInfo, description: string)
    | DtoAndEntityPrompt(storyDetail: string, models: seq<DtClass>)
    | EndpointPrompt(storyDetail: string, controllers: seq<DtClass>)
    | ControllerMethodPrompt(clazz: DtClass, storyDetail: string, models: seq<DtClass>,
                             services: seq<DtClass>, isNewController: bool)
    | ServiceMethodPrompt(serviceFile: SourceFile, usedCode: seq<string>, noExistMethods: seq<string>)
    | ServiceAndRepositoryPrompt(controllerCode: ControllerSource)

  /** A call to a collaborator that the flow makes: a prompt, or a change to the kanban or the sources. */
  datatype Call =
    | Ask(prompt: Prompt)
    | UpdateStoryDetail(story: SimpleStory)
    | CreateControllerOrUpdateMethod(controllerName: string, code: string, isNeedCreateController: bool)
    | CreateService(code: string)
    | CreateEntity(code: string)
    | CreateDto(code: string)
    | CreateRepository(code: string)
    | CreateClass(code: string)
    | UpdateMethod(serviceFile: SourceFile, serviceName: string, code: string)
  {
    /** One of the source-creation operations of the code creator. */
    predicate IsCreation() {
      CreateControllerOrUpdateMethod? || CreateService? || CreateEntity? || CreateDto? ||
      CreateRepository? || CreateClass?
    }
  }

  /** The calls made so far: what the world has seen of this flow. */
  type History = seq<Call>

  /**
   * The collaborators. Whatever depends on the state of the world (the kanban, the project's
   * sources, the language model) is a function of the history of calls made so far.
   */
  datatype Env = Env(
    // Kanban
    projectInfo: History -> SimpleProjectInfo,
    storyById: (History, string) -> SimpleStory,
    isValidStory: string -> bool,
    // the language model behind executePrompt: the answer, or the exception its stream threw
    complete: (History, Prompt) -> Result<string>,
    // a change to the kanban or the sources that throws, with its message
    fails: (History, Call) -> Option<string>,
    // JavaSpringCodeCreator: inventory
    modelList: History -> seq<DtClass>,
    controllerList: History -> seq<DtClass>,
    serviceList: History -> seq<DtClass>,
    allServiceFiles: History -> seq<SourceFile>,
    allControllerFiles: History -> seq<SourceFile>,
    // JavaSpringCodeCreator: classification of one class body
    isController: string -> bool,
    isService: string -> bool,
    isEntity: string -> bool,
    isDto: string -> bool,
    isRepository: string -> bool,
    // parseCodeFromString and JavaParseUtil.splitClass
    parseCodeFromString: string -> seq<string>,
    splitClass: string -> seq<string>,
    // JavaCodeProcessor
    findUsageCode: (string, string) -> seq<string>,
    findNoExistMethod: (History, SourceFile, seq<string>) -> seq<string>,
    // the default of TargetEndpoint's isNeedToCreated, which the two-argument construction relies on
    defaultIsNeedToCreated: bool
  )
}
