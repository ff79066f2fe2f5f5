# JvmAutoDevFlow, modelled in Dafny

`JvmAutoDevFlow` is the Java/Spring flavour of AutoDev's five-step "dev flow". The flow turns a
kanban user story into code with the help of a language model. It runs five steps:

1. complete the story description when the kanban finds it invalid;
2. generate DTOs and entities;
3. pick the target controller from the model's answer;
4. generate the endpoint code, retrying once on an exception;
5. reconcile the service layer by updating the missing methods or creating the service.

Every generated class is routed by the `createCode` classifier to one code-creator operation.
Throughout the run the flow keeps three fields: `selectedControllerName`,
`selectedControllerCode` and `isNewController`.

The collaborators become one `Env` value of total functions (module `FlowModel`). These are the
kanban, the language model, the code creator with its inventories and predicates, the code parser
and the class splitter. A collaborator whose answer can depend on what the flow has already done
receives the history of calls made so far, as a `seq<Call>`. This covers the inventories, the
service-file lookups, the kanban reads and the language model. So inventory freshness is part of
the model, and so are two different answers to the two attempts of step 4. Every mutating call may
throw: `env.fails(history, call)` says whether it does, and the call is recorded either way. The
language model fails when `env.complete` returns `Err`. A prompt is a `Prompt` value that records
what the flow handed to the prompt template; the template text itself is opaque.

The project has two layers:

* Module `Steps` defines each operation as a function on a `Snap`. A `Snap` holds the three run
  fields and the trace of calls. Each function returns an `After` value: the new `Snap` and the
  outcome, where `Err` stands for a propagating exception.
* Module `Flow` holds the class `JvmAutoDevFlow`, with the same fields. Its methods use the
  source's loops and `try`/`catch`. Each method is proved equal to its `Steps` function on the
  old state.

The properties the code promises are lemmas over `Steps`. Module `RoutingProperties` covers
routing a batch of classes, and module `StepProperties` covers the five steps. The remaining
modules model the pure pieces:

* `ControllerName`: the `(\w+Controller)` pattern and `Regex.find`;
* `Names`: the service name, the Java file name and the relevant name;
* `ModelContext`: the models shown to the endpoint prompt;
* `ArtifactRouter`: the classifier;
* `Text` and `Seqs`: the Kotlin string and list operations used.

Behaviours of the code that the model keeps as written:

* When the controller named by the model is not in the inventory, the step-3 target carries
  `isNeedToCreated = false`. The code only sets the `isNewController` field, and step 4 passes
  that field to the prompt. The creation flag of step 4 stays false.
* `isNewController` is never reset. Once set, it stays true for the rest of the run.
* `createServiceFile` routes every generated class with the force flag. So the service and
  repository classes also go to `createControllerOrUpdateMethod("", class, true)`, not to
  `createService` or `createRepository`.
* `createServiceFile` looks for a controller file whose name equals the bare controller name,
  without `.java`. When every controller file is named `*.java`, so that lookup never matches, the
  prompt is built from `selectedControllerCode`. `ControllerCodeFromGeneratedCode` states this.
* The regular expression's `\w` is the ASCII class `[a-zA-Z0-9_]`.
* Kotlin's `replace` scans from left to right and resumes after each occurrence. It is a single
  pass, so removing `Controller` can leave a new `Controller` behind (`RelevantNameIsOnePass`).
  `removeSuffix` drops a single trailing occurrence.

## Model

All source paths are `idea/src/main/kotlin/cc/unitmesh/idea/provider/JvmAutoDevFlow.kt`.

| member | source | states |
|---|---|---|
| ControllerName.MatchControllerName | idea/src/main/kotlin/cc/unitmesh/idea/provider/JvmAutoDevFlow.kt:305-310 | null exactly when no substring is word characters followed by `Controller`; otherwise the leftmost match, taken longest at that start; the name is all word characters, ends in `Controller` and is longer than it |
| ControllerName.FindFrom | idea/src/main/kotlin/cc/unitmesh/idea/provider/JvmAutoDevFlow.kt:308 | `find` tries starts from the left: the reported start is the first with a match, and no longer match exists at that start |
| ControllerName.LongestAt | idea/src/main/kotlin/cc/unitmesh/idea/provider/JvmAutoDevFlow.kt:305 | greedy `\w+` with backtracking: the longest match at a start, or none when no match starts there |
| ControllerName.LeftmostLongestUnique | idea/src/main/kotlin/cc/unitmesh/idea/provider/JvmAutoDevFlow.kt:305-310 | the leftmost-longest match is unique, so the contract of MatchControllerName determines its result |
| ControllerName.NoSuffixNoName | idea/src/main/kotlin/cc/unitmesh/idea/provider/JvmAutoDevFlow.kt:305-310 | a text that does not contain `Controller` yields null |
| ControllerName.UserControllerExample | idea/src/main/kotlin/cc/unitmesh/idea/provider/JvmAutoDevFlow.kt:305-310 | `Use UserController to add this endpoint` yields `UserController` |
| Text.RemoveSuffix | idea/src/main/kotlin/cc/unitmesh/idea/provider/JvmAutoDevFlow.kt:135 | one trailing occurrence of the suffix is removed when present; otherwise the string is unchanged |
| Text.Replace | idea/src/main/kotlin/cc/unitmesh/idea/provider/JvmAutoDevFlow.kt:268 | a replacement no longer than the pattern never lengthens the string |
| Text.ReplaceAtFirstOccurrence | idea/src/main/kotlin/cc/unitmesh/idea/provider/JvmAutoDevFlow.kt:268 | with the first occurrence at k, the result is the text before k, the replacement, then the replace of everything after the occurrence, so every later occurrence is replaced too |
| Text.ReplaceWithoutOccurrence | idea/src/main/kotlin/cc/unitmesh/idea/provider/JvmAutoDevFlow.kt:268 | a string without an occurrence is returned unchanged |
| Names.ServiceName | idea/src/main/kotlin/cc/unitmesh/idea/provider/JvmAutoDevFlow.kt:135 | the name ends in `Service`; before it stands the controller name without its trailing `Controller` when it has one, and the whole controller name otherwise |
| Names.ServiceNameOfController | idea/src/main/kotlin/cc/unitmesh/idea/provider/JvmAutoDevFlow.kt:135 | `XController` gives the service name `XService` |
| Names.ServiceNameOfOther | idea/src/main/kotlin/cc/unitmesh/idea/provider/JvmAutoDevFlow.kt:135 | a name not ending in `Controller` gets `Service` appended |
| Names.ServiceNameRemovesOnlyOne | idea/src/main/kotlin/cc/unitmesh/idea/provider/JvmAutoDevFlow.kt:135 | only one trailing `Controller` is dropped: `UserControllerController` gives `UserControllerService` |
| Names.RelevantName | idea/src/main/kotlin/cc/unitmesh/idea/provider/JvmAutoDevFlow.kt:268 | the relevant name is never longer than the endpoint |
| Names.RelevantNameStrips | idea/src/main/kotlin/cc/unitmesh/idea/provider/JvmAutoDevFlow.kt:268 | with no `Controller` in base, base + `Controller` + rest gives base followed by the relevant name of rest |
| Names.RelevantNameOfTwo | idea/src/main/kotlin/cc/unitmesh/idea/provider/JvmAutoDevFlow.kt:268 | both occurrences go: `XControllerYController` gives `XY` when X and Y hold no `Controller` |
| Names.RelevantNameIsOnePass | idea/src/main/kotlin/cc/unitmesh/idea/provider/JvmAutoDevFlow.kt:268 | one pass only: `ContControllerroller` gives `Controller`, whose own relevant name is empty |
| Names.RelevantNameOfController | idea/src/main/kotlin/cc/unitmesh/idea/provider/JvmAutoDevFlow.kt:268 | for a base without `Controller`, the relevant name of `baseController` is `base` |
| Names.RelevantNameOfOther | idea/src/main/kotlin/cc/unitmesh/idea/provider/JvmAutoDevFlow.kt:268 | an endpoint without `Controller` is its own relevant name |
| ModelContext.ModelsFor | idea/src/main/kotlin/cc/unitmesh/idea/provider/JvmAutoDevFlow.kt:267-282 | the models start with the DTO filter, hold at most one class more than the inventory, and every one is an inventory class |
| ModelContext.ModelsForContents | idea/src/main/kotlin/cc/unitmesh/idea/provider/JvmAutoDevFlow.kt:267-282 | a model is offered iff it is a `*Request`/`*Response` containing the relevant name, or it is the first model starting with that name; with no such first model the list is exactly the DTOs, otherwise the DTOs followed by that model |
| ModelContext.DtosKeepOrder | idea/src/main/kotlin/cc/unitmesh/idea/provider/JvmAutoDevFlow.kt:271-273 | the DTO filter keeps inventory order |
| ModelContext.ModelsForEmptyEndpoint | idea/src/main/kotlin/cc/unitmesh/idea/provider/JvmAutoDevFlow.kt:268-282 | an empty endpoint offers every Request/Response model plus the first model of a non-empty inventory |
| Seqs.Filter | idea/src/main/kotlin/cc/unitmesh/idea/provider/JvmAutoDevFlow.kt:137 | the filter keeps exactly the elements satisfying the predicate, never more than the input |
| Seqs.FilterFirst | idea/src/main/kotlin/cc/unitmesh/idea/provider/JvmAutoDevFlow.kt:137-141 | the first element of a filter is the element at the first matching index |
| Seqs.Find | idea/src/main/kotlin/cc/unitmesh/idea/provider/JvmAutoDevFlow.kt:108 | `find` returns the first element satisfying the predicate, and null exactly when no element does |
| ArtifactRouter.Classify | idea/src/main/kotlin/cc/unitmesh/idea/provider/JvmAutoDevFlow.kt:221-246 | the chosen branch's guard holds and no earlier branch's guard holds |
| ArtifactRouter.CreationCall | idea/src/main/kotlin/cc/unitmesh/idea/provider/JvmAutoDevFlow.kt:221-246 | each branch makes one creation call carrying the class code |
| ArtifactRouter.RouteCall | idea/src/main/kotlin/cc/unitmesh/idea/provider/JvmAutoDevFlow.kt:221-246 | createCode makes one creation call carrying the class code; only the controller operation carries the controller name and the force flag, as given |
| ArtifactRouter.ForcedIsController | idea/src/main/kotlin/cc/unitmesh/idea/provider/JvmAutoDevFlow.kt:222-224 | with the force flag every class goes to createControllerOrUpdateMethod with the given name |
| ArtifactRouter.ServiceBeforeRepository | idea/src/main/kotlin/cc/unitmesh/idea/provider/JvmAutoDevFlow.kt:227-241 | a class that is both a service and a repository is created as a service |
| ArtifactRouter.RouteCallIsController | idea/src/main/kotlin/cc/unitmesh/idea/provider/JvmAutoDevFlow.kt:222 | the controller operation is chosen iff the force flag is set or the class is a controller |
| Flow.JvmAutoDevFlow.InitContext | idea/src/main/kotlin/cc/unitmesh/idea/provider/JvmAutoDevFlow.kt:27-50 | the collaborators are installed; the name and the code start empty, isNewController false, no calls made |
| Flow.JvmAutoDevFlow.ExecutePrompt | idea/src/main/kotlin/cc/unitmesh/idea/provider/JvmAutoDevFlow.kt:292-301 | one request to the language model is recorded; its answer or its failure is the result |
| Flow.JvmAutoDevFlow.GetOrCreateStoryDetail | idea/src/main/kotlin/cc/unitmesh/idea/provider/JvmAutoDevFlow.kt:55-75 | the new state and the result are those of Steps.GetOrCreateStoryDetail on the old state |
| Flow.JvmAutoDevFlow.UpdateOrCreateDtoAndEntity | idea/src/main/kotlin/cc/unitmesh/idea/provider/JvmAutoDevFlow.kt:80-90 | the loop over the parsed blocks reaches the state of Steps.UpdateOrCreateDtoAndEntity, stopping at the first exception |
| Flow.JvmAutoDevFlow.FetchSuggestEndpoint | idea/src/main/kotlin/cc/unitmesh/idea/provider/JvmAutoDevFlow.kt:95-116 | the new state and the target are those of Steps.FetchSuggestEndpoint |
| Flow.JvmAutoDevFlow.UpdateOrCreateEndpointCode | idea/src/main/kotlin/cc/unitmesh/idea/provider/JvmAutoDevFlow.kt:121-129 | the try/catch with one retry reaches the state of Steps.UpdateOrCreateEndpointCode |
| Flow.JvmAutoDevFlow.UpdateOrCreateServiceAndRepository | idea/src/main/kotlin/cc/unitmesh/idea/provider/JvmAutoDevFlow.kt:134-145 | the state of Steps.UpdateOrCreateServiceAndRepository |
| Flow.JvmAutoDevFlow.UpdateServiceMethod | idea/src/main/kotlin/cc/unitmesh/idea/provider/JvmAutoDevFlow.kt:148-168 | the loop of updateMethod calls reaches the state of Steps.UpdateServiceMethod |
| Flow.JvmAutoDevFlow.CreateServiceFile | idea/src/main/kotlin/cc/unitmesh/idea/provider/JvmAutoDevFlow.kt:170-192 | the loop over parsed blocks reaches the state of Steps.CreateServiceFile |
| Flow.JvmAutoDevFlow.DoExecuteUpdateEndpoint | idea/src/main/kotlin/cc/unitmesh/idea/provider/JvmAutoDevFlow.kt:195-204 | the loop over the codes reaches the state of Steps.DoExecuteUpdateEndpoint |
| Flow.JvmAutoDevFlow.CreateCodeByType | idea/src/main/kotlin/cc/unitmesh/idea/provider/JvmAutoDevFlow.kt:206-214 | the loop over the split classes reaches the state of Steps.CreateCodeByType |
| Flow.JvmAutoDevFlow.CreateCode | idea/src/main/kotlin/cc/unitmesh/idea/provider/JvmAutoDevFlow.kt:216-247 | the `when` chain reaches the state of Steps.CreateCode |
| Flow.JvmAutoDevFlow.FetchForEndpoint | idea/src/main/kotlin/cc/unitmesh/idea/provider/JvmAutoDevFlow.kt:249-259 | the parsed code blocks of the answer, as Steps.FetchForEndpoint |
| Flow.JvmAutoDevFlow.NeedUpdateMethodOfController | idea/src/main/kotlin/cc/unitmesh/idea/provider/JvmAutoDevFlow.kt:261-290 | one controller-method prompt with the models of ModelContext.ModelsFor and the service inventory |
| RoutingProperties.CreateCodeEffect | idea/src/main/kotlin/cc/unitmesh/idea/provider/JvmAutoDevFlow.kt:216-247 | exactly one creation call is made; selectedControllerCode becomes the class iff the controller branch is taken; nothing else changes |
| RoutingProperties.RouteUnitsCalls | idea/src/main/kotlin/cc/unitmesh/idea/provider/JvmAutoDevFlow.kt:211-213 | the trace grows by one routed call per class, in order; all classes are reached when no call throws; a thrown exception ends the batch after at least one call |
| RoutingProperties.RouteUnitsState | idea/src/main/kotlin/cc/unitmesh/idea/provider/JvmAutoDevFlow.kt:211-224 | the batch keeps selectedControllerName and isNewController; selectedControllerCode is the last class routed to the controller operation |
| RoutingProperties.LastControllerCodeIsMostRecent | idea/src/main/kotlin/cc/unitmesh/idea/provider/JvmAutoDevFlow.kt:222-223 | that code is the last class taken as a controller |
| RoutingProperties.LastControllerCodeWithoutController | idea/src/main/kotlin/cc/unitmesh/idea/provider/JvmAutoDevFlow.kt:222-223 | with no class taken as a controller, selectedControllerCode keeps its value |
| RoutingProperties.RouteUnitsStopsAtFirstFailure | idea/src/main/kotlin/cc/unitmesh/idea/provider/JvmAutoDevFlow.kt:211-213 | on an exception, the last recorded call threw it and every earlier call in the batch succeeded |
| RoutingProperties.RouteUnitsAppend | idea/src/main/kotlin/cc/unitmesh/idea/provider/JvmAutoDevFlow.kt:211-213 | routing a + b routes a, then b unless a threw |
| RoutingProperties.RouteCodesFlat | idea/src/main/kotlin/cc/unitmesh/idea/provider/JvmAutoDevFlow.kt:206-214 | the nested loops over blocks and classes route the flattened class list |
| RoutingProperties.RouteCodesCalls | idea/src/main/kotlin/cc/unitmesh/idea/provider/JvmAutoDevFlow.kt:200-213 | routing code blocks makes the routed calls of their classes, in order, and sets the code to the last controller class |
| StepProperties.StoryDetailWhenValid | idea/src/main/kotlin/cc/unitmesh/idea/provider/JvmAutoDevFlow.kt:60-74 | a valid description is returned, with no prompt and no kanban update |
| StepProperties.StoryDetailWhenInvalid | idea/src/main/kotlin/cc/unitmesh/idea/provider/JvmAutoDevFlow.kt:61-71 | one story prompt; then one updateStoryDetail with the same id and title and the answer, which is returned; a failure of either call propagates |
| StepProperties.StoryDetailKeepsRunState | idea/src/main/kotlin/cc/unitmesh/idea/provider/JvmAutoDevFlow.kt:55-75 | step 1 changes none of the three fields |
| StepProperties.DtoAndEntityRouting | idea/src/main/kotlin/cc/unitmesh/idea/provider/JvmAutoDevFlow.kt:80-90 | one prompt over the model inventory, then each class of each parsed block routed in order with no force flag and no controller name |
| StepProperties.DtoAndEntityKeepsRunState | idea/src/main/kotlin/cc/unitmesh/idea/provider/JvmAutoDevFlow.kt:80-90 | step 2 keeps the controller name and isNewController |
| StepProperties.FetchWhenPromptFails | idea/src/main/kotlin/cc/unitmesh/idea/provider/JvmAutoDevFlow.kt:95-99 | a failing prompt propagates and changes nothing else |
| StepProperties.FetchWithoutControllerName | idea/src/main/kotlin/cc/unitmesh/idea/provider/JvmAutoDevFlow.kt:101-105 | an answer with no controller name gives the empty target and leaves isNewController as it was |
| StepProperties.FetchNewController | idea/src/main/kotlin/cc/unitmesh/idea/provider/JvmAutoDevFlow.kt:108-113 | a name absent from the inventory sets isNewController and gives (name, empty class of that name, false) |
| StepProperties.FetchExistingController | idea/src/main/kotlin/cc/unitmesh/idea/provider/JvmAutoDevFlow.kt:108-115 | a name in the inventory gives the first inventory entry of that name, with the default creation flag of the two-argument TargetEndpoint |
| StepProperties.FetchOnlySetsIsNewController | idea/src/main/kotlin/cc/unitmesh/idea/provider/JvmAutoDevFlow.kt:95-116 | step 3 keeps the name and the code and never clears isNewController |
| StepProperties.DoExecutePrompt | idea/src/main/kotlin/cc/unitmesh/idea/provider/JvmAutoDevFlow.kt:195-196 | an attempt starts with its controller-method prompt; a failing prompt ends it; the name and isNewController are kept |
| StepProperties.DoExecuteRoutes | idea/src/main/kotlin/cc/unitmesh/idea/provider/JvmAutoDevFlow.kt:195-203 | after the prompt, the classes of the parsed blocks are routed in order with the target's creation flag and controller name; an empty parse creates nothing |
| StepProperties.DoExecuteCreations | idea/src/main/kotlin/cc/unitmesh/idea/provider/JvmAutoDevFlow.kt:195-203 | after its prompt an attempt makes only creation calls |
| StepProperties.DoExecuteOneAttempt | idea/src/main/kotlin/cc/unitmesh/idea/provider/JvmAutoDevFlow.kt:195-204 | each doExecuteUpdateEndpoint makes exactly one controller-method prompt |
| StepProperties.EndpointRetryOutcome | idea/src/main/kotlin/cc/unitmesh/idea/provider/JvmAutoDevFlow.kt:121-129 | the name becomes the target controller's; a successful first attempt is the outcome; otherwise a second attempt with the same target, story and isNewController is, including its exception |
| StepProperties.EndpointRetryAttempts | idea/src/main/kotlin/cc/unitmesh/idea/provider/JvmAutoDevFlow.kt:121-129 | one attempt when the first succeeds and two when it throws; never a third |
| StepProperties.EndpointCodeKeepsIsNewController | idea/src/main/kotlin/cc/unitmesh/idea/provider/JvmAutoDevFlow.kt:121-129 | step 4 keeps isNewController |
| StepProperties.ServicePath | idea/src/main/kotlin/cc/unitmesh/idea/provider/JvmAutoDevFlow.kt:134-145 | the update path is taken iff some service file is named `<serviceName>.java`, using the first such file; otherwise the service is created |
| StepProperties.ServiceNothingMissing | idea/src/main/kotlin/cc/unitmesh/idea/provider/JvmAutoDevFlow.kt:150-158 | with no missing method there is no prompt and no update |
| StepProperties.UpdateMethodsCalls | idea/src/main/kotlin/cc/unitmesh/idea/provider/JvmAutoDevFlow.kt:164-167 | one updateMethod per block, in order, as a prefix of the blocks, all of them when none threw; the run fields are unchanged |
| StepProperties.UpdateMethodsStopAtFirstFailure | idea/src/main/kotlin/cc/unitmesh/idea/provider/JvmAutoDevFlow.kt:164-167 | the updates stop at the first exception: every earlier updateMethod succeeded, and the error is the one the last call threw |
| StepProperties.ServiceMissingMethods | idea/src/main/kotlin/cc/unitmesh/idea/provider/JvmAutoDevFlow.kt:148-168 | one prompt scoped to the missing methods, then only updateMethod calls for the parsed blocks, in order; nothing is created |
| StepProperties.CreateServiceRoutesForced | idea/src/main/kotlin/cc/unitmesh/idea/provider/JvmAutoDevFlow.kt:183-191 | one prompt from the controller code; every parsed class goes to createControllerOrUpdateMethod("", class, true) |
| StepProperties.CreateServiceKeepsRunState | idea/src/main/kotlin/cc/unitmesh/idea/provider/JvmAutoDevFlow.kt:170-192 | creating the service keeps the name and isNewController |
| StepProperties.ControllerCodeFromGeneratedCode | idea/src/main/kotlin/cc/unitmesh/idea/provider/JvmAutoDevFlow.kt:171-177 | when all controller files are named `*.java` and the name is not, the prompt uses selectedControllerCode |
| StepProperties.MatchedNameIsNotAFileName | idea/src/main/kotlin/cc/unitmesh/idea/provider/JvmAutoDevFlow.kt:172 | a controller name produced by the pattern never ends in `.java` |
| StepProperties.ServiceAndRepositoryKeepsRunState | idea/src/main/kotlin/cc/unitmesh/idea/provider/JvmAutoDevFlow.kt:134-145 | step 5 keeps the name and isNewController |

## Left out

- executePrompt's chat UI is not modelled: the echoed prompt, the loading message, streaming and `runBlocking`. The answer is what `env.complete` returns.
- Logging is not modelled; it has no effect on the flow.
- The prompt text of PromptTemplate and PromptStrategy is not modelled. A `Prompt` records only the inputs handed to them.
- For `advice(controllerFile, serviceName).prefixCode`, the model records the file and the service name, not the prefix code.
- PSI files are reduced to `SourceFile(path, name)`. `runReadAction` and the `as PsiJavaFile` cast are not modelled.
- Exceptions thrown by `parseCodeFromString`, `splitClass`, the classifier predicates or the inventory reads are not modelled; these are total functions of the model. Only the language model and the mutating kanban and code-creator calls may throw.
- A null inventory or file list is modelled as the empty list, which is what the `?: emptyList()` fallbacks produce.
- initContext's `project.service` lookup and the `!!` on `PromptStrategy.strategy("java")` are not modelled. The collaborators are constructor parameters.
- The order in which the five steps run is decided by the caller in DevFlowProvider, which is not part of this model.
- Effects of the code creator on the project are not modelled beyond the recorded calls. Later reads see them through the history the reads receive.
- The declaration of TargetEndpoint is not part of this model, so the default of its `isNeedToCreated` parameter is unknown. The two-argument construction at line 115 is modelled with that default as the collaborator parameter `env.defaultIsNeedToCreated`.
- Flow.JvmAutoDevFlow.InitContext: only a fresh instance is modelled. The source's initContext installs the collaborators and does not reset `selectedControllerName`, `selectedControllerCode` or `isNewController`, so on a reused flow object those fields carry over from the earlier run; the model's constructor starts them from the field initialisers.
- src/main/kotlin/cc/unitmesh/devti/custom/team/TeamContextProvider.kt is not part of this model. It declares an interface with no behaviour of its own.
