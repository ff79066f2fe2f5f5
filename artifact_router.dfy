/** The classification of one generated class and the creation call it is routed to (createCode). */
module ArtifactRouter {
  import opened FlowModel

  datatype ArtifactKind = ControllerKind | ServiceKind | EntityKind | DtoKind | RepositoryKind | GenericKind

  /** The position of a kind's rule in the `when` of createCode. */
  function Rank(k: ArtifactKind): nat {
    match k
    case ControllerKind => 0
    case ServiceKind => 1
    case EntityKind => 2
    case DtoKind => 3
    case RepositoryKind => 4
    case GenericKind => 5
  }

  /** The condition of a kind's branch; the `else` branch always applies. */
  predicate Claims(env: Env, code: string, isNeedCreateController: bool, k: ArtifactKind) {
    match k
    case ControllerKind => isNeedCreateController || env.isController(code)
    case ServiceKind => env.isService(code)
    case EntityKind => env.isEntity(code)
    case DtoKind => env.isDto(code)
    case RepositoryKind => env.isRepository(code)
    case GenericKind => true
  }

  /** The branch createCode takes: the first whose condition holds. */
  function Classify(env: Env, code: string, isNeedCreateController: bool): (k: ArtifactKind)
    ensures Claims(env, code, isNeedCreateController, k)
    ensures forall k' :: Rank(k') < Rank(k) ==> !Claims(env, code, isNeedCreateController, k')
  {
    if isNeedCreateController || env.isController(code) then ControllerKind
    else if env.isService(code) then ServiceKind
    else if env.isEntity(code) then EntityKind
    else if env.isDto(code) then DtoKind
    else if env.isRepository(code) then RepositoryKind
    else GenericKind
  }

  /** The code-creator operation of each branch. */
  function CreationCall(k: ArtifactKind, code: string, controllerName: string, isNeedCreateController: bool): (c: Call)
    ensures c.IsCreation() && c.code == code
  {
    match k
    case ControllerKind => CreateControllerOrUpdateMethod(controllerName, code, isNeedCreateController)
    case ServiceKind => CreateService(code)
    case EntityKind => CreateEntity(code)
    case DtoKind => CreateDto(code)
    case RepositoryKind => CreateRepository(code)
    case GenericKind => CreateClass(code)
  }

  /** The call createCode makes for one generated class. */
  function RouteCall(env: Env, code: string, controllerName: string, isNeedCreateController: bool): (c: Call)
    ensures c.IsCreation() && c.code == code
    ensures c.CreateControllerOrUpdateMethod? ==> c.controllerName == controllerName && c.isNeedCreateController == isNeedCreateController
  {
    CreationCall(Classify(env, code, isNeedCreateController), code, controllerName, isNeedCreateController)
  }

  /** The force flag wins over every predicate: the class goes to the controller operation. */
  lemma ForcedIsController(env: Env, code: string, controllerName: string)
    ensures RouteCall(env, code, controllerName, true) == CreateControllerOrUpdateMethod(controllerName, code, true)
  {
  }

  /** A class that is both a service and a repository is routed as a service (service is ranked first). */
  lemma ServiceBeforeRepository(env: Env, code: string, controllerName: string)
    requires !env.isController(code) && env.isService(code) && env.isRepository(code)
    ensures RouteCall(env, code, controllerName, false) == CreateService(code)
  {
  }

  /** Only the controller operation carries the controller name and the force flag. */
  lemma RouteCallIsController(env: Env, code: string, controllerName: string, isNeedCreateController: bool)
    ensures RouteCall(env, code, controllerName, isNeedCreateController).CreateControllerOrUpdateMethod?
            <==> isNeedCreateController || env.isController(code)
  {
  }
}
