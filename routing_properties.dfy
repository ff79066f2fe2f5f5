/** What routing a batch of generated classes does to the run state and the trace. */
module RoutingProperties {
  import opened Wrappers
  import opened FlowModel
  import opened ArtifactRouter
  import opened Steps

  /** The calls createCode makes for units, one per unit, in order, when none throws. */
  function RoutedCalls(env: Env, units: seq<string>, controllerName: string, isNeedCreateController: bool): (r: seq<Call>)
    ensures |r| == |units|
    decreases |units|
  {
    if units == [] then []
    else [RouteCall(env, units[0], controllerName, isNeedCreateController)]
         + RoutedCalls(env, units[1..], controllerName, isNeedCreateController)
  }

  /** The k-th routed call is the routing of the k-th unit. */
  lemma {:induction false} RoutedCallsAt(env: Env, units: seq<string>, controllerName: string, force: bool, k: nat)
    requires k < |units|
    ensures RoutedCalls(env, units, controllerName, force)[k] == RouteCall(env, units[k], controllerName, force)
    decreases k
  {
    if k > 0 {
      RoutedCallsAt(env, units[1..], controllerName, force, k - 1);
    }
  }

  /** selectedControllerCode after routing units: the last one taken as a controller, if any. */
  function LastControllerCode(env: Env, units: seq<string>, isNeedCreateController: bool, code: string): string
    decreases |units|
  {
    if units == [] then code
    else LastControllerCode(env, units[1..], isNeedCreateController,
                            if Classify(env, units[0], isNeedCreateController) == ControllerKind then units[0] else code)
  }

  /** The classes of a batch of code blocks: each block split, in order (the two nested forEach). */
  function Units(env: Env, codes: seq<string>): seq<string>
    decreases |codes|
  {
    if codes == [] then [] else env.splitClass(codes[0]) + Units(env, codes[1..])
  }

  /** The class is routed to the controller operation. */
  predicate TakenAsController(env: Env, code: string, force: bool) {
    Classify(env, code, force) == ControllerKind
  }

  /** With no class routed to the controller operation, selectedControllerCode keeps its value. */
  lemma {:induction false} LastControllerCodeWithoutController(env: Env, units: seq<string>, force: bool, code: string)
    requires forall k :: 0 <= k < |units| ==> !TakenAsController(env, units[k], force)
    ensures LastControllerCode(env, units, force, code) == code
    decreases |units|
  {
    if units != [] {
      assert forall k :: 0 <= k < |units| - 1 ==> units[1..][k] == units[k + 1];
      LastControllerCodeWithoutController(env, units[1..], force, code);
    }
  }

  /** selectedControllerCode ends as the most recent class routed to the controller operation. */
  lemma {:induction false} LastControllerCodeIsMostRecent(env: Env, units: seq<string>, force: bool, code: string, k: nat)
    requires k < |units| && TakenAsController(env, units[k], force)
    requires forall j :: k < j < |units| ==> !TakenAsController(env, units[j], force)
    ensures LastControllerCode(env, units, force, code) == units[k]
    decreases |units|
  {
    var next := if TakenAsController(env, units[0], force) then units[0] else code;
    assert forall j :: 0 <= j < |units| - 1 ==> units[1..][j] == units[j + 1];
    if k == 0 {
      LastControllerCodeWithoutController(env, units[1..], force, next);
    } else {
      LastControllerCodeIsMostRecent(env, units[1..], force, next, k - 1);
    }
  }

  /** A batch extends the trace by one call per class it reaches; all of them unless one threw. */
  lemma {:induction false} RouteUnitsLength(env: Env, s: Snap, units: seq<string>, controllerName: string, force: bool)
    ensures var r := RouteUnits(env, s, units, controllerName, force);
            && s.trace <= r.snap.trace
            && var n := |r.snap.trace| - |s.trace|;
            && n <= |units|
            && (r.out.Ok? ==> n == |units|)
            && (r.out.Err? ==> n > 0)
    decreases |units|
  {
    if units != [] {
      var a := CreateCode(env, s, units[0], controllerName, force);
      if a.out.Ok? {
        RouteUnitsLength(env, a.snap, units[1..], controllerName, force);
      }
    }
  }

  /** The calls a batch makes: one creation call per class, in order, as far as the batch gets. */
  lemma {:induction false} RouteUnitsCalls(env: Env, s: Snap, units: seq<string>, controllerName: string, force: bool)
    ensures var r := RouteUnits(env, s, units, controllerName, force);
            && s.trace <= r.snap.trace
            && var n := |r.snap.trace| - |s.trace|;
            && n <= |units|
            && r.snap.trace[|s.trace|..] == RoutedCalls(env, units[..n], controllerName, force)
            && (r.out.Ok? ==> n == |units|)
            && (r.out.Err? ==> n > 0)
    decreases |units|
  {
    RouteUnitsLength(env, s, units, controllerName, force);
    if units != [] {
      var a := CreateCode(env, s, units[0], controllerName, force);
      var c0 := RouteCall(env, units[0], controllerName, force);
      assert a.snap.trace == s.trace + [c0];
      if a.out.Err? {
        assert units[..1][1..] == [];
      } else {
        RouteUnitsCalls(env, a.snap, units[1..], controllerName, force);
        var r := RouteUnits(env, s, units, controllerName, force);
        assert r.snap.trace[|s.trace|] == a.snap.trace[|s.trace|];
        RoutedCallsStep(env, s.trace, r.snap.trace, units, controllerName, force);
      }
    }
  }

  /** One routed call, followed by the calls for the rest of the units that were reached. */
  lemma RoutedCallsStep(env: Env, t0: History, t2: History, units: seq<string>, controllerName: string, force: bool)
    requires t0 <= t2 && 0 < |t2| - |t0| <= |units|
    requires t2[|t0|] == RouteCall(env, units[0], controllerName, force)
    requires t2[|t0| + 1..] == RoutedCalls(env, units[1..][..|t2| - |t0| - 1], controllerName, force)
    ensures t2[|t0|..] == RoutedCalls(env, units[..|t2| - |t0|], controllerName, force)
  {
    var n := |t2| - |t0|;
    assert units[..n][1..] == units[1..][..n - 1];
    assert t2[|t0|..] == [t2[|t0|]] + t2[|t0| + 1..];
  }

  /** A batch changes only selectedControllerCode: to the last class routed to the controller operation. */
  lemma {:induction false} RouteUnitsState(env: Env, s: Snap, units: seq<string>, controllerName: string, force: bool)
    ensures var r := RouteUnits(env, s, units, controllerName, force);
            var n := |r.snap.trace| - |s.trace|;
            && 0 <= n <= |units|
            && r.snap.selectedControllerName == s.selectedControllerName
            && r.snap.isNewController == s.isNewController
            && r.snap.selectedControllerCode == LastControllerCode(env, units[..n], force, s.selectedControllerCode)
    decreases |units|
  {
    if units != [] {
      var a := CreateCode(env, s, units[0], controllerName, force);
      var r := RouteUnits(env, s, units, controllerName, force);
      if a.out.Err? {
        assert units[..1][1..] == [];
      } else {
        RouteUnitsState(env, a.snap, units[1..], controllerName, force);
        var n := |r.snap.trace| - |s.trace|;
        assert units[..n][0] == units[0];
        assert units[..n][1..] == units[1..][..n - 1];
      }
    }
  }

  /** No call in t[from..to] threw. */
  predicate FaultFree(env: Env, t: History, from: nat, to: int)
    requires to <= |t|
  {
    forall k :: from <= k < to ==> env.fails(t[..k], t[k]).None?
  }

  /** Fault freedom of a prefix carries over to any extension of it. */
  lemma FaultFreeExtend(env: Env, t1: History, t2: History, from: nat, to: int)
    requires t1 <= t2 && |t1| <= to <= |t2|
    requires FaultFree(env, t1, from, |t1|) && FaultFree(env, t2, |t1|, to)
    ensures FaultFree(env, t2, from, to)
  {
    forall k | from <= k < |t1|
      ensures env.fails(t2[..k], t2[k]).None?
    {
      assert t2[..k] == t1[..k];
      assert t2[k] == t1[k];
    }
  }

  /** A batch stops at the first exception: every earlier call succeeded and the last one threw it. */
  lemma {:induction false} RouteUnitsStopsAtFirstFailure(env: Env, s: Snap, units: seq<string>, controllerName: string, force: bool)
    ensures var r := RouteUnits(env, s, units, controllerName, force);
            && s.trace <= r.snap.trace
            && var n := |r.snap.trace| - |s.trace|;
            && (r.out.Err? ==> n > 0 && env.fails(r.snap.trace[..|r.snap.trace| - 1], r.snap.trace[|r.snap.trace| - 1]) == Some(r.out.error))
            && FaultFree(env, r.snap.trace, |s.trace|, |r.snap.trace| - (if r.out.Err? then 1 else 0))
    decreases |units|
  {
    if units != [] {
      var a := CreateCode(env, s, units[0], controllerName, force);
      assert a.snap.trace[..|s.trace|] == s.trace;
      if a.out.Ok? {
        assert FaultFree(env, a.snap.trace, |s.trace|, |a.snap.trace|);
        RouteUnitsStopsAtFirstFailure(env, a.snap, units[1..], controllerName, force);
        var r := RouteUnits(env, s, units, controllerName, force);
        FaultFreeExtend(env, a.snap.trace, r.snap.trace, |s.trace|, |r.snap.trace| - (if r.out.Err? then 1 else 0));
      }
    }
  }

  /** Routing a + b is routing a, then b unless a threw. */
  lemma {:induction false} RouteUnitsAppend(env: Env, s: Snap, a: seq<string>, b: seq<string>, controllerName: string, force: bool)
    ensures RouteUnits(env, s, a + b, controllerName, force) ==
            var r := RouteUnits(env, s, a, controllerName, force);
            if r.out.Err? then r else RouteUnits(env, r.snap, b, controllerName, force)
    decreases |a|
  {
    if a == [] {
      assert a + b == b;
    } else {
      assert (a + b)[0] == a[0];
      assert (a + b)[1..] == a[1..] + b;
      var c := CreateCode(env, s, a[0], controllerName, force);
      if c.out.Ok? {
        RouteUnitsAppend(env, c.snap, a[1..], b, controllerName, force);
      }
    }
  }

  /** The nested loops over code blocks and their classes route the flattened classes. */
  lemma {:induction false} RouteCodesFlat(env: Env, s: Snap, codes: seq<string>, force: bool, controllerName: string)
    ensures RouteCodes(env, s, codes, force, controllerName) == RouteUnits(env, s, Units(env, codes), controllerName, force)
    decreases |codes|
  {
    if codes != [] {
      RouteUnitsAppend(env, s, env.splitClass(codes[0]), Units(env, codes[1..]), controllerName, force);
      var a := CreateCodeByType(env, s, codes[0], force, controllerName);
      if a.out.Ok? {
        RouteCodesFlat(env, a.snap, codes[1..], force, controllerName);
      }
    }
  }

  /** Routing code blocks, in the terms of RouteUnitsCalls over their classes. */
  lemma RouteCodesCalls(env: Env, s: Snap, codes: seq<string>, force: bool, controllerName: string)
    ensures var r := RouteCodes(env, s, codes, force, controllerName);
            var units := Units(env, codes);
            && s.trace <= r.snap.trace
            && var n := |r.snap.trace| - |s.trace|;
            && n <= |units|
            && r.snap.trace[|s.trace|..] == RoutedCalls(env, units[..n], controllerName, force)
            && (r.out.Ok? ==> n == |units|)
            && r.snap.selectedControllerName == s.selectedControllerName
            && r.snap.isNewController == s.isNewController
            && r.snap.selectedControllerCode == LastControllerCode(env, units[..n], force, s.selectedControllerCode)
  {
    RouteCodesFlat(env, s, codes, force, controllerName);
    RouteUnitsCalls(env, s, Units(env, codes), controllerName, force);
    RouteUnitsState(env, s, Units(env, codes), controllerName, force);
  }

  /** Routing by createCode: exactly one creation call, and only the controller branch keeps the class. */
  lemma CreateCodeEffect(env: Env, s: Snap, code: string, controllerName: string, force: bool)
    ensures var r := CreateCode(env, s, code, controllerName, force);
            && r.snap.trace == s.trace + [RouteCall(env, code, controllerName, force)]
            && RouteCall(env, code, controllerName, force).IsCreation()
            && r.snap.selectedControllerName == s.selectedControllerName
            && r.snap.isNewController == s.isNewController
            && r.snap.selectedControllerCode == (if force || env.isController(code) then code else s.selectedControllerCode)
            && (r.out.Err? <==> env.fails(s.trace, RouteCall(env, code, controllerName, force)).Some?)
  {
  }
}
