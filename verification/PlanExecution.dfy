/**
 The execution loop of the one-shot planner: steps in plan order, a step skipped
 when the step it depends on gave nothing, arguments resolved from the prior
 result, and the gateway's tools listed at most once and only when needed.
 */
module PlanExecution {
  import opened Text
  import opened ArgumentResolution

  datatype ToolStep = ToolStep(tool: string, args: Args, dependsOn: int)

  datatype StepResult = StepResult(tool: string, success: bool, content: string)

  /** What CallTool returns. */
  datatype CallResult = CallOk(content: string) | CallError

  /** A call made to the gateway: the step it belongs to and the arguments sent. */
  datatype ToolCall = ToolCall(step: nat, tool: string, args: Args)

  /** Whether the gateway can list tools; a failed listing lists none. */
  datatype Lister = CannotList | Lists(tools: seq<ToolSchema>)

  /** The gateway and the identifier extraction, as functions of what they are asked. */
  datatype World = World(call: ToolCall -> CallResult, lister: Lister, extract: (string, string) -> seq<Identifier>)

  const DEFAULT_MAX_STEPS: nat := 5

  function Limit(maxSteps: int): nat {
    if maxSteps <= 0 then DEFAULT_MAX_STEPS else maxSteps
  }

  predicate IsPlatformTool(tool: string) {
    HasPrefix(tool, PLATFORM_TOOL_PREFIX)
  }

  /** The last listed schema of a name; a tool that is not listed declares nothing. */
  function SchemaIn(tools: seq<ToolSchema>, tool: string): ToolSchema {
    if tools == [] then ToolSchema(tool, {})
    else if tools[|tools| - 1].name == tool then tools[|tools| - 1]
    else SchemaIn(tools[..|tools| - 1], tool)
  }

  /** The schema a step's tool is resolved against. */
  function SchemaOf(lister: Lister, tool: string): ToolSchema {
    if lister.CannotList? || !IsPlatformTool(tool) then ToolSchema(tool, {}) else SchemaIn(lister.tools, tool)
  }

  /** `lazyToolSchemas`. */
  class LazySchemas {
    const lister: Lister
    var loaded: bool
    var byName: map<string, ToolSchema>
    var listings: nat

    ghost predicate Valid()
      reads this
    {
      && listings == (if loaded && lister.Lists? then 1 else 0)
      && (!loaded || lister.CannotList? ==> byName == map[])
      && (loaded && lister.Lists? ==> IsIndex(byName, lister.tools))
    }

    constructor (lister: Lister)
      ensures Valid() && this.lister == lister && !loaded
    {
      this.lister := lister;
      loaded, byName, listings := false, map[], 0;
    }

    /** `target`: the schema of a step's tool, listing the tools on the first platform tool only. */
    method Target(tool: string) returns (s: ToolSchema)
      requires Valid()
      modifies this
      ensures Valid() && loaded == (old(loaded) || IsPlatformTool(tool))
      ensures s.name == tool
      ensures IsPlatformTool(tool) ==> s == SchemaOf(lister, tool)
    {
      if IsPlatformTool(tool) && !loaded {
        loaded := true;
        if lister.Lists? {
          listings := listings + 1;
          var tools := lister.tools;
          byName := map[];
          for i := 0 to |tools|
            invariant loaded && listings == 1
            invariant IsIndex(byName, tools[..i])
          {
            assert tools[..i + 1][..i] == tools[..i];
            byName := byName[tools[i].name := tools[i]];
          }
          assert tools[..|tools|] == tools;
        }
      }
      s := if tool in byName then byName[tool] else ToolSchema(tool, {});
      if lister.Lists? && loaded {
        IndexFinds(byName, lister.tools, tool);
      }
    }
  }

  ghost predicate IsIndex(m: map<string, ToolSchema>, tools: seq<ToolSchema>) {
    forall tool :: (if tool in m then m[tool] else ToolSchema(tool, {})) == SchemaIn(tools, tool)
  }

  lemma IndexFinds(m: map<string, ToolSchema>, tools: seq<ToolSchema>, tool: string)
    requires IsIndex(m, tools)
    ensures (if tool in m then m[tool] else ToolSchema(tool, {})) == SchemaIn(tools, tool)
            && SchemaIn(tools, tool).name == tool
  {
    SchemaHasName(tools, tool);
  }

  lemma {:induction false} SchemaHasName(tools: seq<ToolSchema>, tool: string)
    ensures SchemaIn(tools, tool).name == tool
  {
    if tools != [] {
      SchemaHasName(tools[..|tools| - 1], tool);
    }
  }

  // -------------------------------------------------- what a run is

  /** The dependency counts only if it points at an earlier step. */
  predicate DependsBack(steps: seq<ToolStep>, i: nat)
    requires i < |steps|
  {
    0 <= steps[i].dependsOn < i
  }

  /** A step that gave nothing: failed, skipped or empty. */
  predicate GaveNothing(r: StepResult) {
    !r.success || r.content == ""
  }

  predicate Blocked(steps: seq<ToolStep>, results: seq<StepResult>, i: nat)
    requires i < |steps| && i <= |results|
  {
    DependsBack(steps, i) && GaveNothing(results[steps[i].dependsOn])
  }

  /** The arguments step i calls its tool with. */
  function SentArgs(w: World, steps: seq<ToolStep>, results: seq<StepResult>, i: nat): Args
    requires i < |steps| && i <= |results|
  {
    if !DependsBack(steps, i) then steps[i].args
    else
      var prior := results[steps[i].dependsOn];
      Resolved(steps[i].args, w.extract(prior.content, prior.tool), SchemaFor(w, steps[i].tool))
  }

  /** A kit tool is resolved without a schema. */
  function SchemaFor(w: World, tool: string): ToolSchema {
    if IsPlatformTool(tool) then SchemaOf(w.lister, tool) else ToolSchema(tool, {})
  }

  function CallOf(w: World, steps: seq<ToolStep>, results: seq<StepResult>, i: nat): ToolCall
    requires i < |steps| && i <= |results|
  {
    ToolCall(i, steps[i].tool, SentArgs(w, steps, results, i))
  }

  /** The result of step i, given the results before it. */
  function ResultOf(w: World, steps: seq<ToolStep>, results: seq<StepResult>, i: nat): StepResult
    requires i < |steps| && i <= |results|
  {
    if Blocked(steps, results, i) then StepResult(steps[i].tool, false, "")
    else
      match w.call(CallOf(w, steps, results, i))
      case CallOk(content) => StepResult(steps[i].tool, true, content)
      case CallError => StepResult(steps[i].tool, false, "")
  }

  /** results is what executing the steps gives, entry by entry. */
  ghost predicate IsExecution(w: World, steps: seq<ToolStep>, results: seq<StepResult>) {
    |results| <= |steps| && forall i :: 0 <= i < |results| ==> results[i] == ResultOf(w, steps, results[..i], i)
  }

  /** The calls of an execution: one for each step that is not blocked, in plan order. */
  function CallsOf(w: World, steps: seq<ToolStep>, results: seq<StepResult>): seq<ToolCall>
    requires |results| <= |steps|
  {
    if results == [] then []
    else
      var n := |results| - 1;
      CallsOf(w, steps, results[..n]) + if Blocked(steps, results[..n], n) then []
      else [CallOf(w, steps, results[..n], n)]
  }

  /** Some step that ran needed a platform tool's schema. */
  ghost predicate NeedsListing(steps: seq<ToolStep>, results: seq<StepResult>)
    requires |results| <= |steps|
  {
    exists i :: 0 <= i < |results| && DependsBack(steps, i) && !Blocked(steps, results[..i], i)
                && IsPlatformTool(steps[i].tool)
  }

  /** The execution loop of `PlanAndExecute`. */
  method Execute(w: World, plan: seq<ToolStep>, maxSteps: int)
    returns (results: seq<StepResult>, calls: seq<ToolCall>, listings: nat)
    ensures var limit := if maxSteps <= 0 then 5 else maxSteps;
            |results| == if |plan| <= limit then |plan| else limit
    ensures IsExecution(w, plan, results)
    ensures calls == CallsOf(w, plan, results)
    ensures listings == if NeedsListing(plan, results) && w.lister.Lists? then 1 else 0
  {
    var n := if |plan| <= Limit(maxSteps) then |plan| else Limit(maxSteps);
    results, calls := [], [];
    var schemas := new LazySchemas(w.lister);
    while |results| < n
      invariant |results| <= n
      invariant IsExecution(w, plan, results)
      invariant calls == CallsOf(w, plan, results)
      invariant schemas.Valid() && schemas.lister == w.lister && schemas.loaded == NeedsListing(plan, results)
      decreases n - |results|
    {
      var i := |results|;
      var step := plan[i];
      ghost var before := results;
      var result: StepResult;
      if 0 <= step.dependsOn < i && (!results[step.dependsOn].success || results[step.dependsOn].content == "") {
        result := StepResult(step.tool, false, "");
      } else {
        var args := step.args;
        if 0 <= step.dependsOn < i {
          var prior := results[step.dependsOn];
          var target := schemas.Target(step.tool);
          var m := new ArgMap(args);
          m.Resolve(w.extract(prior.content, prior.tool), target);
          args := m.args;
          KitSchemaDoesNotMatter(step.args, w.extract(prior.content, prior.tool), target, SchemaFor(w, step.tool));
        }
        var call := ToolCall(i, step.tool, args);
        calls := calls + [call];
        match w.call(call) {
          case CallOk(content) => result := StepResult(step.tool, true, content);
          case CallError => result := StepResult(step.tool, false, "");
        }
      }
      results := results + [result];
      ExtendExecution(w, plan, before, result);
    }
    listings := schemas.listings;
  }

  /** For a kit tool the schema plays no part in resolution. */
  lemma KitSchemaDoesNotMatter(args: Args, ids: seq<Identifier>, s: ToolSchema, s': ToolSchema)
    requires s.name == s'.name && (s == s' || !IsPlatformTool(s.name))
    ensures Resolved(args, ids, s) == Resolved(args, ids, s')
  {
    assert Added(args, ids, s) == Added(args, ids, s');
  }

  lemma ExtendExecution(w: World, steps: seq<ToolStep>, results: seq<StepResult>, r: StepResult)
    requires IsExecution(w, steps, results) && |results| < |steps|
    requires r == ResultOf(w, steps, results, |results|)
    ensures var all := results + [r];
            var n := |results|;
            && IsExecution(w, steps, all)
            && CallsOf(w, steps, all) == CallsOf(w, steps, results)
                                         + (if Blocked(steps, results, n) then [] else [CallOf(w, steps, results, n)])
            && (NeedsListing(steps, all) <==>
                NeedsListing(steps, results)
                || (DependsBack(steps, n) && !Blocked(steps, results, n) && IsPlatformTool(steps[n].tool)))
  {
    var all, n := results + [r], |results|;
    assert all[..n] == results;
    assert forall i :: 0 <= i < n ==> all[..i] == results[..i];
    if NeedsListing(steps, results) {
      var i :| 0 <= i < n && DependsBack(steps, i) && !Blocked(steps, results[..i], i) && IsPlatformTool(steps[i].tool);
      assert all[..i] == results[..i];
    }
  }

  // -------------------------------------------------- what a run guarantees

  /** A chain of in-range backward dependencies: each step depends on the next one in the list. */
  ghost predicate IsChain(steps: seq<ToolStep>, chain: seq<nat>) {
    && |chain| >= 2
    && (forall k :: 0 <= k < |chain| ==> chain[k] < |steps|)
    && forall k :: 0 <= k < |chain| - 1 ==> DependsBack(steps, chain[k]) && steps[chain[k]].dependsOn == chain[k + 1]
  }

  ghost predicate Calls(calls: seq<ToolCall>, i: nat) {
    exists k :: 0 <= k < |calls| && calls[k].step == i
  }

  /** Calls are made in plan order, at most once a step, and exactly by the steps that are not blocked. */
  lemma {:induction false} CallsAreTheUnblockedSteps(w: World, steps: seq<ToolStep>, results: seq<StepResult>)
    requires |results| <= |steps|
    ensures var calls := CallsOf(w, steps, results);
            && (forall k, k' :: 0 <= k < k' < |calls| ==> calls[k].step < calls[k'].step)
            && (forall k :: 0 <= k < |calls| ==> calls[k].step < |results|)
            && (forall i :: 0 <= i < |results| ==> (Calls(calls, i) <==> !Blocked(steps, results[..i], i)))
  {
    if results != [] {
      var n := |results| - 1;
      CallsAreTheUnblockedSteps(w, steps, results[..n]);
      var before, calls := CallsOf(w, steps, results[..n]), CallsOf(w, steps, results);
      forall i | 0 <= i < |results| ensures Calls(calls, i) <==> !Blocked(steps, results[..i], i) {
        if i < n {
          assert results[..n][..i] == results[..i];
          if Calls(before, i) {
            var k :| 0 <= k < |before| && before[k].step == i;
            assert calls[k].step == i;
          }
        } else if !Blocked(steps, results[..n], n) {
          assert calls[|before|].step == n;
        }
      }
    }
  }

  /** Everything downstream of a step that gave nothing gives nothing. */
  lemma {:induction false} NothingSpreads(w: World, steps: seq<ToolStep>, results: seq<StepResult>, chain: seq<nat>)
    requires IsExecution(w, steps, results) && IsChain(steps, chain) && chain[0] < |results|
    requires chain[|chain| - 1] < |results| && GaveNothing(results[chain[|chain| - 1]])
    ensures Blocked(steps, results[..chain[0]], chain[0])
  {
    var i, d := chain[0], chain[1];
    assert DependsBack(steps, i) && steps[i].dependsOn == d;
    if |chain| > 2 {
      var rest := chain[1..];
      assert forall k :: 0 <= k < |rest| - 1 ==> DependsBack(steps, rest[k]) && steps[rest[k]].dependsOn == rest[k + 1];
      NothingSpreads(w, steps, results, rest);
      assert results[d] == ResultOf(w, steps, results[..d], d);
    }
    assert results[..i][d] == results[d];
  }

  /** No step reached by a chain of dependencies from a failed, skipped or empty step calls a tool. */
  lemma DependentsOfNothingNeverCall(w: World, steps: seq<ToolStep>, results: seq<StepResult>, chain: seq<nat>)
    requires IsExecution(w, steps, results) && IsChain(steps, chain) && chain[0] < |results|
    requires chain[|chain| - 1] < |results| && GaveNothing(results[chain[|chain| - 1]])
    ensures !Calls(CallsOf(w, steps, results), chain[0])
  {
    NothingSpreads(w, steps, results, chain);
    CallsAreTheUnblockedSteps(w, steps, results);
  }

  /** A step calls no tool only because such a chain exists: the step it depends on gave nothing. */
  lemma OnlyDependentsOfNothingAreSkipped(w: World, steps: seq<ToolStep>, results: seq<StepResult>, i: nat)
    returns (chain: seq<nat>)
    requires IsExecution(w, steps, results) && i < |results| && !Calls(CallsOf(w, steps, results), i)
    ensures IsChain(steps, chain) && chain[0] == i && chain[|chain| - 1] < i && GaveNothing(results[chain[|chain| - 1]])
  {
    CallsAreTheUnblockedSteps(w, steps, results);
    chain := [i, steps[i].dependsOn];
    assert results[..i][steps[i].dependsOn] == results[steps[i].dependsOn];
  }

  /** Results are aligned with the steps they belong to. */
  lemma ResultsAreAligned(w: World, steps: seq<ToolStep>, results: seq<StepResult>, i: nat)
    requires IsExecution(w, steps, results) && i < |results|
    ensures results[i].tool == steps[i].tool
    ensures results[i].success ==>
              Calls(CallsOf(w, steps, results), i)
              && w.call(CallOf(w, steps, results[..i], i)) == CallOk(results[i].content)
  {
    CallsAreTheUnblockedSteps(w, steps, results);
    assert results[i] == ResultOf(w, steps, results[..i], i);
  }
}
