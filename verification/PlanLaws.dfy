/**
 What the calls of a plan carry: the step's own arguments, or those resolved
 from the step it depends on, and what comes of each call.
 */
module PlanLaws {
  import opened Prelude
  import opened Text
  import opened ArgumentResolution
  import opened ResolutionLaws
  import opened PlanExecution

  /** The step depends on an earlier one that failed, was skipped or gave no content. */
  predicate GivenNothing(steps: seq<ToolStep>, results: seq<StepResult>, i: nat)
    requires i < |results| <= |steps|
  {
    var d := steps[i].dependsOn;
    0 <= d < i && (!results[d].success || results[d].content == "")
  }

  lemma BlockedIsGivenNothing(steps: seq<ToolStep>, results: seq<StepResult>, i: nat)
    requires i < |results| <= |steps|
    ensures Blocked(steps, results[..i], i) <==> GivenNothing(steps, results, i)
  {
  }

  /** A step calls its tool if and only if it is not left with nothing. */
  lemma StepsCallUnlessGivenNothing(w: World, steps: seq<ToolStep>, results: seq<StepResult>, i: nat)
    requires i < |results| <= |steps|
    ensures Calls(CallsOf(w, steps, results), i) <==> !GivenNothing(steps, results, i)
  {
    CallsAreTheUnblockedSteps(w, steps, results);
    BlockedIsGivenNothing(steps, results, i);
  }

  lemma {:induction false} CallsAreMade(w: World, steps: seq<ToolStep>, results: seq<StepResult>, k: nat)
    requires |results| <= |steps| && k < |CallsOf(w, steps, results)|
    ensures var call := CallsOf(w, steps, results)[k];
            call.step < |results| && call == CallOf(w, steps, results[..call.step], call.step)
  {
    var n := |results| - 1;
    var front := results[..n];
    if k < |CallsOf(w, steps, front)| {
      CallsAreMade(w, steps, front, k);
      assert front[..CallsOf(w, steps, front)[k].step] == results[..CallsOf(w, steps, front)[k].step];
    }
  }

  /** A call goes to its step's tool; without a backward dependency it carries the step's own arguments. */
  lemma IndependentStepsSendTheirArguments(w: World, steps: seq<ToolStep>, results: seq<StepResult>, k: nat)
    requires |results| <= |steps| && k < |CallsOf(w, steps, results)|
    ensures var call := CallsOf(w, steps, results)[k];
            && call.step < |results| && call.tool == steps[call.step].tool
            && (!(0 <= steps[call.step].dependsOn < call.step) ==> call.args == steps[call.step].args)
  {
    CallsAreMade(w, steps, results, k);
  }

  /** The identifiers a step is resolved from: those of the result it depends on. */
  function Given(w: World, steps: seq<ToolStep>, results: seq<StepResult>, i: nat): seq<Identifier>
    requires i < |results| <= |steps| && 0 <= steps[i].dependsOn < i
  {
    w.extract(results[steps[i].dependsOn].content, results[steps[i].dependsOn].tool)
  }

  /**
   In every execution, a call of a step that depends on an earlier one has, in
   each ID argument that was a placeholder, the first identifier of that
   argument's kind out of the earlier result, and keeps every concrete argument.
   */
  lemma DependentStepsSendResolved(w: World, steps: seq<ToolStep>, results: seq<StepResult>, k: nat, field: string)
    requires |results| <= |steps| && k < |CallsOf(w, steps, results)|
    requires var i := CallsOf(w, steps, results)[k].step;
             i < |results| && 0 <= steps[i].dependsOn < i && field in steps[i].args
    ensures var call := CallsOf(w, steps, results)[k];
            var was, ids := steps[call.step].args[field], Given(w, steps, results, call.step);
            && field in call.args
            && (was.NotString? || (was.s != "" && !IsPlaceholder(was.s)) ==> call.args[field] == was)
            && (was.Str? && IsPlaceholder(was.s) && FieldTakes(field).Some?
                && FirstOfKind(ids, FieldTakes(field).value).Some?
                && FirstOfKind(ids, FieldTakes(field).value).value.value != "" ==>
                  call.args[field] == Str(FirstOfKind(ids, FieldTakes(field).value).value.value))
  {
    CallsAreMade(w, steps, results, k);
    var call := CallsOf(w, steps, results)[k];
    var i := call.step;
    var ids, target, args := Given(w, steps, results, i), SchemaFor(w, steps[i].tool), steps[i].args;
    assert call.args == Resolved(args, ids, target);
    OnlyPlaceholdersChange(args, ids, target, field);
    var was := args[field];
    if was.Str? && IsPlaceholder(was.s) && FieldTakes(field).Some? && FirstOfKind(ids, FieldTakes(field).value).Some?
       && FirstOfKind(ids, FieldTakes(field).value).value.value != "" {
      PlaceholdersGiveWay(args, ids, target, field);
    }
  }

  /** A missing ID argument is added for a kit tool, and for a kg_ tool if its listed schema declares it. */
  lemma DependentStepsGetMissingIds(w: World, steps: seq<ToolStep>, results: seq<StepResult>, k: nat, field: string)
    requires |results| <= |steps| && k < |CallsOf(w, steps, results)|
    requires var i := CallsOf(w, steps, results)[k].step;
             i < |results| && 0 <= steps[i].dependsOn < i && field !in steps[i].args && IsAutomatic(field)
    requires FirstOfKind(Given(w, steps, results, CallsOf(w, steps, results)[k].step), FieldTakes(field).value).Some?
    ensures var call := CallsOf(w, steps, results)[k];
            var value := FirstOfKind(Given(w, steps, results, call.step), FieldTakes(field).value).value.value;
            if HasPrefix(call.tool, "kg_") && !(w.lister.Lists? && Declares(w.lister.tools, call.tool, field))
            then field !in call.args
            else field in call.args && call.args[field] == Str(value)
  {
    CallsAreMade(w, steps, results, k);
    var call := CallsOf(w, steps, results)[k];
    var i := call.step;
    var ids, target, args := Given(w, steps, results, i), SchemaFor(w, steps[i].tool), steps[i].args;
    assert call.args == Resolved(args, ids, target);
    GapsAreFilled(args, ids, target, field);
    if w.lister.Lists? {
      SchemaHasName(w.lister.tools, call.tool);
      DeclaresMeans(w.lister.tools, call.tool, field);
    }
  }

  /** The last schema listed under the name declares the field. */
  ghost predicate Declares(tools: seq<ToolSchema>, tool: string, field: string) {
    exists i :: && 0 <= i < |tools| && tools[i].name == tool && field in tools[i].declared
                && forall j :: i < j < |tools| ==> tools[j].name != tool
  }

  lemma {:induction false} DeclaresMeans(tools: seq<ToolSchema>, tool: string, field: string)
    ensures field in SchemaIn(tools, tool).declared <==> Declares(tools, tool, field)
  {
    if tools != [] {
      var n := |tools| - 1;
      DeclaresMeans(tools[..n], tool, field);
      if tools[n].name == tool {
        if field in tools[n].declared {
          assert tools[n].name == tool && field in tools[n].declared;
        }
      } else {
        SameDeclares(tools[..n], tools[n], tool, field);
        assert tools[..n] + [tools[n]] == tools;
      }
    }
  }

  lemma SameDeclares(tools: seq<ToolSchema>, last: ToolSchema, tool: string, field: string)
    requires last.name != tool
    ensures Declares(tools + [last], tool, field) <==> Declares(tools, tool, field)
  {
    var all := tools + [last];
    assert forall i :: 0 <= i < |tools| ==> all[i] == tools[i];
    if Declares(tools, tool, field) {
      var i :| && 0 <= i < |tools| && tools[i].name == tool && field in tools[i].declared
               && forall j :: i < j < |tools| ==> tools[j].name != tool;
      assert all[i].name == tool && field in all[i].declared;
      assert forall j :: i < j < |all| ==> all[j].name != tool;
    }
  }

  /** What comes of each step: its call's content, or nothing where the call failed or was not made. */
  lemma ResultsAreWhatCallsReturned(w: World, steps: seq<ToolStep>, results: seq<StepResult>, i: nat)
    requires IsExecution(w, steps, results) && i < |results|
    ensures results[i].tool == steps[i].tool
    ensures GivenNothing(steps, results, i) ==> !results[i].success && results[i].content == ""
    ensures !GivenNothing(steps, results, i) ==>
              match w.call(CallOf(w, steps, results[..i], i))
              case CallOk(content) => results[i].success && results[i].content == content
              case CallError => !results[i].success && results[i].content == ""
  {
    BlockedIsGivenNothing(steps, results, i);
    assert results[i] == ResultOf(w, steps, results[..i], i);
  }

  /** Tools are listed in a run exactly when a step that ran depends on an earlier one and names a kg_ tool. */
  lemma ListingsAreNeeded(steps: seq<ToolStep>, results: seq<StepResult>)
    requires |results| <= |steps|
    ensures NeedsListing(steps, results) <==>
            exists i :: && 0 <= i < |results| && 0 <= steps[i].dependsOn < i && !GivenNothing(steps, results, i)
                        && HasPrefix(steps[i].tool, "kg_")
  {
    forall i | 0 <= i < |results| ensures Blocked(steps, results[..i], i) <==> GivenNothing(steps, results, i) {
      BlockedIsGivenNothing(steps, results, i);
    }
  }
}
