/** The cache of running executions, and each execution as the object that requests step in place. */
module Executor {
  import opened Wrappers
  import opened Model
  import opened Tables
  import opened Closure
  import opened Recording
  import opened Executions
  import opened Checks
  import Requests

  class FlowExecution {
    const flow: Flow
    const key: FlowKey
    var context: ExecutionContext
    var currentEntryIdx: nat
    var isCompleted: bool

    /** The execution as a value. */
    ghost function View(): Execution
      reads this
    {
      Execution(flow, key, context, currentEntryIdx, isCompleted)
    }

    constructor (flow: Flow, key: FlowKey, context: ExecutionContext)
      ensures View() == Execution(flow, key, context, 0, false)
    {
      this.flow := flow;
      this.key := key;
      this.context := context;
      currentEntryIdx := 0;
      isCompleted := false;
    }

    function GetEntry(): FlowEntry
      requires currentEntryIdx < |flow.entries|
      reads this
    {
      flow.entries[currentEntryIdx]
    }

    method CompleteCurrent()
      modifies this
      ensures View() == Advance(old(View()))
    {
      var next := currentEntryIdx + 1;
      if next < |flow.entries| {
        currentEntryIdx := next;
      } else {
        isCompleted := true;
      }
    }

    method UseMutContext(change: ExecutionContext -> ExecutionContext)
      modifies this
      ensures View() == old(View()).(context := change(old(context)))
    {
      context := change(context);
    }

    method SetError(error: ExecutionError)
      modifies this
      ensures View() == old(View()).(context := old(context).(error := Some(error)))
    {
      UseMutContext((ctx: ExecutionContext) => ctx.(error := Some(error)));
    }

    function LookupStage(reference: StageQuery): Stage
      requires Answers(context.storage.stages, reference)
      reads this
    {
      Find(context.storage.stages, reference)
    }

    function GetCheckContext(request: CheckRequest): CheckContext
      reads this
    {
      CheckContext(request, context.pending)
    }

    method Check(ctx: CheckContext) returns (verdict: Verdict)
      requires View().Sound()
      ensures verdict == Checks.Check(View(), ctx)
    {
      var auth := FlowCheck.Authentication(flow.authentication);
      if !RunCheck(context, ctx, auth).Holds() {
        return Refuse(auth.Message());
      }
      verdict := CheckAll(ctx, flow.bindings);
      if !verdict.Pass? {
        return;
      }
      var entry := GetEntry();
      assert entry in flow.entries;
      verdict := CheckAll(ctx, entry.bindings);
    }

    method CheckAll(ctx: CheckContext, bindings: seq<FlowBinding>) returns (verdict: Verdict)
      requires BindingsResolve(context.storage, bindings)
      ensures verdict == CheckBindings(context, ctx, bindings)
    {
      for i := 0 to |bindings|
        invariant BindingsResolve(context.storage, bindings[i..])
        invariant CheckBindings(context, ctx, bindings) == CheckBindings(context, ctx, bindings[i..])
      {
        assert bindings[i] in bindings && bindings[i..][0] == bindings[i];
        assert bindings[i..][1..] == bindings[i + 1..];
        verdict := CheckBinding(context, ctx, bindings[i]);
        if !verdict.Pass? {
          return;
        }
      }
      return Pass;
    }

    method AsComponent(stage: Stage) returns (component: Outcome<FlowComponent>)
      requires View().Sound() && stage == View().Stage()
      ensures component == Requests.Component(View())
    {
      match stage.kind {
        case Deny =>
          component := Success(AccessDenied("Access denied"));
        case PromptStage(_) =>
          component := Panic(PromptComponent);
        case Identification(password, userFields) =>
          if password.Some? {
            assert GetEntry() in flow.entries;
            var _ := LookupStage(password.value);
          }
          component := Success(IdentificationForm(userFields, password.Some?));
        case UserLogin | UserLogout | UserWrite =>
          component := Success(AccessDenied("Internal error while constructing component"));
        case Password(_) =>
          component := Success(PasswordForm);
        case Consent(_) =>
          component := Panic(ConsentComponent);
      }
    }

    /** Renders the current state; handing out the final redirect removes the execution. */
    method Data(error: Option<SubmissionError>, ctx: CheckContext, executor: FlowExecutor)
      returns (outcome: Outcome<Requests.Body>)
      requires View().Sound()
      modifies executor
      ensures View() == old(View()) && executor.source == old(executor.source)
      ensures var r := Requests.Data(View(), error, ctx);
              && outcome == r.outcome
              && executor.executions ==
                 if r.invalidates then Requests.Remove(old(executor.executions), key) else old(executor.executions)
    {
      var entry := GetEntry();
      assert entry in flow.entries;
      var stage := LookupStage(entry.stage);
      var verdict := Check(ctx);
      if verdict.Unfinished? {
        return Panic(GroupBinding);
      }
      if verdict.Refuse? && !isCompleted {
        return Success(Requests.Page(FlowData(flow.title, error, None,
                                              AccessDenied("Flow does not apply to current user"))));
      }
      var component: FlowComponent;
      if isCompleted {
        match ctx.request.next {
          case Some(to) =>
            executor.InvalidateFlow(key);
            component := Redirect(to);
          case None =>
            component := ErrorMessage("Missing Redirect");
        }
      } else {
        match context.error {
          case Some(err) =>
            component := ErrorMessage(err.message);
          case None =>
            var rendered := AsComponent(stage);
            if rendered.Panic? {
              return Panic(rendered.site);
            }
            component := rendered.value;
        }
      }
      outcome := Success(Requests.Page(FlowData(flow.title, error, context.pending, component)));
    }
  }

  class FlowExecutor {
    var executions: map<FlowKey, FlowExecution>
    var source: Source

    /** Every cached execution sits under its own key and is sound. */
    ghost predicate Valid()
      reads this, executions.Values
    {
      && Intact(source)
      && forall key <- executions :: executions[key].key == key && executions[key].View().Sound()
    }

    ghost function View(): map<FlowKey, Execution>
      reads this, executions.Values
    {
      map key | key in executions :: executions[key].View()
    }

    constructor (source: Source)
      requires Intact(source)
      ensures Valid() && View() == map[] && this.source == source
    {
      executions := map[];
      this.source := source;
    }

    lemma ViewIsSound()
      requires Valid()
      ensures forall key <- View() :: View()[key].Sound() && View()[key].key == key
    {
    }

    /** A cache that differs from `before` at one key only has a view that does. */
    lemma SteppedOne(before: map<FlowKey, Execution>, key: FlowKey, execution: FlowExecution, removed: bool)
      requires Intact(source) && execution.key == key && execution.View().Sound()
      requires key in before && executions.Keys == if removed then before.Keys - {key} else before.Keys
      requires !removed ==> executions[key] == execution
      requires forall k <- executions :: k != key ==> executions[k].View() == before[k]
      requires forall k <- before :: before[k].key == k && before[k].Sound()
      ensures Valid()
      ensures View() == if removed then Requests.Remove(before, key) else before[key := execution.View()]
    {
      forall k <- executions
        ensures executions[k].key == k && executions[k].View().Sound()
      {
        if k != key {
          assert executions[k].View() == before[k];
        }
      }
    }

    method InvalidateFlow(key: FlowKey)
      modifies this
      ensures executions == Requests.Remove(old(executions), key) && source == old(source)
    {
      executions := executions - {key};
    }

    /** The cached execution, or else what starting one comes to, if that is asked for. */
    ghost function Available(key: FlowKey, start: bool, now: int): Requests.Started
      requires Valid()
      reads this, executions.Values
    {
      if key in executions then Requests.Ready(executions[key].View())
      else if start then Requests.StartExecution(source, key, now)
      else Requests.NoFlow
    }

    method GetExecution(key: FlowKey, start: bool, now: int) returns (execution: Option<FlowExecution>)
      requires Valid() && !Available(key, start, now).Endless?
      modifies this
      ensures Valid() && source == old(source)
      ensures match old(Available(key, start, now))
              case NoFlow => execution == None && executions == old(executions) && View() == old(View())
              case Ready(e) =>
                && execution.Some? && key in executions && executions[key] == execution.value
                && execution.value.View() == e && View() == old(View())[key := e]
      ensures forall e :: e in executions.Values ==> e in old(executions).Values || fresh(e)
    {
      hide Intact;
      hide Execution.Sound;
      if key in executions {
        execution := Some(executions[key]);
      } else if start {
        execution := Start(key, now);
      } else {
        execution := None;
      }
    }

    /** The cache grew by exactly the execution asked for, if there was one to start. */
    ghost predicate StartedFrom(before: map<FlowKey, FlowExecution>, key: FlowKey,
                                execution: Option<FlowExecution>, expected: Requests.Started)
      reads this, executions.Values, if execution.Some? then {execution.value} else {}
    {
      && execution.Some? == expected.Ready?
      && (execution.None? ==> executions == before)
      && (execution.Some? ==> executions == before[key := execution.value] && execution.value.View() == expected.exec)
    }

    /** Walks the flow through a recording proxy and freezes what it recorded. */
    method Start(key: FlowKey, now: int) returns (execution: Option<FlowExecution>)
      requires Valid() && key !in executions && !Requests.StartExecution(source, key, now).Endless?
      modifies this
      ensures Valid() && source == old(source)
      ensures StartedFrom(old(executions), key, execution, Requests.StartExecution(source, key, now))
      ensures execution.Some? ==> fresh(execution.value)
    {
      hide Walk;
      hide Freeze;
      hide EntriesEnd;
      hide Covers;
      var found := Lookup(source.flows, key.flow);
      if found.None? {
        return None;
      }
      var flow := found.value;
      if flow.entries == [] {
        return None;
      }
      StoredFlowResolves(source, key.flow);
      var storage := FreezeFor(source, flow);
      var context := ExecutionContext(key.session, now, None, storage, None);
      var created := new FlowExecution(flow, key, context);
      Requests.StartIsSound(source, key, now);
      executions := executions[key := created];
      execution := Some(created);
    }
  }
}
