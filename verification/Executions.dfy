/** The state of one run of a flow: a cursor over the flow's entries and a context. */
module Executions {
  import opened Wrappers
  import opened Model
  import opened Tables
  import opened Closure

  datatype FlowKey = FlowKey(session: string, flow: FlowQuery)

  datatype ExecutionError = ExecutionError(stage: Option<StageQuery>, message: string)

  datatype ExecutionContext = ExecutionContext(
    sessionId: string,
    startTime: int,
    pending: Option<PendingUser>,
    storage: FreezedStorage,
    error: Option<ExecutionError>)

  datatype Execution = Execution(
    flow: Flow,
    key: FlowKey,
    context: ExecutionContext,
    cursor: nat,
    completed: bool)
  {
    /** What every execution keeps from its start on. */
    predicate Sound() {
      && cursor < |flow.entries|
      && (completed ==> cursor == |flow.entries| - 1)
      && Covers(flow, context.storage)
      && context.sessionId == key.session
    }

    function Entry(): FlowEntry
      requires cursor < |flow.entries|
    {
      flow.entries[cursor]
    }

    function Stage(): Stage
      requires Sound()
    {
      assert Entry() in flow.entries;
      Find(context.storage.stages, Entry().stage)
    }

    function EntriesLeft(): nat
      requires cursor < |flow.entries|
    {
      if completed then 0 else |flow.entries| - cursor
    }
  }

  /** A new execution: at the first entry, nobody pending. */
  function Start(flow: Flow, key: FlowKey, storage: FreezedStorage, now: int): Execution {
    Execution(flow, key, ExecutionContext(key.session, now, None, storage, None), 0, false)
  }

  function Advance(e: Execution): Execution {
    if e.cursor + 1 < |e.flow.entries| then e.(cursor := e.cursor + 1) else e.(completed := true)
  }

  function AdvanceTimes(e: Execution, n: nat): Execution {
    if n == 0 then e else Advance(AdvanceTimes(e, n - 1))
  }

  function Min(a: int, b: int): int {
    if a <= b then a else b
  }

  /** `n` completions from anywhere: the cursor stops at the last entry, completion is permanent. */
  lemma {:induction false} AdvanceTimesCursor(e: Execution, n: nat)
    requires e.cursor < |e.flow.entries|
    ensures var r := AdvanceTimes(e, n);
            && r == e.(cursor := r.cursor, completed := r.completed)
            && r.cursor == Min(e.cursor + n, |e.flow.entries| - 1)
            && (r.completed <==> e.completed || e.cursor + n >= |e.flow.entries|)
  {
    if n > 0 {
      AdvanceTimesCursor(e, n - 1);
    }
  }

  lemma AdvanceKeepsSound(e: Execution)
    requires e.Sound()
    ensures Advance(e).Sound()
    ensures !e.completed ==> Advance(e).EntriesLeft() == e.EntriesLeft() - 1
    ensures e.completed ==> Advance(e) == e
  {
  }

  // Interleaved requests. Each request is a sequence of these critical sections, and sections of
  // different requests may come in any order.

  datatype Section = ReadEntry | CompleteCurrent | UseMutContext(change: ExecutionContext -> ExecutionContext)

  function Interleave(e: Execution, sections: seq<Section>): Execution {
    if sections == [] then e
    else
      var before := Interleave(e, sections[..|sections| - 1]);
      match sections[|sections| - 1]
      case ReadEntry => before
      case CompleteCurrent => Advance(before)
      case UseMutContext(change) => before.(context := change(before.context))
  }

  function Completions(sections: seq<Section>): nat {
    if sections == [] then 0
    else Completions(sections[..|sections| - 1]) + if sections[|sections| - 1].CompleteCurrent? then 1 else 0
  }

  /**
   In any interleaving the number of completions alone decides the cursor and the completed flag, and
   the current entry exists throughout.
   */
  lemma {:induction false} InterleavedCursor(flow: Flow, key: FlowKey, storage: FreezedStorage, now: int,
                                             sections: seq<Section>)
    requires flow.entries != []
    ensures var e := Interleave(Start(flow, key, storage, now), sections);
            var n := Completions(sections);
            && e.flow == flow && e.key == key
            && e.cursor == Min(n, |flow.entries| - 1) < |flow.entries|
            && (e.completed <==> n >= |flow.entries|)
  {
    if sections != [] {
      InterleavedCursor(flow, key, storage, now, sections[..|sections| - 1]);
    }
  }

  /** The context that the changes among the sections make, one after another from the first on. */
  function ContextAfter(context: ExecutionContext, sections: seq<Section>): ExecutionContext
    decreases |sections|
  {
    if sections == [] then context
    else ContextAfter(if sections[0].UseMutContext? then sections[0].change(context) else context, sections[1..])
  }

  lemma {:induction false} ContextAfterLast(context: ExecutionContext, sections: seq<Section>, last: Section)
    ensures var before := ContextAfter(context, sections);
            ContextAfter(context, sections + [last]) == if last.UseMutContext? then last.change(before) else before
    decreases |sections|
  {
    if sections != [] {
      var next := if sections[0].UseMutContext? then sections[0].change(context) else context;
      assert (sections + [last])[1..] == sections[1..] + [last];
      ContextAfterLast(next, sections[1..], last);
    }
  }

  /** And only the changes, in their order, decide the context. */
  lemma {:induction false} InterleavedContext(e: Execution, sections: seq<Section>)
    ensures Interleave(e, sections).context == ContextAfter(e.context, sections)
  {
    if sections != [] {
      var last := |sections| - 1;
      InterleavedContext(e, sections[..last]);
      ContextAfterLast(e.context, sections[..last], sections[last]);
      assert sections[..last] + [sections[last]] == sections;
    }
  }
}
