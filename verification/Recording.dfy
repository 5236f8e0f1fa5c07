/** The walk itself: lookups through four recording proxies, then the export into a frozen store. */
module Recording {
  import opened Model
  import opened Tables
  import opened Closure

  lemma PolicyNodesSnoc(src: Source, bindings: seq<FlowBinding>, b: FlowBinding)
    requires BindingsResolve(src, bindings + [b])
    ensures BindingsResolve(src, bindings) && (b.kind.PolicyRef? ==> Answers(src.policies, b.kind.policy))
    ensures PolicyNodes(src, bindings + [b]) == PolicyNodes(src, bindings) +
              (if b.kind.PolicyRef? then {PolicyNode(src.policies.query[b.kind.policy])} else {})
  {
    assert b in bindings + [b];
    assert forall x <- bindings :: x in bindings + [b];
  }

  lemma PromptNodesSnoc(src: Source, bindings: seq<PromptBinding>, b: PromptBinding)
    requires PromptsResolve(src, bindings) && Answers(src.prompts, b.prompt)
    ensures PromptsResolve(src, bindings + [b])
    ensures PromptNodes(src, bindings + [b]) ==
            PromptNodes(src, bindings) + {PromptNode(src.prompts.query[b.prompt])}
  {
  }

  lemma WalkEntriesSnoc(src: Source, entries: seq<FlowEntry>, e: FlowEntry)
    requires Intact(src) && EntriesWalkable(src, entries + [e])
    ensures EntriesWalkable(src, entries) && EntryWalkable(src, e)
    ensures WalkEntries(src, entries + [e]) == WalkEntries(src, entries) + WalkEntry(src, e)
  {
    assert e in entries + [e];
    assert forall x <- entries :: x in entries + [e];
  }

  lemma FlowAnswersUid(src: Source, flow: Flow)
    requires Indexed(src) && flow.uid in src.flows.data && src.flows.data[flow.uid] == flow
    ensures Answers(src.flows, FlowUid(flow.uid)) && Find(src.flows, FlowUid(flow.uid)) == flow
  {
    assert ItemIndexed(FLOW_SCHEMA, src.flows, flow.uid);
    assert FlowUid(flow.uid) in FLOW_SCHEMA.queries(flow);
  }

  /** Recording one more node grows the ids of its own kind and no others. */
  lemma IdsWith(nodes: set<Node>, n: Node)
    ensures FlowIds(nodes + {n}) == FlowIds(nodes) + if n.FlowNode? then {n.id} else {}
    ensures StageIds(nodes + {n}) == StageIds(nodes) + if n.StageNode? then {n.id} else {}
    ensures PolicyIds(nodes + {n}) == PolicyIds(nodes) + if n.PolicyNode? then {n.id} else {}
    ensures PromptIds(nodes + {n}) == PromptIds(nodes) + if n.PromptNode? then {n.id} else {}
  {
  }

  class ProxiedStorage {
    ghost const source: Source
    const flows: ProxyStorage<FlowQuery, Flow>
    const stages: ProxyStorage<StageQuery, Stage>
    const policies: ProxyStorage<PolicyQuery, Policy>
    const prompts: ProxyStorage<PromptQuery, Prompt>

    /** Everything recorded so far. */
    ghost var recorded: set<Node>

    ghost const Repr: set<object>

    ghost predicate Valid()
      reads this, Repr
    {
      && this in Repr && flows in Repr && stages in Repr && policies in Repr && prompts in Repr
      && (flows as object) != stages && (flows as object) != policies && (flows as object) != prompts
      && (stages as object) != policies && (stages as object) != prompts && (policies as object) != prompts
      && flows.Valid() && flows.schema == FLOW_SCHEMA && flows.source == source.flows
      && stages.Valid() && stages.schema == STAGE_SCHEMA && stages.source == source.stages
      && policies.Valid() && policies.schema == POLICY_SCHEMA && policies.source == source.policies
      && prompts.Valid() && prompts.schema == PROMPT_SCHEMA && prompts.source == source.prompts
      && FlowIds(recorded) == flows.Recorded()
      && StageIds(recorded) == stages.Recorded()
      && PolicyIds(recorded) == policies.Recorded()
      && PromptIds(recorded) == prompts.Recorded()
    }

    constructor (source: Source)
      ensures Valid() && fresh(Repr) && this.source == source
      ensures recorded == {}
    {
      this.source := source;
      flows := new ProxyStorage(FLOW_SCHEMA, source.flows);
      stages := new ProxyStorage(STAGE_SCHEMA, source.stages);
      policies := new ProxyStorage(POLICY_SCHEMA, source.policies);
      prompts := new ProxyStorage(PROMPT_SCHEMA, source.prompts);
      recorded := {};
      Repr := {this, flows, stages, policies, prompts};
    }

    method LookupFlow(q: FlowQuery) returns (flow: Flow)
      requires Valid() && Indexed(source) && Answers(source.flows, q)
      modifies Repr
      ensures Valid() && flow == Find(source.flows, q)
      ensures recorded == old(recorded) + {FlowNode(flow.uid)}
    {
      var found := flows.FindOptional(q);
      flow := found.value;
      IdsWith(recorded, FlowNode(flow.uid));
      recorded := recorded + {FlowNode(flow.uid)};
    }

    method LookupStage(q: StageQuery) returns (stage: Stage)
      requires Valid() && Indexed(source) && Answers(source.stages, q)
      modifies Repr
      ensures Valid() && stage == Find(source.stages, q)
      ensures recorded == old(recorded) + {StageNode(stage.uid)}
    {
      var found := stages.FindOptional(q);
      stage := found.value;
      IdsWith(recorded, StageNode(stage.uid));
      recorded := recorded + {StageNode(stage.uid)};
    }

    method LookupPolicy(q: PolicyQuery)
      requires Valid() && Indexed(source) && Answers(source.policies, q)
      modifies Repr
      ensures Valid()
      ensures recorded == old(recorded) + {PolicyNode(source.policies.query[q])}
    {
      var found := policies.FindOptional(q);
      assert ItemIndexed(POLICY_SCHEMA, source.policies, source.policies.query[q]);
      IdsWith(recorded, PolicyNode(found.value.uid));
      recorded := recorded + {PolicyNode(found.value.uid)};
    }

    method LookupPrompt(q: PromptQuery)
      requires Valid() && Indexed(source) && Answers(source.prompts, q)
      modifies Repr
      ensures Valid()
      ensures recorded == old(recorded) + {PromptNode(source.prompts.query[q])}
    {
      var found := prompts.FindOptional(q);
      assert ItemIndexed(PROMPT_SCHEMA, source.prompts, source.prompts.query[q]);
      IdsWith(recorded, PromptNode(found.value.uid));
      recorded := recorded + {PromptNode(found.value.uid)};
    }

    /** Enabled or not, every policy a binding names is recorded. */
    method LookupPolicies(bindings: seq<FlowBinding>)
      requires Valid() && Indexed(source) && BindingsResolve(source, bindings)
      modifies Repr
      ensures Valid()
      ensures recorded == old(recorded) + PolicyNodes(source, bindings)
    {
      for i := 0 to |bindings|
        invariant Valid()
        invariant BindingsResolve(source, bindings[..i])
        invariant recorded == old(recorded) + PolicyNodes(source, bindings[..i])
      {
        assert bindings[..i + 1] == bindings[..i] + [bindings[i]];
        PolicyNodesSnoc(source, bindings[..i], bindings[i]);
        if bindings[i].kind.PolicyRef? {
          LookupPolicy(bindings[i].kind.policy);
        }
      }
      assert bindings[..|bindings|] == bindings;
    }

    method LookupPrompts(bindings: seq<PromptBinding>)
      requires Valid() && Indexed(source) && PromptsResolve(source, bindings)
      modifies Repr
      ensures Valid()
      ensures recorded == old(recorded) + PromptNodes(source, bindings)
    {
      for i := 0 to |bindings|
        invariant Valid()
        invariant PromptsResolve(source, bindings[..i])
        invariant recorded == old(recorded) + PromptNodes(source, bindings[..i])
      {
        assert bindings[..i + 1] == bindings[..i] + [bindings[i]];
        PromptNodesSnoc(source, bindings[..i], bindings[i]);
        LookupPrompt(bindings[i].prompt);
      }
      assert bindings[..|bindings|] == bindings;
    }

    method ReverseLookupStage(stage: Stage, ghost depth: nat)
      requires Valid() && Walkable(source, stage, depth)
      modifies Repr
      ensures Valid()
      ensures recorded == old(recorded) + WalkStage(source, stage, depth)
      decreases depth
    {
      WalkableStep(source, stage, depth);
      match stage.kind {
        case PromptStage(bindings) =>
          LookupPrompts(bindings);
        case Identification(Some(password), _) =>
          var next := LookupStage(password);
          ReverseLookupStage(next, depth - 1);
        case _ =>
      }
    }

    method ReverseLookupEntry(entry: FlowEntry)
      requires Valid() && Intact(source) && EntryWalkable(source, entry)
      modifies Repr
      ensures Valid()
      ensures recorded == old(recorded) + WalkEntry(source, entry)
    {
      LookupPolicies(entry.bindings);
      var stage := LookupStage(entry.stage);
      StoredStage(source, entry.stage);
      ReverseLookupStage(stage, |source.stages.data|);
    }

    method ReverseLookupEntries(entries: seq<FlowEntry>)
      requires Valid() && Intact(source) && EntriesWalkable(source, entries)
      modifies Repr
      ensures Valid()
      ensures recorded == old(recorded) + WalkEntries(source, entries)
    {
      hide Intact;
      for i := 0 to |entries|
        invariant Valid()
        invariant EntriesWalkable(source, entries[..i])
        invariant recorded == old(recorded) + WalkEntries(source, entries[..i])
      {
        assert entries[..i + 1] == entries[..i] + [entries[i]];
        WalkEntriesSnoc(source, entries[..i], entries[i]);
        ReverseLookupEntry(entries[i]);
      }
      assert entries[..|entries|] == entries;
    }

    /** Records exactly the walk of `flow`, and never misses a reference on the way. */
    method ReverseLookup(flow: Flow)
      requires Valid() && Intact(source) && FlowWalkable(source, flow)
      requires flow.uid in source.flows.data && source.flows.data[flow.uid] == flow
      modifies Repr
      ensures Valid()
      ensures recorded == old(recorded) + Walk(source, flow)
    {
      FlowAnswersUid(source, flow);
      var _ := LookupFlow(FlowUid(flow.uid));
      LookupPolicies(flow.bindings);
      ReverseLookupEntries(flow.entries);
    }

    /** Turns what was recorded into a read-only store. */
    method CreateFreezed() returns (frozen: FreezedStorage)
      requires Valid()
      modifies Repr
      ensures frozen == Freeze(source, old(recorded))
    {
      var f := flows.ExportData();
      var s := stages.ExportData();
      var p := policies.ExportData();
      var r := prompts.ExportData();
      frozen := Source(f, s, p, r);
    }
  }

  /** Walks `flow` through a new proxy of `source` and freezes what the proxy recorded. */
  method FreezeFor(source: Source, flow: Flow) returns (frozen: FreezedStorage)
    requires Intact(source) && FlowWalkable(source, flow)
    requires flow.uid in source.flows.data && source.flows.data[flow.uid] == flow
    ensures frozen == Freeze(source, Walk(source, flow))
  {
    var proxied := new ProxiedStorage(source);
    proxied.ReverseLookup(flow);
    assert proxied.recorded == Walk(source, flow);
    frozen := proxied.CreateFreezed();
  }
}
