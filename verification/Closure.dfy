/**
 What a flow refers to, directly or through its stages; the walk that records all of it through a
 proxy; and the frozen store an execution runs on.
 */
module Closure {
  import opened Wrappers
  import opened Model
  import opened Tables

  const FLOW_SCHEMA: Schema<Flow, FlowQuery> :=
    Schema((f: Flow) => f.uid, (f: Flow) => [FlowUid(f.uid), FlowSlug(f.slug)])

  const STAGE_SCHEMA: Schema<Stage, StageQuery> :=
    Schema((s: Stage) => s.uid, (s: Stage) => [StageUid(s.uid), StageSlug(s.slug)])

  const POLICY_SCHEMA: Schema<Policy, PolicyQuery> :=
    Schema((p: Policy) => p.uid, (p: Policy) => [PolicyUid(p.uid), PolicySlug(p.slug)])

  const PROMPT_SCHEMA: Schema<Prompt, PromptQuery> :=
    Schema((p: Prompt) => p.uid, (p: Prompt) => [PromptUid(p.uid)])

  /** One snapshot of the stored configuration. */
  datatype Source = Source(
    flows: Table<FlowQuery, Flow>,
    stages: Table<StageQuery, Stage>,
    policies: Table<PolicyQuery, Policy>,
    prompts: Table<PromptQuery, Prompt>)

  /** The same four tables, cut down to what one flow needs. */
  type FreezedStorage = Source

  ghost predicate Indexed(src: Source) {
    && WellIndexed(FLOW_SCHEMA, src.flows)
    && WellIndexed(STAGE_SCHEMA, src.stages)
    && WellIndexed(POLICY_SCHEMA, src.policies)
    && WellIndexed(PROMPT_SCHEMA, src.prompts)
  }

  // A query finds an item exactly if it is stored and the query is its id or its slug

  lemma FlowFoundIff(src: Source, q: FlowQuery, flow: Flow)
    requires Indexed(src)
    ensures Lookup(src.flows, q) == Some(flow) <==>
            && flow.uid in src.flows.data && src.flows.data[flow.uid] == flow
            && match q
               case FlowUid(uid) => uid == flow.uid
               case FlowSlug(slug) => slug == flow.slug
  {
    FoundIff(FLOW_SCHEMA, src.flows, q, flow);
  }

  lemma StageFoundIff(src: Source, q: StageQuery, stage: Stage)
    requires Indexed(src)
    ensures Lookup(src.stages, q) == Some(stage) <==>
            && stage.uid in src.stages.data && src.stages.data[stage.uid] == stage
            && match q
               case StageUid(uid) => uid == stage.uid
               case StageSlug(slug) => slug == stage.slug
  {
    FoundIff(STAGE_SCHEMA, src.stages, q, stage);
  }

  lemma PolicyFoundIff(src: Source, q: PolicyQuery, policy: Policy)
    requires Indexed(src)
    ensures Lookup(src.policies, q) == Some(policy) <==>
            && policy.uid in src.policies.data && src.policies.data[policy.uid] == policy
            && match q
               case PolicyUid(uid) => uid == policy.uid
               case PolicySlug(slug) => slug == policy.slug
  {
    FoundIff(POLICY_SCHEMA, src.policies, q, policy);
  }

  lemma PromptFoundIff(src: Source, q: PromptQuery, prompt: Prompt)
    requires Indexed(src)
    ensures Lookup(src.prompts, q) == Some(prompt) <==>
            prompt.uid in src.prompts.data && src.prompts.data[prompt.uid] == prompt && q.uid == prompt.uid
  {
    FoundIff(PROMPT_SCHEMA, src.prompts, q, prompt);
  }

  // Referential integrity

  predicate BindingsResolve(src: Source, bindings: seq<FlowBinding>) {
    forall b <- bindings :: b.kind.PolicyRef? ==> Answers(src.policies, b.kind.policy)
  }

  predicate EntryResolves(src: Source, entry: FlowEntry) {
    BindingsResolve(src, entry.bindings) && Answers(src.stages, entry.stage)
  }

  predicate EntriesResolve(src: Source, entries: seq<FlowEntry>) {
    forall e <- entries :: EntryResolves(src, e)
  }

  predicate FlowResolves(src: Source, flow: Flow) {
    BindingsResolve(src, flow.bindings) && EntriesResolve(src, flow.entries)
  }

  predicate PromptsResolve(src: Source, bindings: seq<PromptBinding>) {
    forall i | 0 <= i < |bindings| :: Answers(src.prompts, bindings[i].prompt)
  }

  predicate StageResolves(src: Source, stage: Stage) {
    match stage.kind
    case PromptStage(bindings) => PromptsResolve(src, bindings)
    case Identification(Some(password), _) => Answers(src.stages, password)
    case _ => true
  }

  predicate FlowIntact(src: Source, id: int) {
    id in src.flows.data && FlowResolves(src, src.flows.data[id])
  }

  predicate StageIntact(src: Source, id: int) {
    id in src.stages.data && StageResolves(src, src.stages.data[id])
  }

  ghost predicate Intact(src: Source) {
    && Indexed(src)
    && (forall id {:trigger FlowIntact(src, id)} | id in src.flows.data :: FlowIntact(src, id))
    && (forall id {:trigger StageIntact(src, id)} | id in src.stages.data :: StageIntact(src, id))
  }

  // Password edges between stages

  ghost function PasswordOf(src: Source, id: int): Option<int> {
    if id !in src.stages.data then None
    else match src.stages.data[id].kind
      case Identification(Some(password), _) =>
        if password in src.stages.query then Some(src.stages.query[password]) else None
      case _ => None
  }

  /** The stage `n` password edges away from `id`, if the chain is that long. */
  ghost function Chain(src: Source, id: int, n: nat): Option<int>
    decreases n
  {
    if n == 0 then Some(id)
    else match PasswordOf(src, id)
      case Some(next) => Chain(src, next, n - 1)
      case None => None
  }

  /** Following `n` password edges from `id` leads back to `id`. */
  ghost predicate Cycle(src: Source, id: int, n: nat) {
    n > 0 && Chain(src, id, n) == Some(id)
  }

  /** Following password edges from `id` comes to an end. */
  ghost predicate Ends(src: Source, id: int) {
    Chain(src, id, |src.stages.data|).None?
  }

  // What a walk needs: references that lead somewhere, and password chains that end

  ghost predicate EntryEnds(src: Source, entry: FlowEntry) {
    Answers(src.stages, entry.stage) && Ends(src, Find(src.stages, entry.stage).uid)
  }

  ghost predicate EntriesEnd(src: Source, entries: seq<FlowEntry>) {
    forall e {:trigger EntryEnds(src, e)} | e in entries :: EntryEnds(src, e)
  }

  ghost predicate EntryWalkable(src: Source, entry: FlowEntry) {
    EntryResolves(src, entry) && EntryEnds(src, entry)
  }

  ghost predicate EntriesWalkable(src: Source, entries: seq<FlowEntry>) {
    EntriesResolve(src, entries) && EntriesEnd(src, entries)
  }

  ghost predicate FlowWalkable(src: Source, flow: Flow) {
    FlowResolves(src, flow) && EntriesEnd(src, flow.entries)
  }

  lemma StoredFlowResolves(src: Source, q: FlowQuery)
    requires Intact(src) && Answers(src.flows, q)
    ensures var flow := Find(src.flows, q);
            flow.uid in src.flows.data && src.flows.data[flow.uid] == flow && FlowResolves(src, flow)
  {
    var id := src.flows.query[q];
    assert QueryIndexed(FLOW_SCHEMA, src.flows, q);
    assert ItemIndexed(FLOW_SCHEMA, src.flows, id);
    assert FlowIntact(src, id);
  }

  lemma {:induction false} ChainSplits(src: Source, id: int, m: nat, n: nat)
    requires Chain(src, id, m).Some?
    ensures Chain(src, id, m + n) == Chain(src, Chain(src, id, m).value, n)
    decreases m
  {
    if m > 0 {
      ChainSplits(src, PasswordOf(src, id).value, m - 1, n);
    }
  }

  lemma {:induction false} ChainPrefix(src: Source, id: int, m: nat, n: nat)
    requires m <= n && Chain(src, id, n).Some?
    ensures Chain(src, id, m).Some?
    decreases m
  {
    if m > 0 {
      ChainPrefix(src, PasswordOf(src, id).value, m - 1, n - 1);
    }
  }

  lemma {:induction false} ChainStaysInStore(src: Source, id: int, n: nat)
    requires Intact(src) && id in src.stages.data && Chain(src, id, n).Some?
    ensures Chain(src, id, n).value in src.stages.data
    decreases n
  {
    if n > 0 {
      var next := PasswordOf(src, id).value;
      assert StageIntact(src, id);
      ChainStaysInStore(src, next, n - 1);
    }
  }

  /** Going round a cycle often enough gives a chain from its start to its start, as long as one likes. */
  lemma {:induction false} CycleRepeats(src: Source, id: int, n: nat, k: nat) returns (far: nat)
    requires Cycle(src, id, n)
    ensures far >= k && Chain(src, id, far) == Some(id)
  {
    far := 0;
    if k > 0 {
      far := CycleRepeats(src, id, n, k - 1);
      ChainSplits(src, id, far, n);
      far := far + n;
    }
  }

  /** Pigeonhole: distinct elements of a set are no more than the set has. */
  lemma {:induction false} DistinctFit(s: seq<int>, within: set<int>)
    requires forall i, j | 0 <= i < j < |s| :: s[i] != s[j]
    requires forall i | 0 <= i < |s| :: s[i] in within
    ensures |s| <= |within|
  {
    if s != [] {
      var last := s[|s| - 1];
      var front := s[..|s| - 1];
      forall i | 0 <= i < |front|
        ensures front[i] in within - {last}
      {
        assert front[i] == s[i];
      }
      DistinctFit(front, within - {last});
      assert |within - {last}| == |within| - 1;
    }
  }

  /** Some stage that password edges lead to from `id` lies on a cycle. */
  ghost predicate LeadsToCycle(src: Source, id: int) {
    exists m: nat, n: nat {:trigger Cycle(src, Chain(src, id, m).value, n)} ::
      Chain(src, id, m).Some? && Cycle(src, Chain(src, id, m).value, n)
  }

  /** A chain as long as there are stages visits some stage twice. */
  lemma LongChainLeadsToCycle(src: Source, id: int)
    requires Intact(src) && id in src.stages.data && !Ends(src, id)
    ensures LeadsToCycle(src, id)
  {
    var size := |src.stages.data|;
    if !LeadsToCycle(src, id) {
      forall i | 0 <= i <= size
        ensures Chain(src, id, i).Some? && Chain(src, id, i).value in src.stages.data
      {
        ChainPrefix(src, id, i, size);
        ChainStaysInStore(src, id, i);
      }
      var visited := seq(size + 1, i requires 0 <= i <= size => Chain(src, id, i).value);
      forall i, j | 0 <= i < j < |visited|
        ensures visited[i] != visited[j]
      {
        ChainSplits(src, id, i, j - i);
        assert !Cycle(src, Chain(src, id, i).value, j - i);
      }
      DistinctFit(visited, src.stages.data.Keys);
      assert false;
    }
  }

  /** A chain that gets onto a cycle is as long as one likes. */
  lemma CycleNeverEnds(src: Source, id: int, k: nat)
    requires LeadsToCycle(src, id)
    ensures Chain(src, id, k).Some?
  {
    var m: nat, n: nat :| Chain(src, id, m).Some? && Cycle(src, Chain(src, id, m).value, n);
    var on := Chain(src, id, m).value;
    var far := CycleRepeats(src, on, n, k);
    ChainSplits(src, id, m, far);
    ChainPrefix(src, id, k, m + far);
  }

  /** The walk of a stage ends at all only if it ends within as many steps as there are stages. */
  lemma ChainEndsIffNoCycle(src: Source, id: int)
    requires Intact(src) && id in src.stages.data
    ensures Ends(src, id) <==> !LeadsToCycle(src, id)
    ensures Ends(src, id) <==> exists n: nat :: Chain(src, id, n).None?
  {
    if LeadsToCycle(src, id) {
      forall n: nat
        ensures Chain(src, id, n).Some?
      {
        CycleNeverEnds(src, id, n);
      }
    } else {
      if !Ends(src, id) {
        LongChainLeadsToCycle(src, id);
      }
      assert Chain(src, id, |src.stages.data|).None?;
    }
  }

  // The walk, as the set of data it visits

  datatype Node = FlowNode(id: int) | StageNode(id: int) | PolicyNode(id: int) | PromptNode(id: int)

  ghost function PolicyNodes(src: Source, bindings: seq<FlowBinding>): set<Node>
    requires BindingsResolve(src, bindings)
  {
    set b | b in bindings && b.kind.PolicyRef? :: PolicyNode(src.policies.query[b.kind.policy])
  }

  ghost function PromptNodes(src: Source, bindings: seq<PromptBinding>): set<Node>
    requires PromptsResolve(src, bindings)
  {
    set b | b in bindings :: PromptNode(src.prompts.query[b.prompt])
  }

  /** `stage` is stored, and its password chain has fewer than `depth` further stages. */
  ghost predicate Walkable(src: Source, stage: Stage, depth: nat) {
    && Intact(src)
    && stage.uid in src.stages.data && src.stages.data[stage.uid] == stage
    && Chain(src, stage.uid, depth).None?
  }

  lemma WalkableStep(src: Source, stage: Stage, depth: nat)
    requires Walkable(src, stage, depth)
    ensures StageResolves(src, stage)
    ensures stage.kind.Identification? && stage.kind.password.Some? ==>
              var password := stage.kind.password.value;
              && Answers(src.stages, password) && depth > 0
              && PasswordOf(src, stage.uid) == Some(Find(src.stages, password).uid)
              && Walkable(src, Find(src.stages, password), depth - 1)
  {
    assert StageIntact(src, stage.uid);
    if stage.kind.Identification? && stage.kind.password.Some? {
      StoredStage(src, stage.kind.password.value);
    }
  }

  /** A stage found by a query is stored under its own id. */
  lemma StoredStage(src: Source, q: StageQuery)
    requires Indexed(src) && Answers(src.stages, q)
    ensures var stage := Find(src.stages, q);
            && stage.uid == src.stages.query[q] && stage.uid in src.stages.data
            && src.stages.data[stage.uid] == stage
  {
    assert QueryIndexed(STAGE_SCHEMA, src.stages, q);
    assert ItemIndexed(STAGE_SCHEMA, src.stages, src.stages.query[q]);
  }

  ghost function WalkStage(src: Source, stage: Stage, depth: nat): set<Node>
    requires Walkable(src, stage, depth)
    decreases depth
  {
    WalkableStep(src, stage, depth);
    match stage.kind
    case PromptStage(bindings) => PromptNodes(src, bindings)
    case Identification(Some(password), _) =>
      var next := Find(src.stages, password);
      {StageNode(next.uid)} + WalkStage(src, next, depth - 1)
    case _ => {}
  }

  ghost function WalkEntry(src: Source, entry: FlowEntry): set<Node>
    requires Intact(src) && EntryWalkable(src, entry)
  {
    var stage := Find(src.stages, entry.stage);
    StoredStage(src, entry.stage);
    PolicyNodes(src, entry.bindings) + {StageNode(stage.uid)} + WalkStage(src, stage, |src.stages.data|)
  }

  ghost function WalkEntries(src: Source, entries: seq<FlowEntry>): set<Node>
    requires Intact(src) && EntriesWalkable(src, entries)
  {
    set e, n | e in entries && n in WalkEntry(src, e) :: n
  }

  ghost function Walk(src: Source, flow: Flow): set<Node>
    requires Intact(src) && FlowWalkable(src, flow)
  {
    {FlowNode(flow.uid)} + PolicyNodes(src, flow.bindings) + WalkEntries(src, flow.entries)
  }

  // Reachability, independently of any walk

  ghost predicate HasBinding(flow: Flow, b: FlowBinding) {
    b in flow.bindings || exists e :: e in flow.entries && b in e.bindings
  }

  /** One datum names another. */
  ghost predicate Edge(src: Source, a: Node, b: Node) {
    match a
    case FlowNode(f) =>
      && f in src.flows.data
      && (match b
          case PolicyNode(p) =>
            exists x :: HasBinding(src.flows.data[f], x) && x.kind.PolicyRef? &&
                        x.kind.policy in src.policies.query && src.policies.query[x.kind.policy] == p
          case StageNode(s) =>
            exists e :: e in src.flows.data[f].entries &&
                        e.stage in src.stages.query && src.stages.query[e.stage] == s
          case _ => false)
    case StageNode(s) =>
      && s in src.stages.data
      && (match b
          case PromptNode(p) =>
            && src.stages.data[s].kind.PromptStage?
            && exists x :: x in src.stages.data[s].kind.bindings &&
                           x.prompt in src.prompts.query && src.prompts.query[x.prompt] == p
          case StageNode(t) => PasswordOf(src, s) == Some(t)
          case _ => false)
    case _ => false
  }

  ghost predicate Path(src: Source, p: seq<Node>) {
    && p != []
    && forall i | 0 < i < |p| :: Edge(src, p[i - 1], p[i])
  }

  ghost predicate Reachable(src: Source, a: Node, b: Node) {
    exists p :: Path(src, p) && p[0] == a && p[|p| - 1] == b
  }

  lemma ReachSelf(src: Source, a: Node)
    ensures Reachable(src, a, a)
  {
    assert Path(src, [a]);
  }

  lemma ReachFurther(src: Source, a: Node, b: Node, c: Node)
    requires Reachable(src, a, b) && Edge(src, b, c)
    ensures Reachable(src, a, c)
  {
    var p :| Path(src, p) && p[0] == a && p[|p| - 1] == b;
    var q := p + [c];
    assert Path(src, q) && q[0] == a && q[|q| - 1] == c;
  }

  /** A set closed under edges holds whatever its members reach. */
  lemma {:induction false} ClosedHoldsPath(src: Source, closed: set<Node>, p: seq<Node>)
    requires Path(src, p) && p[0] in closed
    requires forall a, b | a in closed && Edge(src, a, b) :: b in closed
    ensures p[|p| - 1] in closed
  {
    if |p| > 1 {
      var q := p[..|p| - 1];
      assert Path(src, q);
      ClosedHoldsPath(src, closed, q);
      assert Edge(src, p[|p| - 2], p[|p| - 1]);
    }
  }

  lemma {:induction false} WalkStageSound(src: Source, root: Node, stage: Stage, depth: nat)
    requires Walkable(src, stage, depth)
    requires Reachable(src, root, StageNode(stage.uid))
    ensures forall n <- WalkStage(src, stage, depth) :: Reachable(src, root, n)
    decreases depth
  {
    WalkableStep(src, stage, depth);
    match stage.kind
    case PromptStage(bindings) =>
      forall n <- PromptNodes(src, bindings)
        ensures Reachable(src, root, n)
      {
        ReachFurther(src, root, StageNode(stage.uid), n);
      }
    case Identification(Some(password), _) =>
      var next := Find(src.stages, password);
      ReachFurther(src, root, StageNode(stage.uid), StageNode(next.uid));
      WalkStageSound(src, root, next, depth - 1);
    case _ =>
  }

  lemma {:induction false} WalkStageClosed(src: Source, stage: Stage, depth: nat)
    requires Walkable(src, stage, depth)
    ensures forall a, b | a in {StageNode(stage.uid)} + WalkStage(src, stage, depth) && Edge(src, a, b) ::
              b in WalkStage(src, stage, depth)
    decreases depth
  {
    WalkableStep(src, stage, depth);
    match stage.kind
    case Identification(Some(password), _) =>
      WalkStageClosed(src, Find(src.stages, password), depth - 1);
    case _ =>
  }

  lemma WalkEntrySound(src: Source, flow: Flow, e: FlowEntry, n: Node)
    requires Intact(src) && flow.uid in src.flows.data && src.flows.data[flow.uid] == flow
    requires e in flow.entries && EntryWalkable(src, e) && n in WalkEntry(src, e)
    ensures Reachable(src, FlowNode(flow.uid), n)
  {
    var root, stage := FlowNode(flow.uid), Find(src.stages, e.stage);
    ReachSelf(src, root);
    StoredStage(src, e.stage);
    ReachFurther(src, root, root, StageNode(stage.uid));
    if n in PolicyNodes(src, e.bindings) {
      var b :| b in e.bindings && b.kind.PolicyRef? && n == PolicyNode(src.policies.query[b.kind.policy]);
      assert HasBinding(flow, b);
      ReachFurther(src, root, root, n);
    } else {
      WalkStageSound(src, root, stage, |src.stages.data|);
    }
  }

  lemma WalkSound(src: Source, flow: Flow, n: Node)
    requires Intact(src) && flow.uid in src.flows.data && src.flows.data[flow.uid] == flow
    requires FlowWalkable(src, flow) && n in Walk(src, flow)
    ensures Reachable(src, FlowNode(flow.uid), n)
  {
    hide Reachable;
    hide WalkEntry;
    hide Intact;
    var root := FlowNode(flow.uid);
    ReachSelf(src, root);
    if n in PolicyNodes(src, flow.bindings) {
      var b :| b in flow.bindings && b.kind.PolicyRef? && n == PolicyNode(src.policies.query[b.kind.policy]);
      assert HasBinding(flow, b);
      ReachFurther(src, root, root, n);
    } else if n in WalkEntries(src, flow.entries) {
      var e :| e in flow.entries && EntryWalkable(src, e) && n in WalkEntry(src, e);
      WalkEntrySound(src, flow, e, n);
    }
  }

  lemma WalkClosedAtFlow(src: Source, flow: Flow, b: Node)
    requires Intact(src) && flow.uid in src.flows.data && src.flows.data[flow.uid] == flow
    requires FlowWalkable(src, flow) && Edge(src, FlowNode(flow.uid), b)
    ensures b in Walk(src, flow)
  {
    match b
    case PolicyNode(p) =>
      var x :| HasBinding(flow, x) && x.kind.PolicyRef? &&
               x.kind.policy in src.policies.query && src.policies.query[x.kind.policy] == p;
      if x in flow.bindings {
        assert b in PolicyNodes(src, flow.bindings);
      } else {
        var e :| e in flow.entries && x in e.bindings;
        assert b in PolicyNodes(src, e.bindings);
        assert b in WalkEntry(src, e);
      }
    case StageNode(s) =>
      var e :| e in flow.entries && e.stage in src.stages.query && src.stages.query[e.stage] == s;
      StoredStage(src, e.stage);
      assert b in WalkEntry(src, e);
    case _ =>
  }

  lemma WalkClosedAtEntry(src: Source, e: FlowEntry, a: Node, b: Node)
    requires Intact(src) && EntryWalkable(src, e)
    requires a in WalkEntry(src, e) && Edge(src, a, b)
    ensures b in WalkEntry(src, e)
  {
    var stage := Find(src.stages, e.stage);
    StoredStage(src, e.stage);
    WalkStageClosed(src, stage, |src.stages.data|);
  }

  lemma WalkClosed(src: Source, flow: Flow, a: Node, b: Node)
    requires Intact(src) && flow.uid in src.flows.data && src.flows.data[flow.uid] == flow
    requires FlowWalkable(src, flow) && a in Walk(src, flow) && Edge(src, a, b)
    ensures b in Walk(src, flow)
  {
    if a == FlowNode(flow.uid) {
      WalkClosedAtFlow(src, flow, b);
    } else if a in WalkEntries(src, flow.entries) {
      var e :| e in flow.entries && a in WalkEntry(src, e);
      WalkClosedAtEntry(src, e, a, b);
    }
  }

  /** The walk visits exactly what the flow reaches: no more and no less. */
  lemma WalkIsReachability(src: Source, flow: Flow, n: Node)
    requires Intact(src) && flow.uid in src.flows.data && src.flows.data[flow.uid] == flow
    requires FlowWalkable(src, flow)
    ensures n in Walk(src, flow) <==> Reachable(src, FlowNode(flow.uid), n)
  {
    if n in Walk(src, flow) {
      WalkSound(src, flow, n);
    }
    if Reachable(src, FlowNode(flow.uid), n) {
      var p :| Path(src, p) && p[0] == FlowNode(flow.uid) && p[|p| - 1] == n;
      forall a, b | a in Walk(src, flow) && Edge(src, a, b)
        ensures b in Walk(src, flow)
      {
        WalkClosed(src, flow, a, b);
      }
      ClosedHoldsPath(src, Walk(src, flow), p);
    }
  }

  // Where the walk ends

  lemma {:induction false} ChainIsReached(src: Source, root: Node, id: int, n: nat)
    requires Reachable(src, root, StageNode(id)) && Chain(src, id, n).Some?
    ensures Reachable(src, root, StageNode(Chain(src, id, n).value))
    decreases n
  {
    if n > 0 {
      var next := PasswordOf(src, id).value;
      ReachFurther(src, root, StageNode(id), StageNode(next));
      ChainIsReached(src, root, next, n - 1);
    }
  }

  /** A path from a flow to a stage goes to the stage of an entry and on along password edges. */
  lemma {:induction false} PathIsChain(src: Source, flow: Flow, p: seq<Node>) returns (e: FlowEntry, m: nat)
    requires flow.uid in src.flows.data && src.flows.data[flow.uid] == flow
    requires Path(src, p) && p[0] == FlowNode(flow.uid) && p[|p| - 1].StageNode?
    ensures e in flow.entries && e.stage in src.stages.query
    ensures Chain(src, src.stages.query[e.stage], m) == Some(p[|p| - 1].id)
  {
    var last := |p| - 1;
    var front := p[..last];
    assert Path(src, front) && Edge(src, p[last - 1], p[last]);
    if p[last - 1].FlowNode? {
      assert last > 1 ==> Edge(src, p[last - 2], p[last - 1]);
      e :| e in flow.entries && e.stage in src.stages.query && src.stages.query[e.stage] == p[last].id;
      m := 0;
    } else {
      e, m := PathIsChain(src, flow, front);
      ChainSplits(src, src.stages.query[e.stage], m, 1);
      assert Chain(src, p[last].id, 0) == Some(p[last].id);
      m := m + 1;
    }
  }

  /** No stage the flow reaches lies on a cycle of password references. */
  ghost predicate ReachesNoCycle(src: Source, flow: Flow) {
    forall s, n: nat {:trigger Cycle(src, s, n)} ::
      Reachable(src, FlowNode(flow.uid), StageNode(s)) ==> !Cycle(src, s, n)
  }

  lemma EntryReachesNoCycle(src: Source, flow: Flow, e: FlowEntry)
    requires Intact(src) && flow.uid in src.flows.data && src.flows.data[flow.uid] == flow
    requires e in flow.entries && EntryResolves(src, e) && ReachesNoCycle(src, flow)
    ensures EntryEnds(src, e)
  {
    var root, id := FlowNode(flow.uid), Find(src.stages, e.stage).uid;
    StoredStage(src, e.stage);
    if !Ends(src, id) {
      ChainEndsIffNoCycle(src, id);
      var m: nat, n: nat :| Chain(src, id, m).Some? && Cycle(src, Chain(src, id, m).value, n);
      ReachSelf(src, root);
      ReachFurther(src, root, root, StageNode(id));
      ChainIsReached(src, root, id, m);
    }
  }

  lemma ReachedStageOnNoCycle(src: Source, flow: Flow, s: int, n: nat)
    requires Intact(src) && flow.uid in src.flows.data && src.flows.data[flow.uid] == flow
    requires FlowWalkable(src, flow) && Reachable(src, FlowNode(flow.uid), StageNode(s))
    ensures !Cycle(src, s, n)
  {
    var p :| Path(src, p) && p[0] == FlowNode(flow.uid) && p[|p| - 1] == StageNode(s);
    var e, m := PathIsChain(src, flow, p);
    var id := src.stages.query[e.stage];
    assert EntryResolves(src, e) && EntryEnds(src, e);
    StoredStage(src, e.stage);
    ChainEndsIffNoCycle(src, id);
    assert Cycle(src, Chain(src, id, m).value, n) ==> LeadsToCycle(src, id);
  }

  /**
   The recursive walk of a flow ends exactly if no stage the flow reaches lies on a cycle of password
   references, whatever else the configuration holds.
   */
  lemma WalkEndsIffNoCycleReached(src: Source, flow: Flow)
    requires Intact(src) && flow.uid in src.flows.data && src.flows.data[flow.uid] == flow
    ensures FlowResolves(src, flow)
    ensures FlowWalkable(src, flow) <==> ReachesNoCycle(src, flow)
  {
    assert FlowIntact(src, flow.uid);
    if FlowWalkable(src, flow) {
      forall s, n: nat | Reachable(src, FlowNode(flow.uid), StageNode(s))
        ensures !Cycle(src, s, n)
      {
        ReachedStageOnNoCycle(src, flow, s, n);
      }
    }
    if ReachesNoCycle(src, flow) {
      forall e <- flow.entries
        ensures EntryEnds(src, e)
      {
        EntryReachesNoCycle(src, flow, e);
      }
    }
  }

  // The frozen store

  ghost function FlowIds(nodes: set<Node>): set<int> { set n | n in nodes && n.FlowNode? :: n.id }

  ghost function StageIds(nodes: set<Node>): set<int> { set n | n in nodes && n.StageNode? :: n.id }

  ghost function PolicyIds(nodes: set<Node>): set<int> { set n | n in nodes && n.PolicyNode? :: n.id }

  ghost function PromptIds(nodes: set<Node>): set<int> { set n | n in nodes && n.PromptNode? :: n.id }

  ghost function Freeze(src: Source, nodes: set<Node>): FreezedStorage {
    Source(Restrict(src.flows, FlowIds(nodes)), Restrict(src.stages, StageIds(nodes)),
           Restrict(src.policies, PolicyIds(nodes)), Restrict(src.prompts, PromptIds(nodes)))
  }

  /** Every stage or policy that running `flow` can ask for is in the store. */
  predicate Covers(flow: Flow, storage: FreezedStorage) {
    && FlowResolves(storage, flow)
    && forall e <- flow.entries ::
        var kind := Find(storage.stages, e.stage).kind;
        kind.Identification? && kind.password.Some? ==> Answers(storage.stages, kind.password.value)
  }

  lemma FreezeCoversBindings(src: Source, nodes: set<Node>, bindings: seq<FlowBinding>)
    requires BindingsResolve(src, bindings) && PolicyNodes(src, bindings) <= nodes
    ensures BindingsResolve(Freeze(src, nodes), bindings)
  {
    forall b | b in bindings && b.kind.PolicyRef?
      ensures Answers(Freeze(src, nodes).policies, b.kind.policy)
    {
      assert PolicyNode(src.policies.query[b.kind.policy]) in nodes;
    }
  }

  lemma FreezeCoversStage(src: Source, nodes: set<Node>, q: StageQuery)
    requires Answers(src.stages, q) && StageNode(src.stages.query[q]) in nodes
    ensures Answers(Freeze(src, nodes).stages, q)
    ensures Find(Freeze(src, nodes).stages, q) == Find(src.stages, q)
  {
    assert src.stages.query[q] in StageIds(nodes);
  }

  /** An entry's walk holds its stage, and the password stage that stage refers to. */
  lemma WalkEntryHoldsStages(src: Source, e: FlowEntry)
    requires Intact(src) && EntryWalkable(src, e)
    ensures StageNode(src.stages.query[e.stage]) in WalkEntry(src, e)
    ensures var kind := Find(src.stages, e.stage).kind;
            kind.Identification? && kind.password.Some? ==>
              && Answers(src.stages, kind.password.value)
              && StageNode(src.stages.query[kind.password.value]) in WalkEntry(src, e)
  {
    var stage := Find(src.stages, e.stage);
    StoredStage(src, e.stage);
    WalkableStep(src, stage, |src.stages.data|);
    if stage.kind.Identification? && stage.kind.password.Some? {
      StoredStage(src, stage.kind.password.value);
    }
  }

  lemma FreezeCoversEntry(src: Source, nodes: set<Node>, e: FlowEntry)
    requires Intact(src) && EntryWalkable(src, e) && WalkEntry(src, e) <= nodes
    ensures EntryResolves(Freeze(src, nodes), e)
    ensures var stages := Freeze(src, nodes).stages;
            var kind := Find(stages, e.stage).kind;
            kind.Identification? && kind.password.Some? ==> Answers(stages, kind.password.value)
  {
    WalkEntryHoldsStages(src, e);
    FreezeCoversBindings(src, nodes, e.bindings);
    FreezeCoversStage(src, nodes, e.stage);
    var kind := Find(src.stages, e.stage).kind;
    if kind.Identification? && kind.password.Some? {
      FreezeCoversStage(src, nodes, kind.password.value);
    }
  }

  /** The store frozen for a flow answers every question that running the flow can ask. */
  lemma FreezeComplete(src: Source, flow: Flow)
    requires Intact(src) && FlowWalkable(src, flow)
    ensures Covers(flow, Freeze(src, Walk(src, flow)))
  {
    var nodes := Walk(src, flow);
    FreezeCoversBindings(src, nodes, flow.bindings);
    forall e | e in flow.entries
      ensures EntryResolves(Freeze(src, nodes), e)
      ensures var stages := Freeze(src, nodes).stages;
              var kind := Find(stages, e.stage).kind;
              kind.Identification? && kind.password.Some? ==> Answers(stages, kind.password.value)
    {
      assert forall n <- WalkEntry(src, e) :: n in WalkEntries(src, flow.entries);
      FreezeCoversEntry(src, nodes, e);
    }
  }

  /** Whatever the frozen store answers is what the source answered when it was frozen. */
  lemma FreezeSound(src: Source, nodes: set<Node>)
    requires Indexed(src)
    ensures Indexed(Freeze(src, nodes))
    ensures forall q :: Answers(Freeze(src, nodes).flows, q) ==>
              Answers(src.flows, q) && Find(Freeze(src, nodes).flows, q) == Find(src.flows, q)
    ensures forall q :: Answers(Freeze(src, nodes).stages, q) ==>
              Answers(src.stages, q) && Find(Freeze(src, nodes).stages, q) == Find(src.stages, q)
    ensures forall q :: Answers(Freeze(src, nodes).policies, q) ==>
              Answers(src.policies, q) && Find(Freeze(src, nodes).policies, q) == Find(src.policies, q)
    ensures forall q :: Answers(Freeze(src, nodes).prompts, q) ==>
              Answers(src.prompts, q) && Find(Freeze(src, nodes).prompts, q) == Find(src.prompts, q)
  {
    RestrictWellIndexed(FLOW_SCHEMA, src.flows, FlowIds(nodes));
    RestrictWellIndexed(STAGE_SCHEMA, src.stages, StageIds(nodes));
    RestrictWellIndexed(POLICY_SCHEMA, src.policies, PolicyIds(nodes));
    RestrictWellIndexed(PROMPT_SCHEMA, src.prompts, PromptIds(nodes));
  }
}
