/** Whether a flow, and its current entry, apply to the user of a request. */
module Checks {
  import opened Wrappers
  import opened Model
  import opened Tables
  import opened Closure
  import opened Executions

  /** What looking up, compiling and running an expression policy came to. */
  datatype Evaluation = NoAst | Evaluated(passed: bool) | EvaluationError

  /** The expression engine, by policy id; it sees the user of the request and the pending user. */
  type Engine = (int, Option<PartialUser>, Option<PendingUser>) -> Evaluation

  datatype CheckRequest = CheckRequest(next: Option<string>, user: Option<PartialUser>, engine: Engine)

  datatype CheckContext = CheckContext(request: CheckRequest, pendingUser: Option<PendingUser>)

  datatype FlowCheckOutput = Passed | Failed | FailedHard | Neutral {
    function Negate(): FlowCheckOutput {
      match this
      case Passed => Failed
      case Failed => Passed
      case FailedHard => FailedHard
      case Neutral => Neutral
    }

    predicate Holds() {
      Passed? || Neutral?
    }
  }

  function IntoOutput(b: bool): FlowCheckOutput {
    if b then Passed else Failed
  }

  datatype FlowCheck =
    | Authentication(requirement: AuthenticationRequirement)
    | IsUser(uid: Uuid)
    | PolicyCheck(policy: PolicyQuery)
  {
    function Message(): string {
      match this
      case Authentication(Superuser) => "You must be a superuser to access this flow"
      case Authentication(Required) => "You must be logged in to access this flow"
      case Authentication(Unauthenticated) => "You must not be logged in to access this flow"
      case Authentication(Ignored) => "This is an error! "
      case IsUser(_) => "Access denied"
      case PolicyCheck(_) => "Access denied"
    }
  }

  const NANOSECONDS_PER_SECOND := 1_000_000_000

  function CheckPolicy(context: ExecutionContext, ctx: CheckContext, policy: Policy): FlowCheckOutput {
    match policy.kind
    case PasswordExpiry(maxAge) =>
      (match ctx.request.user
       case Some(user) =>
         IntoOutput(context.startTime - user.passwordChangeDate < maxAge * NANOSECONDS_PER_SECOND)
       case None => Neutral)
    case PasswordStrength => Neutral
    case Expression(_) =>
      match ctx.request.engine(policy.uid, ctx.request.user, ctx.pendingUser)
      case NoAst => Neutral
      case Evaluated(passed) => IntoOutput(passed)
      case EvaluationError => FailedHard
  }

  function RunCheck(context: ExecutionContext, ctx: CheckContext, check: FlowCheck): FlowCheckOutput
    requires check.PolicyCheck? ==> Answers(context.storage.policies, check.policy)
  {
    match check
    case Authentication(Superuser) =>
      if ctx.request.user.Some? then IntoOutput(ctx.request.user.value.isAdmin) else Failed
    case Authentication(Required) => IntoOutput(ctx.request.user.Some?)
    case Authentication(Unauthenticated) => IntoOutput(ctx.request.user.None?)
    case Authentication(Ignored) => Neutral
    case IsUser(uid) => IntoOutput(ctx.request.user.Some? && ctx.request.user.value.uid == uid)
    case PolicyCheck(policy) => CheckPolicy(context, ctx, Find(context.storage.policies, policy))
  }

  /** `Unfinished`: an enabled group binding, which the server does not implement. */
  datatype Verdict = Pass | Refuse(message: string) | Unfinished

  function CheckBinding(context: ExecutionContext, ctx: CheckContext, b: FlowBinding): Verdict
    requires b.kind.PolicyRef? ==> Answers(context.storage.policies, b.kind.policy)
  {
    if !b.enabled then Pass
    else if b.kind.Group? then Unfinished
    else
      var check := if b.kind.User? then IsUser(b.kind.user) else PolicyCheck(b.kind.policy);
      var output := RunCheck(context, ctx, check);
      var result := if b.negate then output.Negate() else output;
      if result.Holds() then Pass else Refuse(check.Message())
  }

  function CheckBindings(context: ExecutionContext, ctx: CheckContext, bindings: seq<FlowBinding>): Verdict
    requires BindingsResolve(context.storage, bindings)
  {
    if bindings == [] then Pass
    else
      assert bindings[0] in bindings;
      var first := CheckBinding(context, ctx, bindings[0]);
      if first.Pass? then CheckBindings(context, ctx, bindings[1..]) else first
  }

  function Check(e: Execution, ctx: CheckContext): Verdict
    requires e.Sound()
  {
    assert e.Entry() in e.flow.entries;
    var auth := FlowCheck.Authentication(e.flow.authentication);
    if !RunCheck(e.context, ctx, auth).Holds() then Refuse(auth.Message())
    else
      var flowVerdict := CheckBindings(e.context, ctx, e.flow.bindings);
      if flowVerdict.Pass? then CheckBindings(e.context, ctx, e.Entry().bindings) else flowVerdict
  }

  // What the verdict means

  /** The user meets the requirement the flow puts on authentication. */
  predicate MeetsRequirement(requirement: AuthenticationRequirement, user: Option<PartialUser>) {
    match requirement
    case Superuser => user.Some? && user.value.isAdmin
    case Required => user.Some?
    case Unauthenticated => user.None?
    case Ignored => true
  }

  /** The answer of a policy, if it has one; `HardNo` is an answer that negation does not turn round. */
  datatype Answer = Yes | No | HardNo | NoAnswer

  function PolicyAnswer(context: ExecutionContext, ctx: CheckContext, policy: Policy): Answer {
    var user := ctx.request.user;
    if policy.kind.PasswordExpiry? then
      if user.None? then NoAnswer
      else if context.startTime < user.value.passwordChangeDate + policy.kind.maxAge * NANOSECONDS_PER_SECOND then Yes
      else No
    else if policy.kind.Expression? then
      match ctx.request.engine(policy.uid, user, ctx.pendingUser)
      case Evaluated(true) => Yes
      case Evaluated(false) => No
      case EvaluationError => HardNo
      case NoAst => NoAnswer
    else NoAnswer
  }

  /** An enabled binding asks for the answer yes, or for no when it is negated. */
  predicate Satisfied(context: ExecutionContext, ctx: CheckContext, b: FlowBinding)
    requires b.kind.PolicyRef? ==> Answers(context.storage.policies, b.kind.policy)
  {
    match b.kind
    case Group(_) => false
    case User(uid) =>
      var isUser := ctx.request.user.Some? && ctx.request.user.value.uid == uid;
      isUser != b.negate
    case PolicyRef(q) =>
      var answer := PolicyAnswer(context, ctx, Find(context.storage.policies, q));
      answer.NoAnswer? || answer == (if b.negate then No else Yes)
  }

  lemma BindingPassesIffSatisfied(context: ExecutionContext, ctx: CheckContext, b: FlowBinding)
    requires b.kind.PolicyRef? ==> Answers(context.storage.policies, b.kind.policy)
    ensures CheckBinding(context, ctx, b).Pass? <==> (b.enabled ==> Satisfied(context, ctx, b))
  {
  }

  /** A binding to an expiry policy, for a user who is logged in. */
  lemma ExpiryBindingPassesIff(context: ExecutionContext, ctx: CheckContext, b: FlowBinding)
    requires b.enabled && b.kind.PolicyRef? && Answers(context.storage.policies, b.kind.policy)
    requires Find(context.storage.policies, b.kind.policy).kind.PasswordExpiry? && ctx.request.user.Some?
    ensures var maxAge := Find(context.storage.policies, b.kind.policy).kind.maxAge;
            CheckBinding(context, ctx, b).Pass? <==>
            (context.startTime < ctx.request.user.value.passwordChangeDate + maxAge * 1_000_000_000) != b.negate
  {
  }

  lemma {:induction false} BindingsPassIffSatisfied(context: ExecutionContext, ctx: CheckContext,
                                                    bindings: seq<FlowBinding>)
    requires BindingsResolve(context.storage, bindings)
    ensures CheckBindings(context, ctx, bindings).Pass? <==>
            forall b <- bindings :: b.enabled ==> Satisfied(context, ctx, b)
  {
    if bindings != [] {
      assert bindings == [bindings[0]] + bindings[1..];
      BindingPassesIffSatisfied(context, ctx, bindings[0]);
      BindingsPassIffSatisfied(context, ctx, bindings[1..]);
    }
  }

  /** A flow applies exactly when its requirement and every enabled binding in force are met. */
  lemma CheckPassesIffAllMet(e: Execution, ctx: CheckContext)
    requires e.Sound()
    ensures BindingsResolve(e.context.storage, e.flow.bindings + e.Entry().bindings)
    ensures Check(e, ctx).Pass? <==>
            && MeetsRequirement(e.flow.authentication, ctx.request.user)
            && forall b <- e.flow.bindings + e.Entry().bindings :: b.enabled ==> Satisfied(e.context, ctx, b)
  {
    assert e.Entry() in e.flow.entries;
    BindingsPassIffSatisfied(e.context, ctx, e.flow.bindings);
    BindingsPassIffSatisfied(e.context, ctx, e.Entry().bindings);
  }

  lemma {:induction false} BindingsGiveFirstFailure(context: ExecutionContext, ctx: CheckContext,
                                                    bindings: seq<FlowBinding>, i: nat)
    requires BindingsResolve(context.storage, bindings)
    requires i < |bindings| && !CheckBinding(context, ctx, bindings[i]).Pass?
    requires forall b <- bindings[..i] :: b.enabled ==> Satisfied(context, ctx, b)
    ensures CheckBindings(context, ctx, bindings) == CheckBinding(context, ctx, bindings[i])
  {
    if i > 0 {
      assert bindings[0] in bindings[..i];
      BindingPassesIffSatisfied(context, ctx, bindings[0]);
      assert forall b <- bindings[1..][..i - 1] :: b in bindings[..i];
      BindingsGiveFirstFailure(context, ctx, bindings[1..], i - 1);
    }
  }

  /** A refusal carries the message of the first thing not met, flow bindings before entry bindings. */
  lemma CheckGivesFirstFailure(e: Execution, ctx: CheckContext, i: nat)
    requires e.Sound()
    requires BindingsResolve(e.context.storage, e.flow.bindings + e.Entry().bindings)
    requires MeetsRequirement(e.flow.authentication, ctx.request.user)
    requires var all := e.flow.bindings + e.Entry().bindings;
             && i < |all| && all[i].enabled && !Satisfied(e.context, ctx, all[i])
             && forall b <- all[..i] :: b.enabled ==> Satisfied(e.context, ctx, b)
    ensures var b := (e.flow.bindings + e.Entry().bindings)[i];
            Check(e, ctx) == if b.kind.Group? then Unfinished else Refuse("Access denied")
  {
    hide Satisfied;
    hide CheckPolicy;
    assert e.Entry() in e.flow.entries;
    var all := e.flow.bindings + e.Entry().bindings;
    var n := |e.flow.bindings|;
    BindingPassesIffSatisfied(e.context, ctx, all[i]);
    if i < n {
      assert all[..i] == e.flow.bindings[..i];
      BindingsGiveFirstFailure(e.context, ctx, e.flow.bindings, i);
    } else {
      assert all[..i] == e.flow.bindings + e.Entry().bindings[..i - n];
      BindingsPassIffSatisfied(e.context, ctx, e.flow.bindings);
      BindingsGiveFirstFailure(e.context, ctx, e.Entry().bindings, i - n);
    }
  }

  // Order and number of the bindings, of the flow and of the current entry

  function WithBindings(e: Execution, bindings: seq<FlowBinding>): Execution {
    e.(flow := e.flow.(bindings := bindings))
  }

  function WithEntryBindings(e: Execution, bindings: seq<FlowBinding>): Execution
    requires e.cursor < |e.flow.entries|
  {
    e.(flow := e.flow.(entries := e.flow.entries[e.cursor := e.Entry().(bindings := bindings)]))
  }

  predicate NoGroups(bindings: seq<FlowBinding>) {
    forall b <- bindings :: b.enabled ==> !b.kind.Group?
  }

  /** Without enabled group bindings there is one way to pass and one way to be refused. */
  lemma {:induction false} NoGroupsVerdict(context: ExecutionContext, ctx: CheckContext, bindings: seq<FlowBinding>)
    requires BindingsResolve(context.storage, bindings) && NoGroups(bindings)
    ensures CheckBindings(context, ctx, bindings) in {Pass, Refuse("Access denied")}
  {
    if bindings != [] {
      assert bindings == [bindings[0]] + bindings[1..];
      NoGroupsVerdict(context, ctx, bindings[1..]);
    }
  }

  predicate Unmet(context: ExecutionContext, ctx: CheckContext, b: FlowBinding)
    requires b.kind.PolicyRef? ==> Answers(context.storage.policies, b.kind.policy)
  {
    b.enabled && !Satisfied(context, ctx, b)
  }

  /** Some unmet binding refuses, and some other one is unfinished: the first of them decides. */
  ghost predicate OrderMatters(context: ExecutionContext, ctx: CheckContext, bindings: seq<FlowBinding>)
    requires BindingsResolve(context.storage, bindings)
  {
    && (exists b :: b in bindings && Unmet(context, ctx, b) && b.kind.Group?)
    && (exists b :: b in bindings && Unmet(context, ctx, b) && !b.kind.Group?)
  }

  /** Where the order does not matter, the set of bindings decides the verdict. */
  lemma {:induction false} UnmetKindDecides(context: ExecutionContext, ctx: CheckContext, bindings: seq<FlowBinding>,
                                            group: bool)
    requires BindingsResolve(context.storage, bindings)
    requires forall b <- bindings :: Unmet(context, ctx, b) ==> b.kind.Group? == group
    ensures CheckBindings(context, ctx, bindings) in {Pass, if group then Unfinished else Refuse("Access denied")}
  {
    if bindings != [] {
      assert bindings == [bindings[0]] + bindings[1..];
      BindingPassesIffSatisfied(context, ctx, bindings[0]);
      UnmetKindDecides(context, ctx, bindings[1..], group);
    }
  }

  lemma PermutedBindings(context: ExecutionContext, ctx: CheckContext, bindings: seq<FlowBinding>,
                         permuted: seq<FlowBinding>)
    requires BindingsResolve(context.storage, bindings) && multiset(permuted) == multiset(bindings)
    ensures BindingsResolve(context.storage, permuted)
    ensures CheckBindings(context, ctx, permuted).Pass? <==> CheckBindings(context, ctx, bindings).Pass?
    ensures !OrderMatters(context, ctx, bindings) ==>
              CheckBindings(context, ctx, permuted) == CheckBindings(context, ctx, bindings)
  {
    forall b
      ensures b in permuted <==> b in bindings
    {
      assert b in permuted <==> b in multiset(permuted);
    }
    BindingsPassIffSatisfied(context, ctx, bindings);
    BindingsPassIffSatisfied(context, ctx, permuted);
    if !OrderMatters(context, ctx, bindings) {
      var group := exists b :: b in bindings && Unmet(context, ctx, b) && b.kind.Group?;
      UnmetKindDecides(context, ctx, bindings, group);
      UnmetKindDecides(context, ctx, permuted, group);
    }
  }

  lemma FirstToFront(context: ExecutionContext, ctx: CheckContext, bindings: seq<FlowBinding>, b: FlowBinding)
    returns (permuted: seq<FlowBinding>)
    requires BindingsResolve(context.storage, bindings) && b in bindings && Unmet(context, ctx, b)
    ensures multiset(permuted) == multiset(bindings) && BindingsResolve(context.storage, permuted)
    ensures CheckBindings(context, ctx, permuted) == if b.kind.Group? then Unfinished else Refuse("Access denied")
  {
    var i :| 0 <= i < |bindings| && bindings[i] == b;
    permuted := [b] + (bindings[..i] + bindings[i + 1..]);
    assert bindings == bindings[..i] + [b] + bindings[i + 1..];
    BindingPassesIffSatisfied(context, ctx, b);
  }

  /** Where the order matters, some permutation gets another verdict. */
  lemma OrderMattersSomewhere(context: ExecutionContext, ctx: CheckContext, bindings: seq<FlowBinding>)
    returns (permuted: seq<FlowBinding>)
    requires BindingsResolve(context.storage, bindings) && OrderMatters(context, ctx, bindings)
    ensures multiset(permuted) == multiset(bindings) && BindingsResolve(context.storage, permuted)
    ensures CheckBindings(context, ctx, permuted) != CheckBindings(context, ctx, bindings)
  {
    var group :| group in bindings && Unmet(context, ctx, group) && group.kind.Group?;
    var other :| other in bindings && Unmet(context, ctx, other) && !other.kind.Group?;
    permuted := FirstToFront(context, ctx, bindings,
                             if CheckBindings(context, ctx, bindings).Unfinished? then other else group);
  }

  lemma FurtherBinding(context: ExecutionContext, ctx: CheckContext, bindings: seq<FlowBinding>, at: nat,
                       extra: FlowBinding)
    requires BindingsResolve(context.storage, bindings) && at <= |bindings|
    requires extra.kind.PolicyRef? ==> Answers(context.storage.policies, extra.kind.policy)
    ensures var more := bindings[..at] + [extra] + bindings[at..];
            && BindingsResolve(context.storage, more)
            && (CheckBindings(context, ctx, more).Pass? ==> CheckBindings(context, ctx, bindings).Pass?)
  {
    var more := bindings[..at] + [extra] + bindings[at..];
    assert bindings == bindings[..at] + bindings[at..];
    assert forall b :: b in more <==> b == extra || b in bindings;
    BindingsPassIffSatisfied(context, ctx, bindings);
    BindingsPassIffSatisfied(context, ctx, more);
  }

  /** Nothing but the current entry's bindings changes, so the execution stays sound if they resolve. */
  lemma WithEntryBindingsIsSound(e: Execution, bindings: seq<FlowBinding>)
    requires e.Sound() && BindingsResolve(e.context.storage, bindings)
    ensures WithEntryBindings(e, bindings).Sound()
  {
    var flow := WithEntryBindings(e, bindings).flow;
    forall entry <- flow.entries
      ensures EntryResolves(e.context.storage, entry)
      ensures exists other :: other in e.flow.entries && other.stage == entry.stage
    {
      var i :| 0 <= i < |flow.entries| && flow.entries[i] == entry;
      assert e.flow.entries[i] in e.flow.entries && e.flow.entries[i].stage == entry.stage;
    }
  }

  /**
   The order of a flow's bindings does not matter for admission, and for the verdict only where it
   decides between a refusal and an unfinished binding.
   */
  lemma FlowOrderIsIrrelevant(e: Execution, ctx: CheckContext, permuted: seq<FlowBinding>)
    requires e.Sound() && multiset(permuted) == multiset(e.flow.bindings)
    ensures WithBindings(e, permuted).Sound()
    ensures Check(WithBindings(e, permuted), ctx).Pass? <==> Check(e, ctx).Pass?
    ensures !OrderMatters(e.context, ctx, e.flow.bindings) ==>
              Check(WithBindings(e, permuted), ctx) == Check(e, ctx)
  {
    PermutedBindings(e.context, ctx, e.flow.bindings, permuted);
  }

  /** The same holds of the bindings of the current entry. */
  lemma EntryOrderIsIrrelevant(e: Execution, ctx: CheckContext, permuted: seq<FlowBinding>)
    requires e.Sound() && multiset(permuted) == multiset(e.Entry().bindings)
    ensures BindingsResolve(e.context.storage, e.Entry().bindings) && WithEntryBindings(e, permuted).Sound()
    ensures Check(WithEntryBindings(e, permuted), ctx).Pass? <==> Check(e, ctx).Pass?
    ensures !OrderMatters(e.context, ctx, e.Entry().bindings) ==>
              Check(WithEntryBindings(e, permuted), ctx) == Check(e, ctx)
  {
    assert e.Entry() in e.flow.entries;
    PermutedBindings(e.context, ctx, e.Entry().bindings, permuted);
    WithEntryBindingsIsSound(e, permuted);
  }

  /** Wherever it is put, a further binding of the flow admits nobody who was refused. */
  lemma FurtherFlowBindingNeverAdmits(e: Execution, ctx: CheckContext, at: nat, extra: FlowBinding)
    requires e.Sound() && at <= |e.flow.bindings|
    requires extra.kind.PolicyRef? ==> Answers(e.context.storage.policies, extra.kind.policy)
    ensures var more := WithBindings(e, e.flow.bindings[..at] + [extra] + e.flow.bindings[at..]);
            more.Sound() && (Check(more, ctx).Pass? ==> Check(e, ctx).Pass?)
  {
    FurtherBinding(e.context, ctx, e.flow.bindings, at, extra);
  }

  /** Nor does a further binding of the current entry. */
  lemma FurtherEntryBindingNeverAdmits(e: Execution, ctx: CheckContext, at: nat, extra: FlowBinding)
    requires e.Sound() && at <= |e.Entry().bindings|
    requires extra.kind.PolicyRef? ==> Answers(e.context.storage.policies, extra.kind.policy)
    ensures var more := WithEntryBindings(e, e.Entry().bindings[..at] + [extra] + e.Entry().bindings[at..]);
            more.Sound() && (Check(more, ctx).Pass? ==> Check(e, ctx).Pass?)
  {
    assert e.Entry() in e.flow.entries;
    FurtherBinding(e.context, ctx, e.Entry().bindings, at, extra);
    WithEntryBindingsIsSound(e, e.Entry().bindings[..at] + [extra] + e.Entry().bindings[at..]);
  }
}
