/** Runs in which a flow is completed and nobody is logged in, or a request is never answered. */
module Counterexamples {
  import opened Wrappers
  import opened Model
  import opened Tables
  import opened Closure
  import opened Executions
  import opened Checks
  import opened Requests
  import opened Submissions
  import opened Steps
  import opened Runs

  // A flow whose only entry is a login

  ghost function LoginOnly(slug: string): Source {
    var flow := Flow(1, slug, "", AuthenticationRequirement.Ignored, [], [FlowEntry(0, [], StageUid(1))]);
    var stage := Stage(1, "login", UserLogin, 0);
    Source(Table(map[1 := flow], map[FlowUid(1) := 1, FlowSlug(slug) := 1]),
           Table(map[1 := stage], map[StageUid(1) := 1, StageSlug("login") := 1]),
           Table(map[], map[]), Table(map[], map[]))
  }

  lemma LoginOnlyIsIntact(slug: string)
    ensures Intact(LoginOnly(slug)) && EntriesEnd(LoginOnly(slug), LoginOnly(slug).flows.data[1].entries)
  {
    assert Chain(LoginOnly(slug), 1, 1).None?;
  }

  lemma LoginOnlyStarts(slug: string, sid: string, now: int) returns (e: Execution)
    ensures Intact(LoginOnly(slug))
    ensures StartExecution(LoginOnly(slug), FlowKey(sid, FlowSlug(slug)), now) == Ready(e)
    ensures e.Sound() && !e.completed && e.cursor == 0 && |e.flow.entries| == 1 && e.Stage().kind.UserLogin?
    ensures e.flow.authentication.Ignored? && e.flow.bindings == e.Entry().bindings == []
  {
    hide Intact;
    hide EntriesEnd;
    hide Walk;
    hide Freeze;
    var src, key := LoginOnly(slug), FlowKey(sid, FlowSlug(slug));
    var flow := src.flows.data[1];
    LoginOnlyIsIntact(slug);
    StartIsSound(src, key, now);
    e := StartExecution(src, key, now).exec;
    FreezeSound(src, Walk(src, flow));
    assert e.Entry() in e.flow.entries && EntryResolves(e.context.storage, e.Entry());
  }

  lemma LoginOnlyAdmits(users: seq<UserRow>, session: Session, req: Request, e: Execution)
    requires e.Sound() && e.flow.authentication.Ignored? && e.flow.bindings == e.Entry().bindings == []
    requires session.userId == None && !req.faults.connection
    ensures Admitted(users, session, req, e)
  {
    CheckPassesIffAllMet(e, ContextFor(e, req, None));
  }

  /** A GET and a POST complete the flow, the POST commits, and the session stays unbound. */
  lemma FlowCompletesWithoutLogin(env: Env, req: Request) returns (run: Run, key: FlowKey)
    requires req.flow.FlowSlug? && req.cookie.Some? && env.decode(req.cookie.value).Ok?
    requires !req.faults.session && !req.faults.connection && !req.faults.commit
    ensures ValidRun(run) && run.env == env && run.steps == [GetStep(req), PostStep(req)]
    ensures key == FlowKey(env.decode(req.cookie.value).value.sid, req.flow)
    ensures key in At(run, 2).executions && At(run, 2).executions[key].completed
    ensures key.session in At(run, 2).sessions && At(run, 2).sessions[key.session] == None
    ensures ResponseTo(env, At(run, 1), PostStep(req)) == Some(Response(Success(SeeOther), req.cookie))
  {
    hide Check;
    hide Data;
    hide Walk;
    var sid := env.decode(req.cookie.value).value.sid;
    var get, post := GetStep(req), PostStep(req);
    key := FlowKey(sid, req.flow);
    var e := LoginOnlyStarts(req.flow.slug, sid, req.now);
    var st0 := System(map[], map[sid := None], [], LoginOnly(req.flow.slug));
    var st1 := Next(env, st0, get);
    GetNext(env, st0, get, key);
    StepKeepsValid(env, st0, get);
    assert st1 == st0.(executions := map[key := e]);
    var st2 := Next(env, st1, post);
    PostNext(env, st1, post, key);
    LoginOnlyAdmits([], Session(sid, None, env.decode(req.cookie.value).value.isAdmin), req, e);
    LastLoginIsPassed(env, [], SessionOf(env, st1, post).value, req, e, st1.sessions, req.cookie);
    run := Run(env, [st0, st1, st2], [get, post]);
    assert Linked(run, 0) && Linked(run, 1);
  }

  // A flow whose only stage refers to itself for the password

  ghost function SelfReferring(slug: string): Source {
    var flow := Flow(1, slug, "", AuthenticationRequirement.Ignored, [], [FlowEntry(0, [], StageUid(1))]);
    var stage := Stage(1, "identification", Identification(Some(StageUid(1)), [Name]), 0);
    Source(Table(map[1 := flow], map[FlowUid(1) := 1, FlowSlug(slug) := 1]),
           Table(map[1 := stage], map[StageUid(1) := 1, StageSlug("identification") := 1]),
           Table(map[], map[]), Table(map[], map[]))
  }

  lemma SelfReferringIsIntact(slug: string)
    ensures Intact(SelfReferring(slug))
  {
  }

  lemma SelfReferringReachesCycle(slug: string)
    ensures !ReachesNoCycle(SelfReferring(slug), SelfReferring(slug).flows.data[1])
  {
    var src := SelfReferring(slug);
    assert Chain(src, 1, 0) == Some(1) && Cycle(src, 1, 1);
    ReachSelf(src, FlowNode(1));
    assert src.flows.data[1].entries[0].stage == StageUid(1);
    ReachFurther(src, FlowNode(1), FlowNode(1), StageNode(1));
  }

  /** The GET that is to start the flow is never answered, and starts nothing. */
  lemma GetIsNeverAnswered(env: Env, req: Request) returns (run: Run)
    requires req.flow.FlowSlug? && req.cookie.Some? && env.decode(req.cookie.value).Ok? && !req.faults.session
    ensures ValidRun(run) && run.env == env && run.steps == [GetStep(req)]
    ensures ResponseTo(env, At(run, 0), GetStep(req)) == Some(Response(Panic(EndlessWalk), req.cookie))
    ensures At(run, 1).executions == map[]
  {
    hide Check;
    hide Data;
    hide Walk;
    hide Intact;
    hide ReachesNoCycle;
    hide EntriesEnd;
    var sid := env.decode(req.cookie.value).value.sid;
    var get, key := GetStep(req), FlowKey(sid, req.flow);
    SelfReferringIsIntact(req.flow.slug);
    SelfReferringReachesCycle(req.flow.slug);
    var st := System(map[], map[sid := None], [], SelfReferring(req.flow.slug));
    GetIsEndlessIff(env, st, get, key);
    run := Run(env, [st, Next(env, st, get)], [get]);
    assert Linked(run, 0);
  }
}
