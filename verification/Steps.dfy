/** What a single step of the server keeps, changes and promises. */
module Steps {
  import opened Wrappers
  import opened Model
  import opened Tables
  import opened Closure
  import opened Executions
  import opened Checks
  import opened Requests
  import opened Completion
  import opened Submissions

  /** A request, or something that happens to the server from outside. */
  datatype Step =
    | GetStep(req: Request)
    | PostStep(req: Request)
    | Evict(key: FlowKey)
    | SetUsers(users: seq<UserRow>)
    | SetSource(source: Source)

  /** The configuration may change to anything with intact references. */
  ghost predicate Allowed(step: Step) {
    step.SetSource? ==> Intact(step.source)
  }

  lemma ValidHasSound(st: System)
    requires ValidSystem(st)
    ensures forall key <- st.executions :: st.executions[key].Sound()
  {
    forall key <- st.executions
      ensures st.executions[key].Sound()
    {
      assert ValidExecution(st, key);
    }
  }

  ghost function Next(env: Env, st: System, step: Step): System
    requires ValidSystem(st)
  {
    ValidHasSound(st);
    match step
    case GetStep(req) => Get(env, st, req).0
    case PostStep(req) => Post(env, st, req).0
    case Evict(key) => st.(executions := Remove(st.executions, key))
    case SetUsers(users) => st.(users := users)
    case SetSource(source) => st.(source := source)
  }

  ghost function ResponseTo(env: Env, st: System, step: Step): Option<Response>
    requires ValidSystem(st)
  {
    ValidHasSound(st);
    match step
    case GetStep(req) => Some(Get(env, st, req).1)
    case PostStep(req) => Some(Post(env, st, req).1)
    case _ => None
  }

  /** The session a request is made in. */
  function SessionOf(env: Env, st: System, step: Step): Option<Session> {
    if step.GetStep? || step.PostStep? then
      match ExtractSession(env, st.sessions, step.req).outcome
      case Success(session) => Some(session)
      case _ => None
    else None
  }

  /** The execution a request is about. */
  function TargetOf(env: Env, st: System, step: Step): Option<FlowKey> {
    if SessionOf(env, st, step).Some? then GetKey(SessionOf(env, st, step).value, step.req.flow) else None
  }

  // One step of the server

  /** Extracting the session inserts at most one row, for a session that did not exist. */
  lemma ExtractionKeepsRows(env: Env, sessions: Sessions, req: Request)
    ensures var x := ExtractSession(env, sessions, req);
            && (x.sessions == sessions || (req.freshSid !in sessions && x.sessions == sessions[req.freshSid := None]))
            && (x.outcome.Success? ==> x.outcome.value.sessionId in x.sessions)
            && (x.outcome.Success? && x.outcome.value.sessionId in sessions ==>
                  x.sessions == sessions && x.cookie == req.cookie)
            && !x.outcome.Panic?
  {
  }

  /**
   The cookie a request leaves with is a token of its session; the session's user is the one its row
   names, and its admin bit the one its token carries.
   */
  lemma SessionMatchesCookie(env: Env, sessions: Sessions, req: Request)
    requires SoundCodec(env) && ExtractSession(env, sessions, req).outcome.Success?
    ensures var x := ExtractSession(env, sessions, req);
            var session := x.outcome.value;
            && CookieOf(env, x.cookie, session.sessionId)
            && session.sessionId in x.sessions && session.userId == x.sessions[session.sessionId]
            && session.isAdmin == env.decode(x.cookie.value).value.isAdmin
  {
    assert Claims(req.freshSid, ISSUER, None, false, false).iss == ISSUER;
  }

  /** The request is a POST that reaches the execution at `key`. */
  predicate PostsTo(env: Env, st: System, step: Step, key: FlowKey) {
    step.PostStep? && TargetOf(env, st, step) == Some(key) && key in st.executions
  }

  ghost predicate AdmittedAt(env: Env, st: System, step: Step, key: FlowKey)
    requires ValidSystem(st)
  {
    && PostsTo(env, st, step, key)
    && ValidExecution(st, key)
    && Admitted(st.users, SessionOf(env, st, step).value, step.req, st.executions[key])
  }

  ghost predicate AcceptedAt(env: Env, st: System, step: Step, key: FlowKey)
    requires ValidSystem(st)
  {
    && PostsTo(env, st, step, key)
    && ValidExecution(st, key)
    && Accepted(env, st.users, SessionOf(env, st, step).value, step.req, st.executions[key])
  }

  /** Whom the step identified in the execution at `key`. */
  ghost function IdentifiedAt(env: Env, st: System, step: Step, key: FlowKey): Option<UserRow>
    requires ValidSystem(st)
  {
    if AdmittedAt(env, st, step, key) then IdentifiedRow(env, st.users, step.req, st.executions[key]) else None
  }

  /** The step is an admitted POST that gets to a check of the password of `uid` at `key`, and passes it. */
  ghost predicate VerifiesAt(env: Env, st: System, step: Step, key: FlowKey, uid: Uuid)
    requires ValidSystem(st)
  {
    AdmittedAt(env, st, step, key) && Verifies(env, st.users, step.req, st.executions[key], uid)
  }

  /** Whom the step leaves pending in the execution at `key`. */
  ghost function PendingNext(env: Env, st: System, step: Step, key: FlowKey): Option<PendingUser>
    requires ValidSystem(st) && key in st.executions
  {
    if AdmittedAt(env, st, step, key) then PendingAfter(env, st.users, step.req, st.executions[key])
    else st.executions[key].context.pending
  }

  /** A step changes the pending user only by identification and by a passed password check. */
  lemma PendingChanges(env: Env, st: System, step: Step, key: FlowKey)
    requires ValidSystem(st) && key in st.executions
    ensures var before := st.executions[key].context.pending;
            var after := PendingNext(env, st, step, key);
            var identified := IdentifiedAt(env, st, step, key);
            var base := if identified.Some? then Some(Identified(identified.value)) else before;
            || after == base
            || (base.Some? && after == Some(Authenticated(base.value)) &&
                VerifiesAt(env, st, step, key, base.value.uid))
  {
    assert ValidExecution(st, key);
  }

  /** The POST at `key`, in isolation. */
  ghost function EffectAt(env: Env, st: System, step: Step, key: FlowKey): Effect
    requires ValidSystem(st) && PostsTo(env, st, step, key)
  {
    ValidHasSound(st);
    PostTo(env, st.users, SessionOf(env, st, step).value, step.req, st.executions[key], st.sessions, step.req.cookie)
  }

  lemma PostNext(env: Env, st: System, step: Step, key: FlowKey)
    requires ValidSystem(st) && PostsTo(env, st, step, key)
    ensures Next(env, st, step) == Apply(st, key, EffectAt(env, st, step, key))
    ensures ResponseTo(env, st, step) ==
            Some(Response(EffectAt(env, st, step, key).outcome, EffectAt(env, st, step, key).cookie))
    ensures st.executions[key].Sound()
    ensures PostChange(env, st.users, SessionOf(env, st, step).value, step.req, st.executions[key], st.sessions,
                       EffectAt(env, st, step, key))
  {
    assert ValidExecution(st, key);
    ExtractionKeepsRows(env, st.sessions, step.req);
    PostChanges(env, st.users, SessionOf(env, st, step).value, step.req, st.executions[key], st.sessions,
                step.req.cookie);
  }

  /** Rendering removes an execution only to hand out its final redirect. */
  lemma GetRemovesOnRedirect(users: seq<UserRow>, session: Session, req: Request, e: Execution)
    requires e.Sound()
    ensures GetFrom(users, session, req, e).invalidates ==> e.completed && req.next.Some?
  {
  }

  lemma GetNext(env: Env, st: System, step: Step, key: FlowKey)
    requires ValidSystem(st) && step.GetStep? && TargetOf(env, st, step) == Some(key)
    ensures var sessions := ExtractSession(env, st.sessions, step.req).sessions;
            var found := FoundBy(st, key, step.req.now);
            if !found.Ready? then
              && Next(env, st, step) == st.(sessions := sessions)
              && ResponseTo(env, st, step).value.outcome ==
                 if found.NoFlow? then Failure(NotFound) else Panic(EndlessWalk)
            else
              && found.exec.Sound()
              && var r := GetFrom(st.users, SessionOf(env, st, step).value, step.req, found.exec);
                 && ResponseTo(env, st, step).value.outcome == r.outcome
                 && (r.invalidates ==> found.exec.completed && step.req.next.Some?)
                 && Next(env, st, step) ==
                    st.(sessions := sessions,
                        executions := if r.invalidates then Remove(st.executions, key)
                                      else st.executions[key := found.exec])
  {
    ValidHasSound(st);
    StartIsSound(st.source, key, step.req.now);
    var found := FoundBy(st, key, step.req.now);
    if found.Ready? {
      GetRemovesOnRedirect(st.users, SessionOf(env, st, step).value, step.req, found.exec);
    }
  }

  lemma RenderingEnds(users: seq<UserRow>, session: Session, req: Request, e: Execution)
    requires e.Sound()
    ensures GetFrom(users, session, req, e).outcome != Panic(EndlessWalk)
  {
    hide Check;
  }

  /** A flow is started exactly if it exists, has entries, and reaches no cycle of password references. */
  lemma StartsIff(source: Source, key: FlowKey, now: int)
    requires Intact(source)
    ensures StartExecution(source, key, now).Ready? <==>
            && Answers(source.flows, key.flow)
            && var flow := Find(source.flows, key.flow);
               flow.entries != [] && ReachesNoCycle(source, flow)
    ensures StartExecution(source, key, now).NoFlow? <==>
            (Answers(source.flows, key.flow) ==> Find(source.flows, key.flow).entries == [])
  {
    hide ReachesNoCycle;
    hide EntriesEnd;
    hide Walk;
    if Answers(source.flows, key.flow) {
      StoredFlowResolves(source, key.flow);
      WalkEndsIffNoCycleReached(source, Find(source.flows, key.flow));
    }
  }

  /**
   A GET goes without an answer exactly if it is to start a flow that reaches a cycle of password
   references; it leaves the executions alone.
   */
  lemma GetIsEndlessIff(env: Env, st: System, step: Step, key: FlowKey)
    requires ValidSystem(st) && step.GetStep? && TargetOf(env, st, step) == Some(key)
    ensures ResponseTo(env, st, step).value.outcome == Panic(EndlessWalk) <==>
            && key !in st.executions
            && Answers(st.source.flows, key.flow)
            && var flow := Find(st.source.flows, key.flow);
               flow.entries != [] && !ReachesNoCycle(st.source, flow)
    ensures ResponseTo(env, st, step).value.outcome == Panic(EndlessWalk) ==>
              Next(env, st, step).executions == st.executions
  {
    hide GetFrom;
    hide ReachesNoCycle;
    hide EntriesEnd;
    hide Walk;
    ValidHasSound(st);
    GetNext(env, st, step, key);
    var found := FoundBy(st, key, step.req.now);
    StartIsSound(st.source, key, step.req.now);
    if found.Ready? {
      RenderingEnds(st.users, SessionOf(env, st, step).value, step.req, found.exec);
    }
    if Answers(st.source.flows, key.flow) {
      StoredFlowResolves(st.source, key.flow);
      WalkEndsIffNoCycleReached(st.source, Find(st.source.flows, key.flow));
    }
  }

  /** A request that reaches no execution changes no execution. */
  lemma IdleNext(env: Env, st: System, step: Step)
    requires ValidSystem(st)
    requires step.GetStep? || step.PostStep?
    requires TargetOf(env, st, step).None? || (step.PostStep? && TargetOf(env, st, step).value !in st.executions)
    ensures Next(env, st, step) == st.(sessions := ExtractSession(env, st.sessions, step.req).sessions)
    ensures var r, x := ResponseTo(env, st, step).value, ExtractSession(env, st.sessions, step.req);
            && r.cookie == x.cookie
            && r.outcome == Failure(if x.outcome.Failure? then x.outcome.error
                                    else if step.GetStep? then MiscInternal else NotFound)
  {
    ExtractionKeepsRows(env, st.sessions, step.req);
  }

  /** How an execution that stays may have changed in a step. */
  ghost predicate Evolves(env: Env, st: System, step: Step, key: FlowKey, e': Execution)
    requires ValidSystem(st) && key in st.executions
  {
    var e := st.executions[key];
    && e'.flow == e.flow && e'.key == e.key
    && e'.context == e.context.(pending := e'.context.pending, error := e'.context.error)
    && e'.context.pending == PendingNext(env, st, step, key)
    && e.cursor <= e'.cursor && (e.context.error.Some? ==> e'.context.error.Some?)
    && (e' != e ==> PostsTo(env, st, step, key) && !e.completed && e'.Sound())
  }

  lemma PostEvolves(env: Env, st: System, step: Step, key: FlowKey)
    requires ValidSystem(st) && PostsTo(env, st, step, key)
    ensures Evolves(env, st, step, key, EffectAt(env, st, step, key).exec)
  {
    assert ValidExecution(st, key);
    PostNext(env, st, step, key);
  }

  lemma UnpostedEvolves(env: Env, st: System, step: Step, key: FlowKey)
    requires ValidSystem(st) && key in st.executions && !PostsTo(env, st, step, key)
    ensures Evolves(env, st, step, key, st.executions[key])
  {
  }

  /** What happens from outside removes one execution, or replaces users or configuration, and nothing else. */
  lemma OutsideNext(env: Env, st: System, step: Step)
    requires ValidSystem(st) && !step.GetStep? && !step.PostStep?
    ensures var st' := Next(env, st, step);
            && st'.sessions == st.sessions
            && (forall key <- st'.executions :: key in st.executions && st'.executions[key] == st.executions[key])
            && (forall key <- st.executions :: key in st'.executions <==> step != Evict(key))
            && st'.users == (if step.SetUsers? then step.users else st.users)
            && st'.source == (if step.SetSource? then step.source else st.source)
  {
  }

  /** What may be found at `key` after a step: a new execution, or the old one evolved. */
  lemma ExecutionStep(env: Env, st: System, step: Step, key: FlowKey)
    requires ValidSystem(st) && key in Next(env, st, step).executions
    ensures var e' := Next(env, st, step).executions[key];
            if key !in st.executions then
              && step.GetStep? && TargetOf(env, st, step) == Some(key)
              && StartExecution(st.source, key, step.req.now) == Ready(e')
            else Evolves(env, st, step, key, e')
  {
    if key in st.executions && !PostsTo(env, st, step, key) {
      UnpostedEvolves(env, st, step, key);
    }
    if !step.GetStep? && !step.PostStep? {
      OutsideNext(env, st, step);
    } else {
      var target := TargetOf(env, st, step);
      if target.None? || (step.PostStep? && target.value !in st.executions) {
        IdleNext(env, st, step);
      } else if step.GetStep? {
        GetNext(env, st, step, target.value);
      } else {
        PostNext(env, st, step, target.value);
        PostEvolves(env, st, step, target.value);
      }
    }
  }

  /** Session rows are only added or bound; binding is a committed login in that session. */
  lemma SessionStep(env: Env, st: System, step: Step, sid: string)
    requires ValidSystem(st)
    ensures sid in st.sessions ==> sid in Next(env, st, step).sessions
    ensures sid in Next(env, st, step).sessions ==>
              var row := Next(env, st, step).sessions[sid];
              || (sid !in st.sessions && row == None)
              || (sid in st.sessions && row == st.sessions[sid])
              || exists key: FlowKey :: key.session == sid && LogsIn(env, st, step, key, row)
  {
    if step.GetStep? || step.PostStep? {
      ExtractionKeepsRows(env, st.sessions, step.req);
      var target := TargetOf(env, st, step);
      if target.None? || (step.PostStep? && target.value !in st.executions) {
        IdleNext(env, st, step);
      } else if step.GetStep? {
        GetNext(env, st, step, target.value);
      } else {
        PostNext(env, st, step, target.value);
        var f := EffectAt(env, st, step, target.value);
        if f.sessions != st.sessions && sid == target.value.session {
          assert LogsIn(env, st, step, target.value, f.sessions[sid]);
        }
      }
    }
  }

  /** A committed POST at `key` bound its session to the pending user it left there. */
  ghost predicate LogsIn(env: Env, st: System, step: Step, key: FlowKey, row: Option<Uuid>)
    requires ValidSystem(st)
  {
    && PostsTo(env, st, step, key)
    && var f := EffectAt(env, st, step, key);
       && f.logins > 0 && f.outcome == Success(SeeOther)
       && f.exec.context.pending.Some? && f.exec.context.pending.value.authenticated
       && row == Some(f.exec.context.pending.value.uid)
  }

  lemma StepKeepsValid(env: Env, st: System, step: Step)
    requires ValidSystem(st) && Allowed(step)
    ensures ValidSystem(Next(env, st, step))
  {
    var st' := Next(env, st, step);
    assert Intact(st'.source) by {
      if step.GetStep? || step.PostStep? {
        SourceIsFixed(env, st, step);
      }
    }
    forall key <- st'.executions
      ensures ValidExecution(st', key)
    {
      ExecutionStep(env, st, step, key);
      SessionStep(env, st, step, key.session);
      if key in st.executions {
        assert ValidExecution(st, key);
      } else {
        StartIsSound(st.source, key, step.req.now);
        ExtractionKeepsRows(env, st.sessions, step.req);
        GetNext(env, st, step, key);
      }
    }
  }

  lemma SourceIsFixed(env: Env, st: System, step: Step)
    requires ValidSystem(st) && (step.GetStep? || step.PostStep?)
    ensures Next(env, st, step).source == st.source && Next(env, st, step).users == st.users
  {
    var target := TargetOf(env, st, step);
    if target.None? || (step.PostStep? && target.value !in st.executions) {
      IdleNext(env, st, step);
    } else if step.GetStep? {
      GetNext(env, st, step, target.value);
    } else {
      PostNext(env, st, step, target.value);
    }
  }

  // Tokens and redirects

  /**
   A POST leaves the cookie alone and runs no login, or leaves a token of its session for the user who
   is pending, authenticated, in its execution.
   */
  lemma PostIssuesToken(env: Env, st: System, step: Step, key: FlowKey)
    requires SoundCodec(env) && ValidSystem(st) && PostsTo(env, st, step, key)
    ensures var f := EffectAt(env, st, step, key);
            var pending := f.exec.context.pending;
            || (f.cookie == step.req.cookie && f.logins == 0)
            || (pending.Some? && pending.value.authenticated && TokenFor(env, f.cookie, key.session, pending.value))
  {
    hide Check;
    hide HandleSubmission;
    hide PendingAfter;
    hide PostTo;
    hide ExtractSession;
    assert ValidExecution(st, key);
    var req := step.req;
    var session := SessionOf(env, st, step).value;
    ExtractionKeepsRows(env, st.sessions, req);
    SessionMatchesCookie(env, st.sessions, req);
    var e := st.executions[key];
    if !Admitted(st.users, session, req, e) {
      RefusedPostKeeps(env, st.users, session, req, e, st.sessions, req.cookie);
    } else if !Accepted(env, st.users, session, req, e) {
      RejectedPostKeeps(env, st.users, session, req, e, st.sessions, req.cookie);
    } else {
      var _ := AcceptedPostProceeds(env, st.users, session, req, e, st.sessions, req.cookie);
      var e' := SetPending(e, PendingAfter(env, st.users, req, e));
      AdvanceKeepsSound(e');
      CompleteIssuesToken(env, key.session, req.faults.update, Progress(Advance(e'), st.sessions, req.cookie, 0), 0);
    }
  }

  /** A committed login hands out a token of its session for the user its row is bound to. */
  lemma LoginIssuesToken(env: Env, st: System, step: Step, key: FlowKey, row: Option<Uuid>)
    requires SoundCodec(env) && ValidSystem(st) && LogsIn(env, st, step, key, row)
    ensures var pending := EffectAt(env, st, step, key).exec.context.pending.value;
            && TokenFor(env, ResponseTo(env, st, step).value.cookie, key.session, pending)
            && key.session in Next(env, st, step).sessions
            && Next(env, st, step).sessions[key.session] == Some(pending.uid)
  {
    PostNext(env, st, step, key);
    PostIssuesToken(env, st, step, key);
    assert ValidExecution(st, key);
    PostCommits(env, st, step, key);
  }

  /** What a POST leaves in the session's row. */
  lemma PostCommits(env: Env, st: System, step: Step, key: FlowKey)
    requires ValidSystem(st) && PostsTo(env, st, step, key)
    ensures var f := EffectAt(env, st, step, key);
            && key.session in st.sessions
            && (f.logins > 0 ==> f.exec.context.pending.Some? && f.exec.context.pending.value.authenticated)
            && f.sessions == (if f.logins > 0 && f.outcome == Success(SeeOther)
                              then st.sessions[key.session := Some(f.exec.context.pending.value.uid)] else st.sessions)
            && (f.logins == 0 && f.outcome == Success(SeeOther) ==> f.cookie == step.req.cookie)
  {
    hide Check;
    hide HandleSubmission;
    hide PendingAfter;
    hide PostTo;
    assert ValidExecution(st, key);
    var req := step.req;
    var session := SessionOf(env, st, step).value;
    ExtractionKeepsRows(env, st.sessions, req);
    var e := st.executions[key];
    if !Admitted(st.users, session, req, e) {
      RefusedPostKeeps(env, st.users, session, req, e, st.sessions, req.cookie);
    } else if !Accepted(env, st.users, session, req, e) {
      RejectedPostKeeps(env, st.users, session, req, e, st.sessions, req.cookie);
    } else {
      var k := AcceptedPostProceeds(env, st.users, session, req, e, st.sessions, req.cookie);
    }
  }

  /**
   The session that a request with a newly issued token is in has the administrator bit of the user
   the token names. Its row names that user exactly if the issuing POST committed, or the row named
   them before; after a failed commit it may name somebody else.
   */
  lemma IssuedTokenAgreesIff(env: Env, st: System, step: Step, key: FlowKey, later: Request)
    requires SoundCodec(env) && ValidSystem(st) && PostsTo(env, st, step, key)
    requires EffectAt(env, st, step, key).cookie != step.req.cookie
    requires later.cookie == EffectAt(env, st, step, key).cookie && !later.faults.session
    ensures var f := EffectAt(env, st, step, key);
            var rows := Next(env, st, step).sessions;
            && f.exec.context.pending.Some? && key.session in rows && key.session in st.sessions
            && var user := f.exec.context.pending.value;
               && ExtractSession(env, rows, later).outcome ==
                  Success(Session(key.session, rows[key.session], user.isAdmin))
               && (rows[key.session] == Some(user.uid) <==>
                   f.outcome == Success(SeeOther) || st.sessions[key.session] == Some(user.uid))
  {
    hide PostTo;
    PostNext(env, st, step, key);
    PostIssuesToken(env, st, step, key);
    PostCommits(env, st, step, key);
  }

  /** The cookie a request leaves session extraction with is its own or a new session's. */
  lemma ExtractionCookie(env: Env, sessions: Sessions, req: Request)
    requires SoundCodec(env)
    ensures var cookie := ExtractSession(env, sessions, req).cookie;
            || cookie == req.cookie
            || (cookie.Some? && env.decode(cookie.value) == Ok(Claims(req.freshSid, ISSUER, None, false, false)))
  {
    assert Claims(req.freshSid, ISSUER, None, false, false).iss == ISSUER;
  }

  /** A request that posts to no execution issues no other cookie. */
  lemma IdleCookie(env: Env, st: System, step: Step)
    requires SoundCodec(env) && ValidSystem(st) && (step.GetStep? || step.PostStep?)
    requires TargetOf(env, st, step).Some? ==> !PostsTo(env, st, step, TargetOf(env, st, step).value)
    ensures var cookie := ResponseTo(env, st, step).value.cookie;
            || cookie == step.req.cookie
            || (cookie.Some? && env.decode(cookie.value) == Ok(Claims(step.req.freshSid, ISSUER, None, false, false)))
  {
    ExtractionCookie(env, st.sessions, step.req);
  }

  /**
   In one step an execution gets past the entry of an accepted POST and past the logins it runs; the
   logins passed are those, and one more if the POST was made at a login.
   */
  lemma LoginsCountedInStep(env: Env, st: System, step: Step, key: FlowKey)
    requires ValidSystem(st) && key in st.executions && key in Next(env, st, step).executions
    ensures var e, e' := st.executions[key], Next(env, st, step).executions[key];
            var run := if PostsTo(env, st, step, key) then EffectAt(env, st, step, key).logins else 0;
            var accepted := AcceptedAt(env, st, step, key) && !e.completed;
            && e.Sound() && e'.Sound()
            && e'.flow == e.flow && e'.context.storage == e.context.storage
            && Stands(e') == Stands(e) + run + (if accepted then 1 else 0)
            && LoginsBetween(e, Stands(e), Stands(e')) ==
               run + (if accepted && e.Stage().kind.UserLogin? then 1 else 0)
  {
    hide Check;
    hide HandleSubmission;
    hide PendingAfter;
    hide PostTo;
    hide Post;
    hide Get;
    assert ValidExecution(st, key);
    ExecutionStep(env, st, step, key);
    if PostsTo(env, st, step, key) {
      PostNext(env, st, step, key);
      var e, session, req := st.executions[key], SessionOf(env, st, step).value, step.req;
      if !Admitted(st.users, session, req, e) {
        RefusedPostKeeps(env, st.users, session, req, e, st.sessions, req.cookie);
      } else if !Accepted(env, st.users, session, req, e) {
        RejectedPostKeeps(env, st.users, session, req, e, st.sessions, req.cookie);
      } else if e.completed {
        CompletedPostIsIdle(env, st.users, session, req, e, st.sessions, req.cookie);
      } else {
        AcceptedPostRunsLogins(env, st.users, session, req, e, st.sessions, req.cookie);
      }
    }
  }

  /** The response to the step is the final redirect of the execution at `key`. */
  ghost predicate Redirects(env: Env, st: System, step: Step, key: FlowKey)
    requires ValidSystem(st)
  {
    TargetOf(env, st, step) == Some(key) && ShowsRedirect(ResponseTo(env, st, step).value.outcome)
  }

  /** Only a completed execution redirects, to where the request asked, and it is gone afterwards. */
  lemma RedirectEndsExecution(env: Env, st: System, step: Step, key: FlowKey)
    requires ValidSystem(st) && Redirects(env, st, step, key)
    ensures key in st.executions && st.executions[key].completed
    ensures step.req.next.Some? &&
            ResponseTo(env, st, step).value.outcome.value.data.component == Redirect(step.req.next.value)
    ensures key !in Next(env, st, step).executions
  {
    if step.PostStep? {
      if key !in st.executions {
        IdleNext(env, st, step);
        assert false;
      } else {
        PostNext(env, st, step, key);
        PostRedirectIsRemoval(env, st.users, SessionOf(env, st, step).value, step.req, st.executions[key],
                              st.sessions, step.req.cookie);
      }
    } else {
      GetRedirects(env, st, step, key);
    }
  }

  lemma GetRedirects(env: Env, st: System, step: Step, key: FlowKey)
    requires ValidSystem(st) && step.GetStep? && Redirects(env, st, step, key)
    ensures key in st.executions && st.executions[key].completed
    ensures step.req.next.Some? &&
            ResponseTo(env, st, step).value.outcome.value.data.component == Redirect(step.req.next.value)
    ensures key !in Next(env, st, step).executions
  {
    GetNext(env, st, step, key);
    StartIsSound(st.source, key, step.req.now);
    var found := FoundBy(st, key, step.req.now);
    if found.Ready? {
      var session := SessionOf(env, st, step).value;
      if !step.req.faults.connection && SessionUser(st.users, session).Success? {
        RedirectIsRemoval(found.exec, None, ContextFor(found.exec, step.req, SessionUser(st.users, session).value));
      }
    }
  }
}
