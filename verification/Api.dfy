/** The request handlers, as they change the server in place. */
module Api {
  import opened Wrappers
  import opened Model
  import opened Tables
  import opened Closure
  import opened Executions
  import opened Checks
  import opened Executor
  import opened Requests
  import Submissions

  class Database {
    var sessions: Sessions
    var users: seq<UserRow>

    constructor (sessions: Sessions, users: seq<UserRow>)
      ensures this.sessions == sessions && this.users == users
    {
      this.sessions := sessions;
      this.users := users;
    }

    method Begin() returns (tx: Transaction)
      ensures fresh(tx) && tx.sessions == sessions
    {
      tx := new Transaction(sessions);
    }
  }

  /** The session table as one transaction sees it; a transaction that is not committed is forgotten. */
  class Transaction {
    var sessions: Sessions

    constructor (sessions: Sessions)
      ensures this.sessions == sessions
    {
      this.sessions := sessions;
    }

    method Commit(database: Database)
      modifies database
      ensures database.sessions == sessions && database.users == old(database.users)
    {
      database.sessions := sessions;
    }
  }

  class Cookies {
    var session: Option<string>

    constructor (session: Option<string>)
      ensures this.session == session
    {
      this.session := session;
    }
  }

  // Sessions

  method NewSession(env: Env, database: Database, cookies: Cookies, req: Request) returns (r: Outcome<Session>)
    modifies database, cookies
    ensures database.users == old(database.users)
    ensures old(cookies.session) == req.cookie ==>
              Extraction(database.sessions, cookies.session, r) == MakeNewSession(env, old(database.sessions), req)
  {
    if req.faults.session {
      return Failure(Database);
    }
    if req.freshSid in database.sessions {
      return Failure(Conflict);
    }
    database.sessions := database.sessions[req.freshSid := None];
    match env.encode(Claims(req.freshSid, ISSUER, None, false, false)) {
      case Err(error) =>
        return Failure(error);
      case Ok(token) =>
        cookies.session := Some(token);
    }
    r := Success(Session(req.freshSid, None, false));
  }

  method SessionFromRequest(env: Env, database: Database, cookies: Cookies, req: Request) returns (r: Outcome<Session>)
    requires cookies.session == req.cookie
    modifies database, cookies
    ensures database.users == old(database.users)
    ensures Extraction(database.sessions, cookies.session, r) == ExtractSession(env, old(database.sessions), req)
  {
    match cookies.session {
      case None =>
        r := NewSession(env, database, cookies, req);
      case Some(token) =>
        match env.decode(token) {
          case Err(error) =>
            r := Failure(error);
          case Ok(claims) =>
            if req.faults.session {
              r := Failure(Database);
            } else if claims.sid in database.sessions {
              r := Success(Session(claims.sid, database.sessions[claims.sid], claims.isAdmin));
            } else {
              r := NewSession(env, database, cookies, req);
            }
        }
    }
  }

  // Submissions

  method HandlePasswordStage(env: Env, users: seq<UserRow>, req: Request, execution: FlowExecution,
                             backends: seq<PasswordBackend>) returns (r: Outcome<()>)
    modifies execution
    ensures (execution.View(), r) == HandlePassword(env, users, req, old(execution.View()), backends)
  {
    if execution.context.pending.None? {
      return Failure(Submission(NoPendingUser));
    }
    var pending := execution.context.pending.value;
    var field := StringField("password", req.form);
    if field.Err? {
      return Failure(Submission(field.error));
    }
    if Internal in backends {
      if req.faults.password {
        return Failure(Database);
      }
      var found := FindByUid(users, pending.uid);
      match found {
        case Failure(error) => return Failure(error);
        case Panic(site) => return Panic(site);
        case Success(None) => return Failure(Submission(NoPendingUser));
        case Success(Some(row)) =>
          match env.verify(row.password, field.value) {
            case Broken => return Failure(PwHash);
            case Mismatch =>
            case Valid =>
              execution.UseMutContext((ctx: ExecutionContext) =>
                if ctx.pending.Some? then ctx.(pending := Some(ctx.pending.value.(authenticated := true))) else ctx);
              return Success(());
          }
      }
    }
    r := Failure(Submission(Field("password", Invalid("Invalid Password"))));
  }

  method HandleStageOf(env: Env, users: seq<UserRow>, req: Request, execution: FlowExecution, stage: Stage)
    returns (r: Outcome<()>)
    requires stage.kind.Identification? && stage.kind.password.Some? ==>
               Answers(execution.context.storage.stages, stage.kind.password.value)
    modifies execution
    ensures (execution.View(), r) == HandleStage(env, users, req, old(execution.View()), stage.kind)
  {
    match stage.kind {
      case Identification(password, fields) =>
        var found := Identify(env, users, req, fields);
        match found {
          case Failure(error) => return Failure(error);
          case Panic(site) => return Panic(site);
          case Success(row) =>
            execution.UseMutContext((ctx: ExecutionContext) => ctx.(pending := Some(Identified(row))));
        }
        if password.Some? {
          var next := execution.LookupStage(password.value);
          if next.kind.Password? {
            r := HandlePasswordStage(env, users, req, execution, next.kind.backends);
          } else {
            r := Panic(NotPasswordStage);
          }
          return;
        }
        r := Success(());
      case Password(backends) =>
        r := HandlePasswordStage(env, users, req, execution, backends);
      case Deny | PromptStage(_) | UserLogin | UserLogout | UserWrite | Consent(_) =>
        r := Success(());
    }
  }

  method Submit(env: Env, users: seq<UserRow>, req: Request, execution: FlowExecution) returns (r: Outcome<()>)
    requires execution.View().Sound()
    modifies execution
    ensures (execution.View(), r) == HandleSubmission(env, users, req, old(execution.View()))
  {
    if execution.isCompleted {
      return Success(());
    }
    var entry := execution.GetEntry();
    assert entry in execution.flow.entries;
    var stage := execution.LookupStage(entry.stage);
    r := HandleStageOf(env, users, req, execution, stage);
  }

  // Server-side stages

  method LoginStage(env: Env, sid: string, fails: bool, user: PendingUser, tx: Transaction, cookies: Cookies)
    returns (r: Outcome<()>)
    modifies tx, cookies
    ensures forall e, logins ::
              Login(env, sid, fails, Progress(e, old(tx.sessions), old(cookies.session), logins), user) ==
              (Progress(e, tx.sessions, cookies.session, logins), r)
  {
    if cookies.session.None? {
      return Failure(InvalidSessionCookie);
    }
    var decoded := env.decode(cookies.session.value);
    if decoded.Err? {
      return Failure(decoded.error);
    }
    var claims := decoded.value;
    claims := claims.(sub := Some(user.uid));
    claims := claims.(authenticated := true);
    claims := claims.(isAdmin := user.isAdmin);
    var token := env.encode(claims);
    if token.Err? {
      return Failure(token.error);
    }
    cookies.session := Some(token.value);
    if fails {
      return Failure(Database);
    }
    tx.sessions := BindSession(tx.sessions, sid, user.uid);
    r := Success(());
  }

  method CompleteStages(env: Env, tx: Transaction, execution: FlowExecution, cookies: Cookies, sid: string,
                        updateFails: nat -> bool) returns (r: Outcome<()>, ghost logins: nat)
    requires execution.View().Sound()
    modifies tx, execution, cookies
    ensures (Progress(execution.View(), tx.sessions, cookies.session, logins), r) ==
            Requests.Complete(env, sid, updateFails,
                              Progress(old(execution.View()), old(tx.sessions), old(cookies.session), 0), 0)
  {
    hide Login;
    ghost var start := Progress(execution.View(), tx.sessions, cookies.session, 0);
    var iterations := 0;
    logins := 0;
    while true
      invariant execution.View().Sound()
      invariant iterations >= 0
      invariant Requests.Complete(env, sid, updateFails, start, 0) ==
                Requests.Complete(env, sid, updateFails,
                                  Progress(execution.View(), tx.sessions, cookies.session, logins), iterations)
      decreases execution.View().EntriesLeft()
    {
      if execution.isCompleted {
        break;
      }
      var entry := execution.GetEntry();
      assert entry in execution.flow.entries;
      var stage := execution.LookupStage(entry.stage);
      if stage.kind.RequiresInput() {
        break;
      }
      if iterations > MAX_ITERATIONS {
        break;
      }
      iterations := iterations + 1;
      match stage.kind {
        case UserLogin =>
          if execution.context.pending.None? {
            return Failure(Submission(NoPendingUser)), logins;
          }
          var user := execution.context.pending.value;
          if !user.authenticated {
            execution.SetError(ExecutionError(Some(entry.stage), "Authentication of pending user failed"));
            break;
          }
          ghost var before := Progress(execution.View(), tx.sessions, cookies.session, logins);
          var loggedIn := LoginStage(env, sid, updateFails(iterations - 1), user, tx, cookies);
          assert Login(env, sid, updateFails(iterations - 1), before, user) ==
                 (Progress(execution.View(), tx.sessions, cookies.session, logins), loggedIn);
          if !loggedIn.Success? {
            return loggedIn, logins;
          }
          logins := logins + 1;
        case UserLogout => return Panic(LogoutStage), logins;
        case UserWrite => return Panic(WriteStage), logins;
        case _ => assert false;
      }
      AdvanceKeepsSound(execution.View());
      execution.CompleteCurrent();
    }
    r := Success(());
  }

  // Handlers

  class Server {
    const env: Env
    const executor: FlowExecutor
    const database: Database

    constructor (env: Env, source: Source, sessions: Sessions, users: seq<UserRow>)
      requires Intact(source)
      ensures Valid() && View() == System(map[], sessions, users, source)
    {
      this.env := env;
      executor := new FlowExecutor(source);
      database := new Database(sessions, users);
    }

    ghost predicate Valid()
      reads executor, executor.executions.Values
    {
      executor.Valid()
    }

    /** The state of the server as a value. */
    ghost function View(): System
      reads executor, executor.executions.Values, database
    {
      System(executor.View(), database.sessions, database.users, executor.source)
    }

    /** The part of a POST between finding the execution and answering. */
    method PostToExecution(session: Session, req: Request, execution: FlowExecution, cookies: Cookies)
      returns (r: Outcome<Body>)
      requires execution.View().Sound()
      modifies executor, database, cookies, execution
      ensures executor.source == old(executor.source) && database.users == old(database.users)
      ensures var f := PostTo(env, old(database.users), session, req, old(execution.View()),
                              old(database.sessions), old(cookies.session));
              && execution.View() == f.exec && database.sessions == f.sessions
              && cookies.session == f.cookie && r == f.outcome
              && executor.executions ==
                 if f.removed then Remove(old(executor.executions), execution.key) else old(executor.executions)
    {
      hide Checks.Check;
      hide Requests.Data;
      hide HandleSubmission;
      hide Requests.Complete;
      if req.faults.connection {
        return Failure(ApiError.Database);
      }
      var tx := database.Begin();
      var user := SessionUser(database.users, session);
      if !user.Success? {
        return if user.Failure? then Failure(user.error) else Panic(user.site);
      }
      var ctx := execution.GetCheckContext(CheckRequest(req.next, user.value, req.engine));
      var verdict := execution.Check(ctx);
      if verdict.Unfinished? {
        return Panic(GroupBinding);
      }
      if verdict.Refuse? {
        r := execution.Data(None, ctx, executor);
        return;
      }
      SubmissionKeepsSound(env, database.users, req, execution.View());
      var submitted := Submit(env, database.users, req, execution);
      match submitted {
        case Failure(Submission(error)) =>
          r := execution.Data(Some(error), ctx, executor);
        case Failure(error) =>
          r := Failure(error);
        case Panic(site) =>
          r := Panic(site);
        case Success(_) =>
          AdvanceKeepsSound(execution.View());
          execution.CompleteCurrent();
          var done, _ := CompleteStages(env, tx, execution, cookies, session.sessionId, req.faults.update);
          if !done.Success? {
            return ForwardError(done);
          }
          if req.faults.commit {
            return Failure(ApiError.Database);
          }
          tx.Commit(database);
          r := Success(SeeOther);
      }
    }

    /** A POST whose session is known. */
    method PostInSession(session: Session, req: Request, cookies: Cookies) returns (r: Outcome<Body>)
      requires Valid()
      modifies executor, executor.executions.Values, database, cookies
      ensures Valid()
      ensures forall key <- old(View()).executions :: old(View()).executions[key].Sound()
      ensures (View(), Response(r, cookies.session)) ==
              PostIn(env, old(View()), session, req, old(cookies.session))
    {
      hide PostTo;
      hide Execution.Sound;
      executor.ViewIsSound();
      var key := GetKey(session, req.flow);
      if key.None? {
        return Failure(NotFound);
      }
      var execution := executor.GetExecution(key.value, false, req.now);
      if execution.None? {
        return Failure(NotFound);
      }
      ghost var e := execution.value.View();
      ghost var f := PostTo(env, database.users, session, req, e, database.sessions, cookies.session);
      Submissions.PostKeepsSound(env, database.users, session, req, e, database.sessions, cookies.session);
      ghost var st := View();
      assert st.executions == old(executor.View());
      r := PostToExecution(session, req, execution.value, cookies);
      executor.SteppedOne(st.executions, key.value, execution.value, f.removed);
      assert View() == Apply(st, key.value, f);
    }

    /** `POST /:flow_slug` is the specified step, on every state and every request. */
    method PostFlow(req: Request) returns (response: Response)
      requires Valid()
      modifies executor, executor.executions.Values, database
      ensures Valid()
      ensures forall key <- old(View()).executions :: old(View()).executions[key].Sound()
      ensures (View(), response) == Post(env, old(View()), req)
    {
      executor.ViewIsSound();
      var cookies := new Cookies(req.cookie);
      var extracted := SessionFromRequest(env, database, cookies, req);
      var outcome: Outcome<Body>;
      match extracted {
        case Failure(error) => outcome := Failure(error);
        case Panic(site) => outcome := Panic(site);
        case Success(session) => outcome := PostInSession(session, req, cookies);
      }
      response := Response(outcome, cookies.session);
    }

    method GetFromExecution(session: Session, req: Request, execution: FlowExecution) returns (r: Outcome<Body>)
      requires executor.Valid() && execution.View().Sound()
      modifies executor
      ensures executor.Valid() && executor.source == old(executor.source)
      ensures var rendering := GetFrom(database.users, session, req, old(execution.View()));
              && r == rendering.outcome
              && executor.View() ==
                 if rendering.invalidates then Remove(old(executor.View()), execution.key) else old(executor.View())
    {
      hide Data;
      if req.faults.connection {
        return Failure(ApiError.Database);
      }
      var user := SessionUser(database.users, session);
      if !user.Success? {
        return if user.Failure? then Failure(user.error) else Panic(user.site);
      }
      var ctx := execution.GetCheckContext(CheckRequest(req.next, user.value, req.engine));
      r := execution.Data(None, ctx, executor);
    }

    /** The request does not start a flow whose walk never ends. */
    ghost predicate Ends(req: Request)
      requires Valid()
      reads executor, executor.executions.Values, database
    {
      executor.ViewIsSound();
      Get(env, View(), req).1.outcome != Panic(EndlessWalk)
    }

    method GetInSession(session: Session, req: Request) returns (r: Outcome<Body>)
      requires Valid()
      requires GetKey(session, req.flow).Some? ==>
                 !executor.Available(GetKey(session, req.flow).value, true, req.now).Endless?
      modifies executor
      ensures Valid() && database.sessions == old(database.sessions)
      ensures forall key <- old(View()).executions :: old(View()).executions[key].Sound()
      ensures (View(), r) == GetIn(old(View()), session, req)
    {
      hide GetFrom;
      hide StartExecution;
      executor.ViewIsSound();
      var key := GetKey(session, req.flow);
      if key.None? {
        return Failure(MiscInternal);
      }
      var execution := executor.GetExecution(key.value, true, req.now);
      if execution.None? {
        return Failure(NotFound);
      }
      ghost var e := execution.value.View();
      r := GetFromExecution(session, req, execution.value);
      assert Remove(old(executor.View())[key.value := e], key.value) == Remove(old(executor.View()), key.value);
    }

    /** `GET /:flow_slug` is the specified step, on every state and every request that ends. */
    method GetFlow(req: Request) returns (response: Response)
      requires Valid() && Ends(req)
      modifies executor, database
      ensures Valid()
      ensures forall key <- old(View()).executions :: old(View()).executions[key].Sound()
      ensures (View(), response) == Get(env, old(View()), req)
    {
      executor.ViewIsSound();
      var cookies := new Cookies(req.cookie);
      var extracted := SessionFromRequest(env, database, cookies, req);
      var outcome: Outcome<Body>;
      match extracted {
        case Failure(error) => outcome := Failure(error);
        case Panic(site) => outcome := Panic(site);
        case Success(session) => outcome := GetInSession(session, req);
      }
      response := Response(outcome, cookies.session);
    }
  }
}
