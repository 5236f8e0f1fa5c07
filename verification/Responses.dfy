/**
 What a request is answered, in terms of the stored rows, the submitted form and the state of the
 execution alone.
 */
module Responses {
  import opened Wrappers
  import opened Model
  import opened Tables
  import opened Closure
  import opened Executions
  import opened Checks
  import opened Requests
  import opened Completion
  import opened Submissions

  // The user of a session

  /** Row `i` is the only one of the user. */
  ghost predicate OnlyRow(users: seq<UserRow>, uid: Uuid, i: nat) {
    && i < |users| && users[i].uid == uid
    && forall k | 0 <= k < |users| && users[k].uid == uid :: k == i
  }

  ghost predicate NoRow(users: seq<UserRow>, uid: Uuid) {
    forall k | 0 <= k < |users| :: users[k].uid != uid
  }

  ghost predicate SeveralRows(users: seq<UserRow>, uid: Uuid, i: nat, j: nat) {
    i < j < |users| && users[i].uid == uid && users[j].uid == uid
  }

  lemma FindByUidCases(users: seq<UserRow>, uid: Uuid) returns (i: nat, j: nat)
    ensures match FindByUid(users, uid)
            case Success(None) => NoRow(users, uid)
            case Success(Some(row)) => OnlyRow(users, uid, i) && row == users[i]
            case Failure(error) => error.Database? && SeveralRows(users, uid, i, j)
            case Panic(_) => false
  {
    i, j := RowsShape(users, (row: UserRow) => row.uid == uid);
  }

  /**
   The user of a request is the one row of the user its session is bound to: there is none exactly if
   the session is unbound or the row is gone, and an error exactly if there are several such rows.
   */
  lemma SessionUserIsRow(users: seq<UserRow>, session: Session)
    ensures SessionUser(users, session) == Success(None) <==>
            (session.userId.Some? ==> NoRow(users, session.userId.value))
    ensures forall i: nat :: session.userId.Some? && OnlyRow(users, session.userId.value, i) ==>
              SessionUser(users, session) ==
              Success(Some(PartialUser(users[i].uid, users[i].name, users[i].administrator,
                                       users[i].passwordChangeDate)))
    ensures SessionUser(users, session) == Failure(Database) <==>
            session.userId.Some? && exists i: nat, j: nat :: SeveralRows(users, session.userId.value, i, j)
    ensures SessionUser(users, session).Success? && SessionUser(users, session).value.Some? ==>
              session.userId.Some? && exists i: nat :: OnlyRow(users, session.userId.value, i)
  {
    if session.userId.Some? {
      var i, j := FindByUidCases(users, session.userId.value);
      assert FindByUid(users, session.userId.value).Failure? ==> SeveralRows(users, session.userId.value, i, j);
      assert FindByUid(users, session.userId.value).Success? ==>
          OnlyRow(users, session.userId.value, i) || NoRow(users, session.userId.value);
    }
  }

  // Admission

  /** The row of the session's user meets the requirement. */
  ghost predicate RowMeets(users: seq<UserRow>, session: Session, requirement: AuthenticationRequirement) {
    match requirement
    case Superuser =>
      session.userId.Some? && exists i: nat :: OnlyRow(users, session.userId.value, i) && users[i].administrator
    case Required => session.userId.Some? && exists i: nat :: OnlyRow(users, session.userId.value, i)
    case Unauthenticated => session.userId.Some? ==> NoRow(users, session.userId.value)
    case Ignored => true
  }

  /** What a check is told: the request, the user of its session, and who is pending. */
  function Told(e: Execution, req: Request, user: Option<PartialUser>): CheckContext {
    CheckContext(CheckRequest(req.next, user, req.engine), e.context.pending)
  }

  /**
   A request is admitted exactly if connection and user lookup work, the row of the session's user meets
   the requirement, and every enabled binding is satisfied for that user and the pending one.
   */
  lemma AdmittedIff(users: seq<UserRow>, session: Session, req: Request, e: Execution)
    requires e.Sound()
    ensures BindingsResolve(e.context.storage, e.flow.bindings + e.Entry().bindings)
    ensures Admitted(users, session, req, e) <==>
            && !req.faults.connection
            && SessionUser(users, session).Success?
            && RowMeets(users, session, e.flow.authentication)
            && forall b <- e.flow.bindings + e.Entry().bindings ::
                b.enabled ==> Satisfied(e.context, Told(e, req, SessionUser(users, session).value), b)
  {
    hide Satisfied;
    hide Check;
    assert e.Entry() in e.flow.entries;
    SessionUserIsRow(users, session);
    if SessionUser(users, session).Success? {
      var user := SessionUser(users, session).value;
      CheckPassesIffAllMet(e, Told(e, req, user));
      RequirementIsOfRow(users, session, e.flow.authentication);
    } else {
      CheckPassesIffAllMet(e, Told(e, req, None));
    }
  }

  lemma RequirementIsOfRow(users: seq<UserRow>, session: Session, requirement: AuthenticationRequirement)
    requires SessionUser(users, session).Success?
    ensures MeetsRequirement(requirement, SessionUser(users, session).value) <==> RowMeets(users, session, requirement)
  {
    SessionUserIsRow(users, session);
    if SessionUser(users, session).value.Some? {
      var i: nat :| OnlyRow(users, session.userId.value, i);
      assert !NoRow(users, session.userId.value);
    }
  }

  /** A refusal for the requirement names it. */
  lemma RequirementFailsFirst(e: Execution, ctx: CheckContext)
    requires e.Sound() && !MeetsRequirement(e.flow.authentication, ctx.request.user)
    ensures Check(e, ctx) == Refuse(match e.flow.authentication
                                    case Superuser => "You must be a superuser to access this flow"
                                    case Required => "You must be logged in to access this flow"
                                    case Unauthenticated => "You must not be logged in to access this flow"
                                    case Ignored => "")
  {
  }

  /** Nobody whose row does not meet the requirement gets past it: neither into the flow nor to its pages. */
  lemma RequirementGuards(env: Env, users: seq<UserRow>, session: Session, req: Request, e: Execution,
                          sessions: Sessions, cookie: Option<string>)
    requires e.Sound() && !RowMeets(users, session, e.flow.authentication)
    ensures var f := PostTo(env, users, session, req, e, sessions, cookie);
            f.exec == e && f.sessions == sessions && f.cookie == cookie && f.outcome != Success(SeeOther)
    ensures var r := GetFrom(users, session, req, e);
            !e.completed && r.outcome.Success? ==>
              r.outcome == Success(Page(FlowData(e.flow.title, None, None,
                                                 AccessDenied("Flow does not apply to current user"))))
  {
    hide PostTo;
    hide Data;
    hide RowMeets;
    AdmittedIff(users, session, req, e);
    RefusedPostKeeps(env, users, session, req, e, sessions, cookie);
    if SessionUser(users, session).Success? {
      RequirementIsOfRow(users, session, e.flow.authentication);
      RequirementFailsFirst(e, Told(e, req, SessionUser(users, session).value));
      if !e.completed {
        RefusedPage(e, None, Told(e, req, SessionUser(users, session).value));
      }
    }
  }

  // Pages

  /** An execution that is still running, but whose checks refuse, shows nothing of itself. */
  lemma RefusedPage(e: Execution, error: Option<SubmissionError>, ctx: CheckContext)
    requires e.Sound() && !e.completed && Check(e, ctx).Refuse?
    ensures Data(e, error, ctx) ==
            Rendering(Success(Page(FlowData(e.flow.title, error, None,
                                            AccessDenied("Flow does not apply to current user")))), false)
  {
    hide Check;
  }

  /** A completed execution redirects to the target, or says that there is none. */
  lemma CompletedPage(e: Execution, error: Option<SubmissionError>, ctx: CheckContext)
    requires e.Sound() && e.completed && !Check(e, ctx).Unfinished?
    ensures var to := ctx.request.next;
            Data(e, error, ctx) ==
            Rendering(Success(Page(FlowData(e.flow.title, error, e.context.pending,
                                            if to.Some? then Redirect(to.value)
                                            else ErrorMessage("Missing Redirect")))), to.Some?)
  {
    hide Check;
  }

  /** A running execution shows its error, or else its stage. */
  lemma RunningPage(e: Execution, error: Option<SubmissionError>, ctx: CheckContext)
    requires e.Sound() && !e.completed && Check(e, ctx).Pass?
    ensures var page := (component: FlowComponent) =>
              Rendering(Success(Page(FlowData(e.flow.title, error, e.context.pending, component))), false);
            Data(e, error, ctx) ==
            if e.context.error.Some? then page(ErrorMessage(e.context.error.value.message))
            else match e.Stage().kind
              case Deny => page(AccessDenied("Access denied"))
              case PromptStage(_) => Rendering(Panic(PromptComponent), false)
              case Identification(password, fields) => page(IdentificationForm(fields, password.Some?))
              case Password(_) => page(PasswordForm)
              case Consent(_) => Rendering(Panic(ConsentComponent), false)
              case UserLogin | UserLogout | UserWrite =>
                page(AccessDenied("Internal error while constructing component"))
  {
    hide Check;
  }

  // Identification

  /** The form names the row, by the first field of the stage that matches anybody. */
  ghost predicate Names(env: Env, users: seq<UserRow>, form: Value, fields: seq<UserField>, row: UserRow) {
    && HasText(form, "uid")
    && exists field, i: nat :: OneMatch(env, users, form.fields["uid"].s, fields, field, i) && users[i] == row
  }

  ghost predicate NamesNobody(env: Env, users: seq<UserRow>, text: string, fields: seq<UserField>) {
    forall field, k: nat | field in fields :: !MatchesAt(env, users, text, field, k)
  }

  ghost predicate NamesSeveral(env: Env, users: seq<UserRow>, text: string, fields: seq<UserField>) {
    exists field, i: nat, j: nat :: SeveralMatch(env, users, text, fields, field, i, j)
  }

  lemma NamesOne(env: Env, users: seq<UserRow>, form: Value, fields: seq<UserField>, a: UserRow, b: UserRow)
    requires Names(env, users, form, fields, a) && Names(env, users, form, fields, b)
    ensures a == b
  {
  }

  /** Which of three things a text does is decided, and by the lookup. */
  lemma LookupUserIffNamed(env: Env, users: seq<UserRow>, form: Value, fields: seq<UserField>)
    requires HasText(form, "uid")
    ensures var text := form.fields["uid"].s;
            var found := LookupUser(env, users, text, fields);
            && (found == Success(None) <==> NamesNobody(env, users, text, fields))
            && (found == Failure(Database) <==> NamesSeveral(env, users, text, fields))
            && (forall row :: found == Success(Some(row)) <==> Names(env, users, form, fields, row))
            && (found.Failure? ==> found.error.Database?) && !found.Panic?
  {
    hide LookupUser;
    var text := form.fields["uid"].s;
    LookupUserFindsFirstMatch(env, users, text, fields);
    LookupUserFailsIffSeveralMatch(env, users, text, fields);
    var found := LookupUser(env, users, text, fields);
    if found.Success? && found.value.Some? {
      forall row | Names(env, users, form, fields, row)
        ensures row == found.value.value
      {
        NamesOne(env, users, form, fields, row, found.value.value);
      }
    }
  }

  /** A submission identifies exactly the row its form names by a field the stage allows. */
  lemma IdentifiedIffNamed(env: Env, users: seq<UserRow>, req: Request, e: Execution, row: UserRow)
    requires e.Sound()
    ensures IdentifiedRow(env, users, req, e) == Some(row) <==>
            && !e.completed && e.Stage().kind.Identification? && !req.faults.lookup
            && Names(env, users, req.form, e.Stage().kind.userFields, row)
  {
    hide LookupUser;
    hide Names;
    if !e.completed && e.Stage().kind.Identification? {
      if HasText(req.form, "uid") {
        LookupUserIffNamed(env, users, req.form, e.Stage().kind.userFields);
      } else {
        NoTextNoName(env, users, req.form, e.Stage().kind.userFields, row);
      }
    }
  }

  lemma NoTextNoName(env: Env, users: seq<UserRow>, form: Value, fields: seq<UserField>, row: UserRow)
    requires !HasText(form, "uid")
    ensures !Names(env, users, form, fields, row)
  {
  }

  /** The error for a field that is missing or not a string. */
  function FieldError(form: Value, name: string): SubmissionError {
    Field(name, if form.Object? && name in form.fields then InvalidType(StringType, TypeOf(form.fields[name]))
                else FieldErrorKind.Missing)
  }

  function TypeOf(value: Value): FieldType {
    match value
    case Null => NullType
    case Bool(_) => BooleanType
    case Number(_) => NumberType
    case Str(_) => StringType
    case Array(_) => ArrayType
    case Object(_) => ObjectType
  }

  /** What an identification stage answers to a submission that names nobody. */
  lemma IdentificationRejects(env: Env, users: seq<UserRow>, req: Request, e: Execution)
    requires e.Sound() && !e.completed && e.Stage().kind.Identification?
    ensures var r, fields := HandleSubmission(env, users, req, e), e.Stage().kind.userFields;
            if !HasText(req.form, "uid") then r == (e, Failure(Submission(FieldError(req.form, "uid"))))
            else
              var text := req.form.fields["uid"].s;
              if req.faults.lookup then r == (e, Failure(Database))
              else
                && (NamesSeveral(env, users, text, fields) ==> r == (e, Failure(Database)))
                && (NamesNobody(env, users, text, fields) <==>
                    r.1 == Failure(Submission(Field("uid", Invalid("Failed to authenticate")))))
                && (NamesNobody(env, users, text, fields) ==> r.0 == e)
  {
    hide LookupUser;
    hide NamesSeveral;
    hide NamesNobody;
    hide Names;
    assert e.Entry() in e.flow.entries;
    if HasText(req.form, "uid") {
      LookupUserIffNamed(env, users, req.form, e.Stage().kind.userFields);
    }
  }

  /** Without a password reference, a submission that names a row is accepted and leaves its user pending. */
  lemma IdentificationAccepts(env: Env, users: seq<UserRow>, req: Request, e: Execution, row: UserRow)
    requires e.Sound() && !e.completed && e.Stage().kind.Identification? && !req.faults.lookup
    requires Names(env, users, req.form, e.Stage().kind.userFields, row)
    ensures var named := SetPending(e, Some(PendingUser(row.uid, row.name, false, row.administrator)));
            var r := HandleSubmission(env, users, req, e);
            match e.Stage().kind.password
            case None => r == (named, Success(()))
            case Some(q) =>
              && Answers(e.context.storage.stages, q)
              && match Find(e.context.storage.stages, q).kind
                 case Password(backends) => r == HandlePassword(env, users, req, named, backends)
                 case _ => r == (named, Panic(NotPasswordStage))
  {
    hide HandlePassword;
    hide LookupUser;
    assert e.Entry() in e.flow.entries;
    LookupUserIffNamed(env, users, req.form, e.Stage().kind.userFields);
  }

  // Passwords

  /** What a password check answers, from the form and the rows of the pending user. */
  lemma PasswordAnswers(env: Env, users: seq<UserRow>, req: Request, e: Execution, backends: seq<PasswordBackend>)
    returns (i: nat, j: nat)
    ensures var r := HandlePassword(env, users, req, e, backends);
            var wrong := Failure(Submission(Field("password", Invalid("Invalid Password"))));
            if e.context.pending.None? then r == (e, Failure(Submission(NoPendingUser)))
            else if !HasText(req.form, "password") then r == (e, Failure(Submission(FieldError(req.form, "password"))))
            else if Internal !in backends then r == (e, wrong)
            else if req.faults.password then r == (e, Failure(Database))
            else
              var user := e.context.pending.value;
              || (NoRow(users, user.uid) && r == (e, Failure(Submission(NoPendingUser))))
              || (SeveralRows(users, user.uid, i, j) && r == (e, Failure(Database)))
              || (OnlyRow(users, user.uid, i) &&
                  match env.verify(users[i].password, req.form.fields["password"].s)
                  case Valid =>
                    r == (SetPending(e, Some(PendingUser(user.uid, user.name, true, user.isAdmin))), Success(()))
                  case Mismatch => r == (e, wrong)
                  case Broken => r == (e, Failure(PwHash)))
  {
    hide FindByUid;
    i, j := 0, 0;
    if e.context.pending.Some? {
      i, j := FindByUidCases(users, e.context.pending.value.uid);
    }
  }

  /** A challenge is met exactly if the password of the form fits the hash in the user's only row. */
  lemma MeetsIff(env: Env, users: seq<UserRow>, req: Request, challenge: Challenge)
    ensures Meets(env, users, req, challenge) <==>
            && Internal in challenge.backends && !req.faults.password && HasText(req.form, "password")
            && exists i: nat :: OnlyRow(users, challenge.user.uid, i) &&
                                env.verify(users[i].password, req.form.fields["password"].s).Valid?
  {
    var i, j := FindByUidCases(users, challenge.user.uid);
    hide FindByUid;
    assert FindByUid(users, challenge.user.uid).Success? ==>
        OnlyRow(users, challenge.user.uid, i) || NoRow(users, challenge.user.uid);
  }

  // Sessions

  /**
   The session of a request: the stored one its cookie names, and otherwise a new and unbound one, under
   the new id and with a token for it. A cookie that does not decode gets neither.
   */
  lemma ExtractionAnswers(env: Env, sessions: Sessions, req: Request)
    ensures var x := ExtractSession(env, sessions, req);
            var failed := (error: ApiError) => Extraction(sessions, req.cookie, Failure(error));
            if req.cookie.Some? && env.decode(req.cookie.value).Err? then
              x == failed(env.decode(req.cookie.value).error)
            else if req.faults.session then x == failed(Database)
            else if req.cookie.Some? && env.decode(req.cookie.value).value.sid in sessions then
              var claims := env.decode(req.cookie.value).value;
              x == Extraction(sessions, req.cookie, Success(Session(claims.sid, sessions[claims.sid], claims.isAdmin)))
            else if req.freshSid in sessions then x == failed(Conflict)
            else
              var token := env.encode(Claims(req.freshSid, "authust", None, false, false));
              && x.sessions == sessions[req.freshSid := None]
              && x.cookie == (if token.Ok? then Some(token.value) else req.cookie)
              && x.outcome == if token.Ok? then Success(Session(req.freshSid, None, false)) else Failure(token.error)
  {
  }

  // Whole requests

  /** A request that cannot reach the checks says why. */
  lemma UnreachedAnswers(env: Env, users: seq<UserRow>, session: Session, req: Request, e: Execution,
                         sessions: Sessions, cookie: Option<string>)
    requires e.Sound()
    ensures req.faults.connection || SessionUser(users, session).Failure? ==>
              && PostTo(env, users, session, req, e, sessions, cookie).outcome == Failure(Database)
              && GetFrom(users, session, req, e) == Rendering(Failure(Database), false)
  {
    hide Check;
    hide Data;
    hide HandleSubmission;
    if session.userId.Some? {
      var _, _ := FindByUidCases(users, session.userId.value);
    }
  }

  /** A GET, and a POST that the checks refuse, show the page of the execution to the session's user. */
  lemma PagesAreShown(env: Env, users: seq<UserRow>, session: Session, req: Request, e: Execution,
                      sessions: Sessions, cookie: Option<string>)
    requires e.Sound() && !req.faults.connection && SessionUser(users, session).Success?
    ensures var told := Told(e, req, SessionUser(users, session).value);
            var f := PostTo(env, users, session, req, e, sessions, cookie);
            && GetFrom(users, session, req, e) == Data(e, None, told)
            && (Check(e, told).Refuse? ==> f.outcome == Data(e, None, told).outcome)
            && (Check(e, told).Unfinished? ==> f.outcome == Panic(GroupBinding))
  {
    hide Check;
    hide Data;
    hide HandleSubmission;
  }

  /**
   A rejected submission shows its stage again, with the error, or the error the execution already has;
   any other failure is the answer itself.
   */
  lemma RejectionIsShown(env: Env, users: seq<UserRow>, session: Session, req: Request, e: Execution,
                         sessions: Sessions, cookie: Option<string>)
    requires e.Sound() && Admitted(users, session, req, e) && !Accepted(env, users, session, req, e)
    ensures var f := PostTo(env, users, session, req, e, sessions, cookie);
            match HandleSubmission(env, users, req, e).1
            case Failure(Submission(error)) =>
              f.outcome == Success(Page(FlowData(
                e.flow.title, Some(error), f.exec.context.pending,
                if e.context.error.Some? then ErrorMessage(e.context.error.value.message)
                else if e.Stage().kind.Password? then PasswordForm
                else AsIdentificationForm(e.Stage().kind))))
            case Failure(error) => f.outcome == Failure(error)
            case Panic(site) => f.outcome == Panic(site)
            case Success(_) => false
  {
    hide Check;
    hide HandleSubmission;
    hide Data;
    hide PendingAfter;
    SubmissionChangesPending(env, users, req, e);
    var (e', submitted) := HandleSubmission(env, users, req, e);
    if submitted.Failure? && submitted.error.Submission? {
      RejectingKind(env, users, req, e);
      var told := ContextFor(e, req, SessionUser(users, session).value);
      SameVerdict(e, e', told);
      RunningPage(e', Some(submitted.error.error), told);
    }
  }

  function AsIdentificationForm(kind: StageKind): FlowComponent {
    if kind.Identification? then IdentificationForm(kind.userFields, kind.password.Some?) else PasswordForm
  }

  lemma RejectingKind(env: Env, users: seq<UserRow>, req: Request, e: Execution)
    requires e.Sound() && HandleSubmission(env, users, req, e).1.Failure?
    ensures !e.completed && (e.Stage().kind.Password? || e.Stage().kind.Identification?)
  {
  }

  /** Who is pending enters a check only by what it is told. */
  lemma SameVerdict(e: Execution, e': Execution, ctx: CheckContext)
    requires e.Sound() && e'.Sound() && e' == SetPending(e, e'.context.pending)
    ensures Check(e', ctx) == Check(e, ctx)
  {
    assert e.Entry() in e.flow.entries;
    SameVerdicts(e.context, e'.context, ctx, e.flow.bindings);
    SameVerdicts(e.context, e'.context, ctx, e.Entry().bindings);
  }

  lemma {:induction false} SameVerdicts(a: ExecutionContext, b: ExecutionContext, ctx: CheckContext,
                                        bindings: seq<FlowBinding>)
    requires BindingsResolve(a.storage, bindings) && b == a.(pending := b.pending)
    ensures CheckBindings(b, ctx, bindings) == CheckBindings(a, ctx, bindings)
  {
    if bindings != [] {
      assert bindings[0] in bindings && forall x <- bindings[1..] :: x in bindings;
      SameVerdicts(a, b, ctx, bindings[1..]);
    }
  }

  /**
   An accepted submission answers with the redirect to the flow, unless the commit fails, a stage is
   unfinished, or a login fails for one of its reasons.
   */
  lemma AcceptanceIsAnswered(env: Env, users: seq<UserRow>, session: Session, req: Request, e: Execution,
                             sessions: Sessions, cookie: Option<string>)
    requires SoundCodec(env) && e.Sound() && Accepted(env, users, session, req, e)
    ensures var f := PostTo(env, users, session, req, e, sessions, cookie);
            var pending := f.exec.context.pending;
            && f.exec.Sound()
            && match f.outcome
               case Success(body) => body == SeeOther && !req.faults.commit
               case Panic(site) =>
                 !f.exec.completed && ((site.LogoutStage? && f.exec.Stage().kind.UserLogout?) ||
                                       (site.WriteStage? && f.exec.Stage().kind.UserWrite?))
               case Failure(error) =>
                 || (req.faults.commit && error.Database?)
                 || (!f.exec.completed && f.exec.Stage().kind.UserLogin? && pending.None? &&
                     error == Submission(NoPendingUser))
                 || (!f.exec.completed && f.exec.Stage().kind.UserLogin? && pending.Some? &&
                     pending.value.authenticated && error == LoginError(env, cookie, pending.value))
  {
    hide Check;
    hide HandleSubmission;
    hide PendingAfter;
    hide Complete;
    hide LoginError;
    var k := AcceptedPostProceeds(env, users, session, req, e, sessions, cookie);
    var e' := SetPending(e, PendingAfter(env, users, req, e));
    AdvanceKeepsSound(e');
    var p := Progress(Advance(e'), sessions, cookie, 0);
    CompleteFailsAtLogin(env, session.sessionId, req.faults.update, p, 0);
    var k' := CompleteProgress(env, session.sessionId, req.faults.update, p, 0);
    var (q, done) := Complete(env, session.sessionId, req.faults.update, p, 0);
    AdvancedIsSound(p.exec, k');
    assert done.Panic? ==> q.exec == AdvanceTimes(p.exec, k') && HitsUnfinished(q.exec, done.site);
  }

  /**
   An accepted POST sets the error exactly when it leaves the execution at a login whose pending user is
   not authenticated, and else keeps the error as it was.
   */
  lemma AcceptedPostSetsErrorIff(env: Env, users: seq<UserRow>, session: Session, req: Request, e: Execution,
                                 sessions: Sessions, cookie: Option<string>)
    requires e.Sound() && Accepted(env, users, session, req, e)
    ensures var f := PostTo(env, users, session, req, e, sessions, cookie);
            && f.exec.Sound()
            && f.exec.context.error ==
               if !f.exec.completed && f.exec.Stage().kind.UserLogin? && AwaitsAuthentication(f.exec)
               then Some(ExecutionError(Some(f.exec.Entry().stage), "Authentication of pending user failed"))
               else e.context.error
  {
    hide Check;
    hide HandleSubmission;
    hide PendingAfter;
    hide Complete;
    var k := AcceptedPostProceeds(env, users, session, req, e, sessions, cookie);
    var e' := SetPending(e, PendingAfter(env, users, req, e));
    AdvanceKeepsSound(e');
    CompleteSetsErrorIff(env, session.sessionId, req.faults.update, Progress(Advance(e'), sessions, cookie, 0), 0);
  }

  /** While the flow applies, every page then shows that the authentication failed. */
  lemma FailedLoginIsShown(env: Env, users: seq<UserRow>, session: Session, req: Request, e: Execution,
                           sessions: Sessions, cookie: Option<string>, later: Request)
    requires e.Sound() && Accepted(env, users, session, req, e)
    requires var x := PostTo(env, users, session, req, e, sessions, cookie).exec;
             && x.Sound() && !x.completed && x.Stage().kind.UserLogin? && AwaitsAuthentication(x)
             && Admitted(users, session, later, x)
    ensures var x := PostTo(env, users, session, req, e, sessions, cookie).exec;
            GetFrom(users, session, later, x).outcome ==
            Success(Page(FlowData(x.flow.title, None, x.context.pending,
                                  ErrorMessage("Authentication of pending user failed"))))
  {
    hide Check;
    hide HandleSubmission;
    hide PostTo;
    hide Data;
    AcceptedPostSetsErrorIff(env, users, session, req, e, sessions, cookie);
    var x := PostTo(env, users, session, req, e, sessions, cookie).exec;
    RunningPage(x, None, ContextFor(x, later, SessionUser(users, session).value));
  }
}
