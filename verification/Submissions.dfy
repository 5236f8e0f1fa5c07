/** What a single POST does to the execution it reaches. */
module Submissions {
  import opened Wrappers
  import opened Model
  import opened Tables
  import opened Executions
  import opened Checks
  import opened Requests
  import opened Completion

  /** The request gets past the connection, the user lookup and the checks of the execution. */
  predicate Admitted(users: seq<UserRow>, session: Session, req: Request, e: Execution)
    requires e.Sound()
  {
    && !req.faults.connection
    && SessionUser(users, session).Success?
    && Check(e, ContextFor(e, req, SessionUser(users, session).value)).Pass?
  }

  /** An admitted request whose submission is accepted. */
  predicate Accepted(env: Env, users: seq<UserRow>, session: Session, req: Request, e: Execution)
    requires e.Sound()
  {
    Admitted(users, session, req, e) && HandleSubmission(env, users, req, e).1.Success?
  }

  // The pending user

  /** The row an accepted identification stage finds. */
  function IdentifiedRow(env: Env, users: seq<UserRow>, req: Request, e: Execution): Option<UserRow>
    requires e.Sound()
  {
    if e.completed || !e.Stage().kind.Identification? then None
    else match Identify(env, users, req, e.Stage().kind.userFields)
      case Success(row) => Some(row)
      case _ => None
  }

  /** A question for the password of `user`, and the backends that may answer it. */
  datatype Challenge = Challenge(user: PendingUser, backends: seq<PasswordBackend>)

  /**
   The password check a submission gets to: of the pending user at a password stage, or of the user
   just identified at an identification stage that refers to a password stage.
   */
  function ChallengeOf(env: Env, users: seq<UserRow>, req: Request, e: Execution): Option<Challenge>
    requires e.Sound()
  {
    if e.completed then None
    else
      assert e.Entry() in e.flow.entries;
      match e.Stage().kind
      case Password(backends) =>
        if e.context.pending.Some? then Some(Challenge(e.context.pending.value, backends)) else None
      case Identification(Some(q), _) =>
        var row := IdentifiedRow(env, users, req, e);
        var kind := Find(e.context.storage.stages, q).kind;
        if row.Some? && kind.Password? then Some(Challenge(Identified(row.value), kind.backends)) else None
      case _ => None
  }

  /** The form has the field, and it is a string. */
  predicate HasText(form: Value, name: string) {
    form.Object? && name in form.fields && form.fields[name].Str?
  }

  /** The internal backend is asked, finds the one row of the user, and the password fits its hash. */
  predicate Meets(env: Env, users: seq<UserRow>, req: Request, challenge: Challenge) {
    && Internal in challenge.backends && !req.faults.password
    && HasText(req.form, "password")
    && var found := FindByUid(users, challenge.user.uid);
       && found.Success? && found.value.Some?
       && env.verify(found.value.value.password, req.form.fields["password"].s).Valid?
  }

  /** The submission gets to a check of the password of `uid`, and passes it. */
  predicate Verifies(env: Env, users: seq<UserRow>, req: Request, e: Execution, uid: Uuid)
    requires e.Sound()
  {
    var challenge := ChallengeOf(env, users, req, e);
    challenge.Some? && challenge.value.user.uid == uid && Meets(env, users, req, challenge.value)
  }

  function Authenticated(user: PendingUser): PendingUser {
    user.(authenticated := true)
  }

  /** Whom a submission leaves pending. */
  function PendingAfter(env: Env, users: seq<UserRow>, req: Request, e: Execution): Option<PendingUser>
    requires e.Sound()
  {
    var challenge := ChallengeOf(env, users, req, e);
    var identified := IdentifiedRow(env, users, req, e);
    if challenge.Some? && Meets(env, users, req, challenge.value) then Some(Authenticated(challenge.value.user))
    else if identified.Some? then Some(Identified(identified.value))
    else e.context.pending
  }

  /** The password stage succeeds exactly if the challenge is met, and otherwise changes nothing. */
  lemma PasswordVerifies(env: Env, users: seq<UserRow>, req: Request, e: Execution, backends: seq<PasswordBackend>)
    ensures var (e', outcome) := HandlePassword(env, users, req, e, backends);
            var pending := e.context.pending;
            && (outcome.Success? <==>
                  pending.Some? && Meets(env, users, req, Challenge(pending.value, backends)))
            && e' == if outcome.Success? then SetPending(e, Some(Authenticated(pending.value))) else e
  {
  }

  /**
   The pending user changes only by identification, which always clears the authenticated bit, and by
   a password check that exactly that user passes; that check is accepted, and a rejected submission
   never sets the bit.
   */
  lemma SubmissionChangesPending(env: Env, users: seq<UserRow>, req: Request, e: Execution)
    requires e.Sound()
    ensures var (e', outcome) := HandleSubmission(env, users, req, e);
            && e'.Sound() && e' == SetPending(e, PendingAfter(env, users, req, e))
            && (e.completed ==> outcome.Success? && e' == e)
            && (ChallengeOf(env, users, req, e).Some? ==>
                  (outcome.Success? <==> Meets(env, users, req, ChallengeOf(env, users, req, e).value)))
            && (!outcome.Success? ==> e' == e || !e'.context.pending.value.authenticated)
  {
    hide HandlePassword;
    hide Meets;
    hide Identify;
    SubmissionKeepsSound(env, users, req, e);
    if !e.completed {
      assert e.Entry() in e.flow.entries;
      match e.Stage().kind {
        case Password(backends) => PasswordVerifies(env, users, req, e, backends);
        case Identification(Some(q), fields) =>
          var row := IdentifiedRow(env, users, req, e);
          var kind := Find(e.context.storage.stages, q).kind;
          if row.Some? && kind.Password? {
            PasswordVerifies(env, users, req, SetPending(e, Some(Identified(row.value))), kind.backends);
          }
        case _ =>
      }
    }
  }

  // Refused, rejected and accepted requests

  /** Rendering removes an execution exactly if the checks come to an end, it is completed, and there is a target. */
  lemma RenderingRemovesIff(e: Execution, error: Option<SubmissionError>, ctx: CheckContext)
    requires e.Sound()
    ensures var r := Data(e, error, ctx);
            && (r.invalidates <==> !Check(e, ctx).Unfinished? && e.completed && ctx.request.next.Some?)
            && r.outcome != Success(SeeOther)
  {
    hide Check;
  }

  /** A request that is not admitted leaves everything alone, but may pick up the final redirect. */
  lemma RefusedPostKeeps(env: Env, users: seq<UserRow>, session: Session, req: Request, e: Execution,
                         sessions: Sessions, cookie: Option<string>)
    requires e.Sound() && !Admitted(users, session, req, e)
    ensures var f := PostTo(env, users, session, req, e, sessions, cookie);
            && f.exec == e && f.sessions == sessions && f.cookie == cookie && f.logins == 0
            && (f.removed <==> PicksUpRedirect(users, session, req, e))
            && f.outcome != Success(SeeOther)
  {
    hide Check;
    hide HandleSubmission;
    hide Proceed;
    hide Data;
    if !req.faults.connection && SessionUser(users, session).Success? {
      RenderingRemovesIff(e, None, ContextFor(e, req, SessionUser(users, session).value));
    }
  }

  /** The checks refuse the request, but the execution is completed and the request says where to go. */
  predicate PicksUpRedirect(users: seq<UserRow>, session: Session, req: Request, e: Execution)
    requires e.Sound()
  {
    && !req.faults.connection
    && SessionUser(users, session).Success?
    && Check(e, ContextFor(e, req, SessionUser(users, session).value)).Refuse?
    && e.completed && req.next.Some?
  }

  /**
   Which submissions are accepted: only identification and passwords are looked at. At a stage that
   denies, prompts or asks for consent, and at a server-side stage, every admitted request is accepted.
   */
  lemma AcceptedIff(env: Env, users: seq<UserRow>, session: Session, req: Request, e: Execution)
    requires e.Sound()
    ensures Accepted(env, users, session, req, e) <==>
            && Admitted(users, session, req, e)
            && (e.completed ||
                match e.Stage().kind
                case Password(_) | Identification(Some(_), _) =>
                  var challenge := ChallengeOf(env, users, req, e);
                  challenge.Some? && Meets(env, users, req, challenge.value)
                case Identification(None, _) => IdentifiedRow(env, users, req, e).Some?
                case _ => true)
  {
    hide Check;
    SubmissionChangesPending(env, users, req, e);
  }

  /**
   An admitted but rejected submission, too: the cursor stays, nothing is completed, nobody gets
   authenticated, and no session changes.
   */
  lemma RejectedPostKeeps(env: Env, users: seq<UserRow>, session: Session, req: Request, e: Execution,
                          sessions: Sessions, cookie: Option<string>)
    requires e.Sound() && Admitted(users, session, req, e) && !Accepted(env, users, session, req, e)
    ensures var f := PostTo(env, users, session, req, e, sessions, cookie);
            && !e.completed && f.exec == SetPending(e, PendingAfter(env, users, req, e)) && f.exec.Sound()
            && (f.exec == e || !f.exec.context.pending.value.authenticated)
            && f.sessions == sessions && f.cookie == cookie && f.logins == 0 && !f.removed
            && f.outcome != Success(SeeOther)
  {
    hide Check;
    hide HandleSubmission;
    hide PendingAfter;
    hide Component;
    SubmissionChangesPending(env, users, req, e);
  }

  /**
   What completing the current stage of `e` and running the server-side stages after it has come to:
   `k` logins were passed. The session row changes only if the request commits, and then to the
   authenticated pending user; otherwise the cursor has moved all the same.
   */
  ghost predicate Proceeds(session: Session, e: Execution, sessions: Sessions, cookie: Option<string>, f: Effect,
                           k: nat)
    requires e.Sound()
  {
    AdvanceKeepsSound(e);
    var pending := e.context.pending;
    && !f.removed && f.logins == k
    && f.exec.context == e.context.(error := f.exec.context.error)
    && (e.context.error.Some? ==> f.exec.context.error.Some?)
    && f.exec == AdvanceTimes(e, k + 1).(context := f.exec.context) && f.exec.Sound()
    && PassedLogins(Advance(e), k)
    && (f.outcome.Success? <==> f.outcome == Success(SeeOther))
    && (f.outcome.Success? && k == 0 ==> f.cookie == cookie)
    && (k > 0 ==> pending.Some? && pending.value.authenticated)
    && f.sessions == (if k > 0 && f.outcome.Success?
                      then BindSession(sessions, session.sessionId, pending.value.uid) else sessions)
  }

  lemma ProceedProgresses(env: Env, session: Session, req: Request, e: Execution, sessions: Sessions,
                          cookie: Option<string>) returns (k: nat)
    requires e.Sound()
    ensures Proceeds(session, e, sessions, cookie, Proceed(env, session, req, e, sessions, cookie), k)
  {
    hide Complete;
    hide HitsUnfinished;
    hide Stops;
    hide PassedLogins;
    hide BindSession;
    hide Execution.Sound;
    AdvanceKeepsSound(e);
    var p := Progress(Advance(e), sessions, cookie, 0);
    k := CompleteProgress(env, session.sessionId, req.faults.update, p, 0);
    var (q, done) := Complete(env, session.sessionId, req.faults.update, p, 0);
    ProgressedShape(env, session.sessionId, p, q, done, 0, k);
    AdvanceFirst(e, k);
  }

  /** An accepted submission completes the current stage and passes `k` logins after it. */
  lemma AcceptedPostProceeds(env: Env, users: seq<UserRow>, session: Session, req: Request, e: Execution,
                             sessions: Sessions, cookie: Option<string>) returns (k: nat)
    requires e.Sound() && Accepted(env, users, session, req, e)
    ensures var f := PostTo(env, users, session, req, e, sessions, cookie);
            var e' := SetPending(e, PendingAfter(env, users, req, e));
            && e'.Sound() && f == Proceed(env, session, req, e', sessions, cookie)
            && Proceeds(session, e', sessions, cookie, f, k)
            && !PicksUpRedirect(users, session, req, e)
  {
    hide Check;
    hide HandleSubmission;
    hide PendingAfter;
    hide Proceed;
    hide Proceeds;
    SubmissionChangesPending(env, users, req, e);
    k := ProceedProgresses(env, session, req, SetPending(e, PendingAfter(env, users, req, e)), sessions, cookie);
  }

  lemma CompletedPostIsIdle(env: Env, users: seq<UserRow>, session: Session, req: Request, e: Execution,
                            sessions: Sessions, cookie: Option<string>)
    requires e.Sound() && e.completed && Admitted(users, session, req, e)
    ensures var f := PostTo(env, users, session, req, e, sessions, cookie);
            f.exec == e && f.logins == 0 && f.cookie == cookie && f.sessions == sessions && !f.removed
  {
  }

  /** Everything a POST may do to its execution. */
  ghost predicate PostChange(env: Env, users: seq<UserRow>, session: Session, req: Request, e: Execution,
                             sessions: Sessions, f: Effect)
    requires e.Sound()
  {
    && f.exec.Sound()
    && f.exec.flow == e.flow && f.exec.key == e.key
    && f.exec.context == e.context.(pending := f.exec.context.pending, error := f.exec.context.error)
    && f.exec.context.pending ==
       (if Admitted(users, session, req, e) then PendingAfter(env, users, req, e) else e.context.pending)
    && (f.removed <==> PicksUpRedirect(users, session, req, e))
    && (e.completed ==> f.exec == e)
    && e.cursor <= f.exec.cursor && (e.context.error.Some? ==> f.exec.context.error.Some?)
    && (f.sessions == sessions ||
        (f.logins > 0 && f.outcome == Success(SeeOther) && f.exec.context.pending.Some? &&
         f.exec.context.pending.value.authenticated &&
         f.sessions == BindSession(sessions, session.sessionId, f.exec.context.pending.value.uid)))
  }

  lemma PostChanges(env: Env, users: seq<UserRow>, session: Session, req: Request, e: Execution,
                    sessions: Sessions, cookie: Option<string>)
    requires e.Sound()
    ensures PostChange(env, users, session, req, e, sessions, PostTo(env, users, session, req, e, sessions, cookie))
  {
    hide Check;
    hide PendingAfter;
    hide HandleSubmission;
    hide PostTo;
    if !Admitted(users, session, req, e) {
      RefusedPostKeeps(env, users, session, req, e, sessions, cookie);
    } else if !Accepted(env, users, session, req, e) {
      RejectedPostKeeps(env, users, session, req, e, sessions, cookie);
    } else {
      var k := AcceptedPostProceeds(env, users, session, req, e, sessions, cookie);
      AdvanceTimesCursor(SetPending(e, PendingAfter(env, users, req, e)), k + 1);
      if e.completed {
        CompletedPostIsIdle(env, users, session, req, e, sessions, cookie);
      }
    }
  }

  lemma PostKeepsSound(env: Env, users: seq<UserRow>, session: Session, req: Request, e: Execution,
                       sessions: Sessions, cookie: Option<string>)
    requires e.Sound()
    ensures var f := PostTo(env, users, session, req, e, sessions, cookie); f.exec.Sound() && f.exec.key == e.key
  {
    hide PostTo;
    PostChanges(env, users, session, req, e, sessions, cookie);
  }

  // Which logins are run

  /**
   An accepted POST gets past the entry it was made at and the logins it runs. It runs every login it
   passes, except one at the entry it was made at: that one is passed without being run.
   */
  lemma AcceptedPostRunsLogins(env: Env, users: seq<UserRow>, session: Session, req: Request, e: Execution,
                               sessions: Sessions, cookie: Option<string>)
    requires e.Sound() && !e.completed && Accepted(env, users, session, req, e)
    ensures var f := PostTo(env, users, session, req, e, sessions, cookie);
            && f.exec.Sound() && f.exec.flow == e.flow && Stands(f.exec) == e.cursor + 1 + f.logins
            && LoginsBetween(e, e.cursor, Stands(f.exec)) == f.logins + if e.Stage().kind.UserLogin? then 1 else 0
  {
    hide Check;
    hide HandleSubmission;
    hide PostTo;
    hide PendingAfter;
    var k := AcceptedPostProceeds(env, users, session, req, e, sessions, cookie);
    ProceedPassesLogins(session, e, SetPending(e, PendingAfter(env, users, req, e)), sessions, cookie,
                        PostTo(env, users, session, req, e, sessions, cookie), k);
  }

  lemma ProceedPassesLogins(session: Session, e: Execution, e': Execution, sessions: Sessions,
                            cookie: Option<string>, f: Effect, k: nat)
    requires e.Sound() && !e.completed && e'.Sound() && e' == SetPending(e, e'.context.pending)
    requires Proceeds(session, e', sessions, cookie, f, k)
    ensures f.exec.flow == e.flow && Stands(f.exec) == e.cursor + 1 + k
    ensures LoginsBetween(e, e.cursor, Stands(f.exec)) == k + if e.Stage().kind.UserLogin? then 1 else 0
  {
    AdvanceTimesCursor(e', k + 1);
    AdvanceKeepsSound(e');
    var next := e.cursor + 1;
    forall i | next <= i < next + k
      ensures KindAt(e, i).UserLogin?
    {
      assert KindAt(Advance(e'), i) == KindAt(e, i);
    }
    AllLogins(e, next, next + k);
    LoginsAdd(e, e.cursor, next, next + k);
    assert KindAt(e, e.cursor) == e.Stage().kind;
  }

  /**
   So a flow may be completed without its login: at a login that is the last entry, an accepted POST
   completes the execution and commits, runs no login and binds nobody.
   */
  lemma LastLoginIsPassed(env: Env, users: seq<UserRow>, session: Session, req: Request, e: Execution,
                          sessions: Sessions, cookie: Option<string>)
    requires e.Sound() && !e.completed && e.cursor == |e.flow.entries| - 1 && e.Stage().kind.UserLogin?
    requires Admitted(users, session, req, e) && !req.faults.commit
    ensures PostTo(env, users, session, req, e, sessions, cookie) ==
            Effect(e.(completed := true), false, sessions, cookie, Success(SeeOther), 0)
  {
    hide Check;
  }

  // The final redirect

  predicate ShowsRedirect(outcome: Outcome<Body>) {
    outcome.Success? && outcome.value.Page? && outcome.value.data.component.Redirect?
  }

  lemma RedirectIsRemoval(e: Execution, error: Option<SubmissionError>, ctx: CheckContext)
    requires e.Sound()
    ensures var r := Data(e, error, ctx);
            && (ShowsRedirect(r.outcome) <==> r.invalidates)
            && (r.invalidates ==>
                  && e.completed && ctx.request.next.Some?
                  && r.outcome.value.data.component == Redirect(ctx.request.next.value))
  {
  }

  /**
   A POST removes its execution exactly when it answers with the final redirect, and that is when the
   checks refuse it on a completed execution and it names a target.
   */
  lemma PostRedirectIsRemoval(env: Env, users: seq<UserRow>, session: Session, req: Request, e: Execution,
                              sessions: Sessions, cookie: Option<string>)
    requires e.Sound()
    ensures var f := PostTo(env, users, session, req, e, sessions, cookie);
            && (ShowsRedirect(f.outcome) <==> f.removed)
            && (f.removed <==> PicksUpRedirect(users, session, req, e))
            && (f.removed ==> f.outcome.value.data.component == Redirect(req.next.value))
  {
    hide Check;
    hide PendingAfter;
    hide Data;
    hide Proceed;
    PostChanges(env, users, session, req, e, sessions, cookie);
    if Accepted(env, users, session, req, e) {
      var k := AcceptedPostProceeds(env, users, session, req, e, sessions, cookie);
    } else if !req.faults.connection && SessionUser(users, session).Success? {
      var ctx := ContextFor(e, req, SessionUser(users, session).value);
      var (e', submitted) := HandleSubmission(env, users, req, e);
      RedirectIsRemoval(e, None, ctx);
      SubmissionChangesPending(env, users, req, e);
      if submitted.Failure? && submitted.error.Submission? {
        RedirectIsRemoval(e', Some(submitted.error.error), ctx);
      }
    }
  }

  /**
   A refused POST does remove an execution: once a flow for the logged-out has logged the user in, its
   own checks refuse every further request, and the next POST with a target picks up the redirect.
   */
  lemma LoggedInPostPicksUpRedirect(env: Env, users: seq<UserRow>, session: Session, req: Request, e: Execution,
                                    sessions: Sessions, cookie: Option<string>, to: string)
    requires e.Sound() && e.completed && e.flow.authentication.Unauthenticated?
    requires SessionUser(users, session).Success? && SessionUser(users, session).value.Some?
    requires !req.faults.connection && req.next == Some(to)
    ensures !Admitted(users, session, req, e)
    ensures var f := PostTo(env, users, session, req, e, sessions, cookie);
            f.removed && f.outcome.Success? && f.outcome.value.Page? &&
            f.outcome.value.data.component == Redirect(to)
  {
    PostRedirectIsRemoval(env, users, session, req, e, sessions, cookie);
  }

  // The way in

  /** Where an accepted password leaves the loop to start. */
  function AfterPassword(e: Execution, user: PendingUser, sessions: Sessions, cookie: Option<string>): Progress {
    Progress(Advance(SetPending(e, Some(Authenticated(user)))), sessions, cookie, 0)
  }

  /**
   Conversely, the right password logs in: where a submission gets to a password check and passes it,
   and a login but no unfinished stage follows, an admitted POST issues a token for the checked user;
   it binds the session to them and redirects, unless the commit fails.
   */
  lemma RightPasswordLogsIn(env: Env, users: seq<UserRow>, session: Session, req: Request, e: Execution,
                            sessions: Sessions, challenge: Challenge)
    requires SoundCodec(env) && e.Sound() && Admitted(users, session, req, e)
    requires forall i :: !req.faults.update(i)
    requires ChallengeOf(env, users, req, e) == Some(challenge) && Meets(env, users, req, challenge)
    requires var p := AfterPassword(e, challenge.user, sessions, req.cookie);
             && p.exec.Sound() && LoginRun(p.exec) > 0 && CanLogin(env, p)
             && var k := Min(LoginRun(p.exec), MAX_ITERATIONS + 1);
                && AdvanceTimes(p.exec, k).Sound()
                && FinalOutcome(AdvanceTimes(p.exec, k), k == MAX_ITERATIONS + 1).Success?
    ensures var f := PostTo(env, users, session, req, e, sessions, req.cookie);
            && f.logins > 0 && f.exec.context.pending == Some(Authenticated(challenge.user))
            && f.cookie == LoginCookie(env, AfterPassword(e, challenge.user, sessions, req.cookie))
            && f.outcome == (if req.faults.commit then Failure(Database) else Success(SeeOther))
            && f.sessions == if req.faults.commit then sessions
                             else BindSession(sessions, session.sessionId, challenge.user.uid)
  {
    hide Check;
    hide HandleSubmission;
    hide ChallengeOf;
    hide Meets;
    hide PostTo;
    SubmissionChangesPending(env, users, req, e);
    var _ := AcceptedPostProceeds(env, users, session, req, e, sessions, req.cookie);
    var p := AfterPassword(e, challenge.user, sessions, req.cookie);
    CompleteClosedForm(env, session.sessionId, req.faults.update, p, 0);
    var k := Min(LoginRun(p.exec), MAX_ITERATIONS + 1);
    AdvanceTimesCursor(p.exec, k);
  }

  /**
   A completed execution may have run its login and still have bound nobody: the right password before
   a last login completes the execution, and if then the commit fails the session stays as it was.
   */
  lemma FailedCommitCompletes(env: Env, users: seq<UserRow>, session: Session, req: Request, e: Execution,
                              sessions: Sessions, challenge: Challenge)
    requires SoundCodec(env) && e.Sound() && !e.completed && Admitted(users, session, req, e)
    requires req.faults.commit && forall i :: !req.faults.update(i)
    requires ChallengeOf(env, users, req, e) == Some(challenge) && Meets(env, users, req, challenge)
    requires e.cursor + 2 == |e.flow.entries| && KindAt(e, e.cursor + 1).UserLogin?
    requires CanLogin(env, AfterPassword(e, challenge.user, sessions, req.cookie))
    ensures var f := PostTo(env, users, session, req, e, sessions, req.cookie);
            f.exec.completed && f.logins == 1 && f.sessions == sessions && f.outcome == Failure(Database)
  {
    hide Check;
    hide HandleSubmission;
    hide ChallengeOf;
    hide Meets;
    hide PostTo;
    var p := AfterPassword(e, challenge.user, sessions, req.cookie);
    var e' := SetPending(e, Some(Authenticated(challenge.user)));
    AdvanceKeepsSound(e');
    AdvanceKeepsSound(p.exec);
    assert KindAt(e, p.exec.cursor) == p.exec.Stage().kind;
    assert LoginRun(p.exec) == 1 + LoginRun(Advance(p.exec)) == 1;
    assert AdvanceTimes(p.exec, 1) == Advance(AdvanceTimes(p.exec, 0)) == Advance(p.exec);
    RightPasswordLogsIn(env, users, session, req, e, sessions, challenge);
    SubmissionChangesPending(env, users, req, e);
    var k := AcceptedPostProceeds(env, users, session, req, e, sessions, req.cookie);
    CompleteClosedForm(env, session.sessionId, req.faults.update, p, 0);
    AdvanceTimesCursor(e', k + 1);
  }
}
