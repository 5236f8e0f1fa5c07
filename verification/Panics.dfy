/** What a page asks for, and which configurations keep requests away from the unfinished parts. */
module Panics {
  import opened Wrappers
  import opened Model
  import opened Tables
  import opened Closure
  import opened Executions
  import opened Checks
  import opened Requests
  import opened Completion
  import opened Submissions

  predicate Shows(r: Rendering, component: FlowComponent) {
    r.outcome.Success? && r.outcome.value.Page? && r.outcome.value.data.component == component
  }

  /** A page shows a form exactly if the flow applies, nothing ended it, and the current stage is of that kind. */
  lemma FormsShowStages(e: Execution, error: Option<SubmissionError>, ctx: CheckContext)
    requires e.Sound()
    ensures var r, kind := Data(e, error, ctx), e.Stage().kind;
            var running := Check(e, ctx).Pass? && !e.completed && e.context.error.None?;
            && (Shows(r, PasswordForm) <==> running && kind.Password?)
            && forall fields, password ::
                Shows(r, IdentificationForm(fields, password)) <==>
                running && kind.Identification? && kind.userFields == fields && kind.password.Some? == password
  {
    hide Check;
  }

  /** The field a page asks for is the one a submission to the same state needs; without it nothing changes. */
  lemma PageAsksForField(env: Env, users: seq<UserRow>, req: Request, e: Execution, ctx: CheckContext)
    requires e.Sound()
    ensures Shows(Data(e, None, ctx), PasswordForm) && StringField("password", req.form).Err? ==>
              HandleSubmission(env, users, req, e) ==
              (e, Failure(Submission(if e.context.pending.None? then NoPendingUser
                                     else StringField("password", req.form).error)))
    ensures forall fields, password ::
              Shows(Data(e, None, ctx), IdentificationForm(fields, password)) && StringField("uid", req.form).Err? ==>
                && HandleSubmission(env, users, req, e) == (e, Failure(Submission(StringField("uid", req.form).error)))
                && e.Stage().kind.userFields == fields && e.Stage().kind.password.Some? == password
  {
  }

  predicate Finished(storage: FreezedStorage, kind: StageKind) {
    && !kind.PromptStage? && !kind.Consent? && !kind.UserLogout? && !kind.UserWrite?
    && (kind.Identification? && kind.password.Some? && Answers(storage.stages, kind.password.value) ==>
          Find(storage.stages, kind.password.value).kind.Password?)
  }

  /** No enabled group binding, no unfinished stage, and password references that name password stages. */
  predicate Configured(e: Execution)
    requires e.Sound()
  {
    && NoGroups(e.flow.bindings)
    && (forall entry <- e.flow.entries :: NoGroups(entry.bindings))
    && forall i | 0 <= i < |e.flow.entries| :: Finished(e.context.storage, KindAt(e, i))
  }

  lemma ConfiguredRenders(e: Execution, error: Option<SubmissionError>, ctx: CheckContext)
    requires e.Sound() && Configured(e)
    ensures !Check(e, ctx).Unfinished? && !Data(e, error, ctx).outcome.Panic?
  {
    assert e.Entry() in e.flow.entries;
    NoGroupsVerdict(e.context, ctx, e.flow.bindings);
    NoGroupsVerdict(e.context, ctx, e.Entry().bindings);
    assert KindAt(e, e.cursor) == e.Stage().kind;
  }

  lemma ConfiguredSubmits(env: Env, users: seq<UserRow>, req: Request, e: Execution)
    requires e.Sound() && Configured(e)
    ensures !HandleSubmission(env, users, req, e).1.Panic?
  {
    assert KindAt(e, e.cursor) == e.Stage().kind;
    var uid := StringField("uid", req.form);
    if uid.Ok? && e.Stage().kind.Identification? {
      LookupUserFindsFirstMatch(env, users, uid.value, e.Stage().kind.userFields);
    }
  }

  lemma ConfiguredCompletes(env: Env, sid: string, updateFails: nat -> bool, p: Progress)
    requires p.exec.Sound() && Configured(p.exec)
    ensures !Complete(env, sid, updateFails, p, 0).1.Panic?
  {
    var k := CompleteProgress(env, sid, updateFails, p, 0);
    AdvancedIsSound(p.exec, k);
    AdvanceTimesCursor(p.exec, k);
    var stopped := AdvanceTimes(p.exec, k);
    assert KindAt(p.exec, stopped.cursor) == stopped.Stage().kind;
  }

  lemma ConfiguredPosts(env: Env, users: seq<UserRow>, session: Session, req: Request, e: Execution,
                        sessions: Sessions, cookie: Option<string>)
    requires e.Sound() && Configured(e) && Admitted(users, session, req, e)
    ensures !PostTo(env, users, session, req, e, sessions, cookie).outcome.Panic?
  {
    hide Check;
    hide HandleSubmission;
    hide PendingAfter;
    hide Data;
    hide Complete;
    hide Configured;
    var ctx := ContextFor(e, req, SessionUser(users, session).value);
    ConfiguredSubmits(env, users, req, e);
    SubmissionChangesPending(env, users, req, e);
    var (e', submitted) := HandleSubmission(env, users, req, e);
    ConfiguredStays(e, e');
    if submitted.Success? {
      AdvanceKeepsSound(e');
      ConfiguredStays(e, Advance(e'));
      ConfiguredCompletes(env, session.sessionId, req.faults.update, Progress(Advance(e'), sessions, cookie, 0));
    } else if submitted.Failure? && submitted.error.Submission? {
      ConfiguredRenders(e', Some(submitted.error.error), ctx);
    }
  }

  /** In a configured execution no request hits an unfinished part of the server. */
  lemma ConfiguredNeverPanics(env: Env, users: seq<UserRow>, session: Session, req: Request, e: Execution,
                              sessions: Sessions, cookie: Option<string>)
    requires e.Sound() && Configured(e)
    ensures !GetFrom(users, session, req, e).outcome.Panic?
    ensures !PostTo(env, users, session, req, e, sessions, cookie).outcome.Panic?
  {
    if !req.faults.connection && SessionUser(users, session).Success? {
      ConfiguredRenders(e, None, ContextFor(e, req, SessionUser(users, session).value));
      if Admitted(users, session, req, e) {
        ConfiguredPosts(env, users, session, req, e, sessions, cookie);
      }
    }
  }

  /** Being configured is a matter of the flow and its frozen store, so it lasts as long as the execution. */
  lemma ConfiguredStays(e: Execution, e': Execution)
    requires e.Sound() && e'.Sound() && e'.flow == e.flow && e'.context.storage == e.context.storage
    ensures Configured(e) ==> Configured(e')
  {
    forall i | 0 <= i < |e.flow.entries|
      ensures KindAt(e', i) == KindAt(e, i)
    {
    }
  }
}
