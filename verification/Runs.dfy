/** What holds over every run of the server, from any stored sessions and an empty execution cache. */
module Runs {
  import opened Wrappers
  import opened Model
  import opened Tables
  import opened Closure
  import opened Executions
  import opened Checks
  import opened Requests
  import opened Completion
  import opened Submissions
  import opened Responses
  import opened Steps

  /** The states a server goes through: before the first step, between steps, and after the last. */
  datatype Run = Run(env: Env, states: seq<System>, steps: seq<Step>)

  /** Step `i` leads from state `i` to the next. */
  ghost predicate Linked(run: Run, i: nat)
    requires i < |run.steps| < |run.states|
  {
    && Allowed(run.steps[i])
    && (ValidSystem(run.states[i]) ==> run.states[i + 1] == Next(run.env, run.states[i], run.steps[i]))
  }

  ghost predicate ValidRun(run: Run) {
    && |run.states| == |run.steps| + 1
    && ValidSystem(run.states[0]) && run.states[0].executions == map[]
    && forall i: nat {:trigger Linked(run, i)} | i < |run.steps| :: Linked(run, i)
  }

  /** In every reachable state executions sit under their own keys, of stored sessions, and are sound. */
  lemma {:induction false} StatesAreValid(run: Run, i: nat)
    requires ValidRun(run) && i <= |run.steps|
    ensures ValidSystem(run.states[i])
  {
    if i > 0 {
      StatesAreValid(run, i - 1);
      assert Linked(run, i - 1);
      StepKeepsValid(run.env, run.states[i - 1], run.steps[i - 1]);
    }
  }

  ghost function At(run: Run, i: nat): (st: System)
    requires ValidRun(run) && i <= |run.steps|
    ensures ValidSystem(st)
  {
    StatesAreValid(run, i);
    run.states[i]
  }

  ghost function Identifies(run: Run, i: nat, key: FlowKey): Option<UserRow>
    requires ValidRun(run) && i < |run.steps|
  {
    IdentifiedAt(run.env, At(run, i), run.steps[i], key)
  }

  /** Step `i` put a password of `uid` to the check at `key`, and it was right. */
  ghost predicate Verified(run: Run, i: nat, key: FlowKey, uid: Uuid)
    requires ValidRun(run) && i < |run.steps|
  {
    VerifiesAt(run.env, At(run, i), run.steps[i], key, uid)
  }

  /** Step `h` posts a form to an identification stage at `key`, and the form names `row` by one of its fields. */
  ghost predicate NamedAt(run: Run, h: nat, key: FlowKey, row: UserRow)
    requires ValidRun(run) && h < |run.steps|
  {
    && PostsTo(run.env, At(run, h), run.steps[h], key)
    && var e := At(run, h).executions[key];
       && e.Sound() && !e.completed && e.Stage().kind.Identification?
       && Names(run.env, At(run, h).users, run.steps[h].req.form, e.Stage().kind.userFields, row)
  }

  lemma IdentifiedIsNamed(run: Run, h: nat, key: FlowKey)
    requires ValidRun(run) && h < |run.steps| && Identifies(run, h, key).Some?
    ensures NamedAt(run, h, key, Identifies(run, h, key).value)
  {
    var st := At(run, h);
    assert ValidExecution(st, key);
    IdentifiedIffNamed(run.env, st.users, run.steps[h].req, st.executions[key], Identifies(run, h, key).value);
  }

  predicate IsOfRow(pending: PendingUser, row: UserRow) {
    pending.uid == row.uid && pending.name == row.name && pending.isAdmin == row.administrator
  }

  /**
   Step `h` identified `pending` at `key`, by a form that names them, and no later step before `n`
   identified anyone there.
   */
  ghost predicate LastIdentified(run: Run, h: nat, n: nat, key: FlowKey, pending: PendingUser)
    requires ValidRun(run) && h < n <= |run.steps|
  {
    && Identifies(run, h, key).Some?
    && NamedAt(run, h, key, Identifies(run, h, key).value)
    && IsOfRow(pending, Identifies(run, h, key).value)
    && forall j | h < j < n :: Identifies(run, j, key).None? && key in At(run, j).executions
  }

  /** A pending user was identified last at some step, and is authenticated only by a password check since. */
  ghost predicate Provenance(run: Run, h: nat, n: nat, key: FlowKey, pending: PendingUser)
    requires ValidRun(run) && h < n <= |run.steps|
  {
    && LastIdentified(run, h, n, key, pending)
    && (pending.authenticated ==> exists i: nat :: h <= i < n && Verified(run, i, key, pending.uid))
  }

  /** An execution of session `sid` checked a password of `uid`, and it was right. */
  ghost predicate Proved(run: Run, n: nat, sid: string, uid: Uuid)
    requires ValidRun(run) && n <= |run.steps|
  {
    exists i: nat, key: FlowKey :: i < n && key.session == sid && Verified(run, i, key, uid)
  }

  lemma AtNext(run: Run, i: nat)
    requires ValidRun(run) && i < |run.steps|
    ensures At(run, i + 1) == Next(run.env, At(run, i), run.steps[i])
  {
    assert Linked(run, i);
  }

  /** The execution at `key` is there from state `i` to state `n`. */
  ghost predicate Stays(run: Run, i: nat, n: nat, key: FlowKey)
    requires ValidRun(run) && n <= |run.steps|
  {
    forall m | i <= m <= n :: key in At(run, m).executions
  }

  lemma StaysSplits(run: Run, i: nat, n: nat, key: FlowKey)
    requires ValidRun(run) && i <= n <= |run.steps|
    ensures Stays(run, i, n, key) <==> key in At(run, n).executions && (i < n ==> Stays(run, i, n - 1, key))
    ensures Stays(run, i, n, key) ==> key in At(run, i).executions
  {
  }

  // Identity

  lemma ProvenanceStep(run: Run, h: nat, n: nat, key: FlowKey, before: PendingUser, after: PendingUser)
    requires ValidRun(run) && h < n < |run.steps| && Provenance(run, h, n, key, before)
    requires Identifies(run, n, key).None? && key in At(run, n).executions
    requires || after == before
             || (after == Authenticated(before) && Verified(run, n, key, before.uid))
    ensures Provenance(run, h, n + 1, key, after)
  {
    hide Identifies;
    hide Verified;
    if after.authenticated {
      if before.authenticated {
        var i: nat :| h <= i < n && Verified(run, i, key, before.uid);
        assert h <= i < n + 1 && Verified(run, i, key, after.uid);
      } else {
        assert h <= n < n + 1 && Verified(run, n, key, after.uid);
      }
    }
  }

  /**
   In every reachable execution the pending user, with name and admin bit, is the one the most recent
   identification found; and if authenticated, that execution has since checked their password, at that
   identification or at a later password stage, and it was right.
   */
  lemma {:induction false} PendingHasProvenance(run: Run, n: nat, key: FlowKey) returns (h: nat)
    requires ValidRun(run) && n <= |run.steps| && key in At(run, n).executions
    requires At(run, n).executions[key].context.pending.Some?
    ensures h < n && Provenance(run, h, n, key, At(run, n).executions[key].context.pending.value)
  {
    var m := n - 1;
    assert n > 0;
    AtNext(run, m);
    var st := At(run, m);
    var after := At(run, n).executions[key].context.pending.value;
    ExecutionStep(run.env, st, run.steps[m], key);
    if key in st.executions {
      PendingChanges(run.env, st, run.steps[m], key);
    }
    if Identifies(run, m, key).Some? {
      h := m;
      IdentifiedIsNamed(run, m, key);
      if after.authenticated {
        assert Verified(run, m, key, after.uid);
      }
    } else {
      h := PendingHasProvenance(run, m, key);
      ProvenanceStep(run, h, m, key, st.executions[key].context.pending.value, after);
    }
  }

  /**
   A session is bound to a user only from the start, or after an execution of that very session checked
   that user's password, and it was right.
   */
  lemma {:induction false} SessionIdentity(run: Run, n: nat, sid: string, uid: Uuid)
    requires ValidRun(run) && n <= |run.steps|
    requires sid in At(run, n).sessions && At(run, n).sessions[sid] == Some(uid)
    ensures (sid in run.states[0].sessions && run.states[0].sessions[sid] == Some(uid)) || Proved(run, n, sid, uid)
  {
    if n > 0 {
      var m := n - 1;
      AtNext(run, m);
      var st := At(run, m);
      SessionStep(run.env, st, run.steps[m], sid);
      if sid in st.sessions && st.sessions[sid] == Some(uid) {
        SessionIdentity(run, m, sid, uid);
        if Proved(run, m, sid, uid) {
          var i: nat, key: FlowKey :| i < m && key.session == sid && Verified(run, i, key, uid);
          assert i < n && Verified(run, i, key, uid);
        }
      } else {
        var key: FlowKey :| key.session == sid && LogsIn(run.env, st, run.steps[m], key, Some(uid));
        LoginIsProved(run, m, key, uid);
      }
    }
  }

  /** Whoever a committed login binds a session to has passed the password check in it. */
  lemma LoginIsProved(run: Run, m: nat, key: FlowKey, uid: Uuid)
    requires ValidRun(run) && m < |run.steps| && LogsIn(run.env, At(run, m), run.steps[m], key, Some(uid))
    ensures Proved(run, m + 1, key.session, uid)
  {
    var h := EffectHasProvenance(run, m, key);
    var i: nat :| h <= i < m + 1 && Verified(run, i, key, uid);
    assert i < m + 1 && key.session == key.session && Verified(run, i, key, uid);
  }

  /** The user a POST leaves pending has their provenance even if the request then fails. */
  lemma EffectHasProvenance(run: Run, m: nat, key: FlowKey) returns (h: nat)
    requires ValidRun(run) && m < |run.steps| && PostsTo(run.env, At(run, m), run.steps[m], key)
    requires EffectAt(run.env, At(run, m), run.steps[m], key).exec.context.pending.Some?
    ensures h <= m
    ensures Provenance(run, h, m + 1, key, EffectAt(run.env, At(run, m), run.steps[m], key).exec.context.pending.value)
  {
    var st := At(run, m);
    PostEvolves(run.env, st, run.steps[m], key);
    PendingChanges(run.env, st, run.steps[m], key);
    var after := EffectAt(run.env, st, run.steps[m], key).exec.context.pending.value;
    if Identifies(run, m, key).Some? {
      h := m;
      IdentifiedIsNamed(run, m, key);
      if after.authenticated {
        assert h <= m < m + 1 && Verified(run, m, key, after.uid);
      }
    } else {
      h := PendingHasProvenance(run, m, key);
      ProvenanceStep(run, h, m, key, st.executions[key].context.pending.value, after);
    }
  }

  // Tokens

  /**
   `cookie` is a token of `key`'s session for the user identified there at step `h`, with the
   administrator bit of that user's row, and the execution at `key` has since checked their password.
   */
  ghost predicate IssuedFor(run: Run, h: nat, m: nat, key: FlowKey, cookie: Option<string>)
    requires ValidRun(run) && h <= m < |run.steps|
  {
    && Identifies(run, h, key).Some?
    && var row := Identifies(run, h, key).value;
       && cookie.Some?
       && run.env.decode(cookie.value) == Ok(Claims(key.session, ISSUER, Some(row.uid), true, row.administrator))
       && exists i: nat :: h <= i <= m && Verified(run, i, key, row.uid)
  }

  lemma PostCookieIsIssued(run: Run, m: nat, key: FlowKey) returns (h: nat)
    requires ValidRun(run) && SoundCodec(run.env) && m < |run.steps|
    requires PostsTo(run.env, At(run, m), run.steps[m], key)
    ensures h <= m
    ensures var f := EffectAt(run.env, At(run, m), run.steps[m], key);
            || (f.cookie == run.steps[m].req.cookie && f.logins == 0)
            || (IssuedFor(run, h, m, key, f.cookie) && f.exec.context.pending.Some? &&
                Identifies(run, h, key).value.uid == f.exec.context.pending.value.uid)
  {
    hide Verified;
    hide Identifies;
    var f := EffectAt(run.env, At(run, m), run.steps[m], key);
    h := m;
    PostIssuesToken(run.env, At(run, m), run.steps[m], key);
    if f.cookie != run.steps[m].req.cookie || f.logins > 0 {
      h := EffectHasProvenance(run, m, key);
      var i: nat :| h <= i < m + 1 && Verified(run, i, key, f.exec.context.pending.value.uid);
      assert h <= i <= m && Verified(run, i, key, Identifies(run, h, key).value.uid);
    }
  }

  /**
   Every cookie a response leaves with is the request's own, or an unauthenticated token of the session
   just created, or a token of the request's session for a user whose password was checked in it; even
   if the request failed after issuing it.
   */
  lemma CookiesAreAccountedFor(run: Run, m: nat)
    requires ValidRun(run) && SoundCodec(run.env) && m < |run.steps|
    requires run.steps[m].GetStep? || run.steps[m].PostStep?
    ensures var req := run.steps[m].req;
            var cookie := ResponseTo(run.env, At(run, m), run.steps[m]).value.cookie;
            || cookie == req.cookie
            || (cookie.Some? &&
                run.env.decode(cookie.value) == Ok(Claims(req.freshSid, ISSUER, None, false, false)))
            || exists h: nat, key: FlowKey ::
                 h <= m && TargetOf(run.env, At(run, m), run.steps[m]) == Some(key) && IssuedFor(run, h, m, key, cookie)
  {
    hide IssuedFor;
    var st, step := At(run, m), run.steps[m];
    var target := TargetOf(run.env, st, step);
    if target.Some? && PostsTo(run.env, st, step, target.value) {
      PostNext(run.env, st, step, target.value);
      var h := PostCookieIsIssued(run, m, target.value);
    } else {
      IdleCookie(run.env, st, step);
    }
  }

  /**
   After a committed login the cookie is a token of the request's session for the user the row now
   names, with the admin bit that user's row had when they were identified.
   */
  lemma LoginTokenAgrees(run: Run, m: nat, key: FlowKey, uid: Uuid) returns (h: nat)
    requires ValidRun(run) && SoundCodec(run.env) && m < |run.steps|
    requires LogsIn(run.env, At(run, m), run.steps[m], key, Some(uid))
    ensures key.session in At(run, m + 1).sessions && At(run, m + 1).sessions[key.session] == Some(uid)
    ensures h <= m && Identifies(run, h, key).Some? && Identifies(run, h, key).value.uid == uid
    ensures IssuedFor(run, h, m, key, ResponseTo(run.env, At(run, m), run.steps[m]).value.cookie)
  {
    AtNext(run, m);
    PostNext(run.env, At(run, m), run.steps[m], key);
    LoginIssuesToken(run.env, At(run, m), run.steps[m], key, Some(uid));
    h := PostCookieIsIssued(run, m, key);
  }

  // What an issued token is worth later

  /** The user a committed login of session `sid` at step `j` binds it to. */
  ghost function BoundAt(run: Run, j: nat, sid: string): Option<Uuid>
    requires ValidRun(run) && j < |run.steps|
  {
    var target := TargetOf(run.env, At(run, j), run.steps[j]);
    if target.Some? && target.value.session == sid && PostsTo(run.env, At(run, j), run.steps[j], target.value) then
      var f := EffectAt(run.env, At(run, j), run.steps[j], target.value);
      if f.logins > 0 && f.outcome == Success(SeeOther) && f.exec.context.pending.Some? then
        Some(f.exec.context.pending.value.uid)
      else None
    else None
  }

  /** The user the last committed login of session `sid` among the steps `i` to `n` binds it to. */
  ghost function LastBound(run: Run, i: nat, n: nat, sid: string): Option<Uuid>
    requires ValidRun(run) && i <= n <= |run.steps|
    decreases n
  {
    if i == n then None
    else if BoundAt(run, n - 1, sid).Some? then BoundAt(run, n - 1, sid)
    else LastBound(run, i, n - 1, sid)
  }

  lemma RowAfterStep(run: Run, j: nat, sid: string)
    requires ValidRun(run) && j < |run.steps| && sid in At(run, j).sessions
    ensures sid in At(run, j + 1).sessions
    ensures At(run, j + 1).sessions[sid] ==
            if BoundAt(run, j, sid).Some? then BoundAt(run, j, sid) else At(run, j).sessions[sid]
  {
    AtNext(run, j);
    SessionStep(run.env, At(run, j), run.steps[j], sid);
    var target := TargetOf(run.env, At(run, j), run.steps[j]);
    if target.Some? && PostsTo(run.env, At(run, j), run.steps[j], target.value) {
      PostNext(run.env, At(run, j), run.steps[j], target.value);
      PostCommits(run.env, At(run, j), run.steps[j], target.value);
    }
  }

  /** A session's row names the user of its last committed login. */
  lemma {:induction false} RowIsLastBound(run: Run, i: nat, n: nat, sid: string)
    requires ValidRun(run) && i <= n <= |run.steps| && sid in At(run, i).sessions
    ensures sid in At(run, n).sessions
    ensures At(run, n).sessions[sid] ==
            if LastBound(run, i, n, sid).Some? then LastBound(run, i, n, sid) else At(run, i).sessions[sid]
    decreases n
  {
    hide BoundAt;
    if i < n {
      RowIsLastBound(run, i, n - 1, sid);
      RowAfterStep(run, n - 1, sid);
    }
  }

  /**
   Whenever a token issued at step `m` is used later on, the session has the administrator bit of the
   token's user, and its row names that user exactly if they are the one of the session's last committed
   login since, or, without any, the one the row named before.
   */
  lemma IssuedTokenAgreesLater(run: Run, m: nat, n: nat, key: FlowKey, later: Request)
    requires ValidRun(run) && SoundCodec(run.env) && m < n <= |run.steps|
    requires PostsTo(run.env, At(run, m), run.steps[m], key)
    requires EffectAt(run.env, At(run, m), run.steps[m], key).cookie != run.steps[m].req.cookie
    requires later.cookie == EffectAt(run.env, At(run, m), run.steps[m], key).cookie && !later.faults.session
    ensures var pending := EffectAt(run.env, At(run, m), run.steps[m], key).exec.context.pending;
            var rows := At(run, n).sessions;
            && pending.Some? && key.session in rows && key.session in At(run, m).sessions
            && ExtractSession(run.env, rows, later).outcome ==
               Success(Session(key.session, rows[key.session], pending.value.isAdmin))
            && (rows[key.session] == Some(pending.value.uid) <==>
                match LastBound(run, m, n, key.session)
                case Some(uid) => uid == pending.value.uid
                case None => At(run, m).sessions[key.session] == Some(pending.value.uid))
  {
    hide PostTo;
    hide BoundAt;
    PostIssuesToken(run.env, At(run, m), run.steps[m], key);
    PostCommits(run.env, At(run, m), run.steps[m], key);
    RowIsLastBound(run, m, n, key.session);
  }

  // Frozen configuration

  /** Step `i` started the execution found at `key` later on. */
  ghost predicate StartedAt(run: Run, i: nat, key: FlowKey, e: Execution)
    requires ValidRun(run) && i < |run.steps|
  {
    && run.steps[i].GetStep? && key !in At(run, i).executions
    && var e0 := StartExecution(At(run, i).source, key, run.steps[i].req.now);
       && e0.Ready? && e0.exec.flow == e.flow
       && e0.exec.context.storage == e.context.storage && e.context.startTime == run.steps[i].req.now
  }

  lemma {:induction false} ExecutionHasStart(run: Run, n: nat, key: FlowKey) returns (i: nat)
    requires ValidRun(run) && n <= |run.steps| && key in At(run, n).executions
    ensures i < n && StartedAt(run, i, key, At(run, n).executions[key])
    ensures Stays(run, i + 1, n, key)
  {
    var m := n - 1;
    assert n > 0;
    hide Stays;
    AtNext(run, m);
    ExecutionStep(run.env, At(run, m), run.steps[m], key);
    if run.steps[m].GetStep? {
      StartIsSound(At(run, m).source, key, run.steps[m].req.now);
    }
    if key in At(run, m).executions {
      i := ExecutionHasStart(run, m, key);
    } else {
      i := m;
    }
    StaysSplits(run, i + 1, n, key);
  }

  /**
   However the configuration changes meanwhile, a running execution finds every stage and policy its
   flow can ask for, and finds them as they were when it started.
   */
  lemma FrozenAnswers(run: Run, n: nat, key: FlowKey) returns (i: nat)
    requires ValidRun(run) && n <= |run.steps| && key in At(run, n).executions
    ensures i < n && StartedAt(run, i, key, At(run, n).executions[key])
    ensures var e := At(run, n).executions[key];
            && Covers(e.flow, e.context.storage)
            && Lookup(At(run, i).source.flows, key.flow) == Some(e.flow)
            && (forall q :: Answers(e.context.storage.stages, q) ==>
                  Answers(At(run, i).source.stages, q) &&
                  Find(e.context.storage.stages, q) == Find(At(run, i).source.stages, q))
            && (forall q :: Answers(e.context.storage.policies, q) ==>
                  Answers(At(run, i).source.policies, q) &&
                  Find(e.context.storage.policies, q) == Find(At(run, i).source.policies, q))
  {
    i := ExecutionHasStart(run, n, key);
    assert ValidExecution(At(run, n), key);
    var src := At(run, i).source;
    StoredFlowResolves(src, key.flow);
    FreezeSound(src, Walk(src, At(run, n).executions[key].flow));
  }

  /**
   How old a password may be is measured at the time of the GET that started the execution: a binding to
   an expiry policy is met exactly if the user's password had not expired then, or, negated, if it had.
   */
  lemma ExpiryIsMeasuredAtStart(run: Run, n: nat, key: FlowKey, ctx: CheckContext, b: FlowBinding)
    returns (i: nat)
    requires ValidRun(run) && n <= |run.steps| && key in At(run, n).executions
    requires b.enabled && b.kind.PolicyRef? && ctx.request.user.Some?
    requires var policies := At(run, n).executions[key].context.storage.policies;
             Answers(policies, b.kind.policy) && Find(policies, b.kind.policy).kind.PasswordExpiry?
    ensures i < n && StartedAt(run, i, key, At(run, n).executions[key])
    ensures var e := At(run, n).executions[key];
            var maxAge := Find(e.context.storage.policies, b.kind.policy).kind.maxAge;
            CheckBinding(e.context, ctx, b).Pass? <==>
            (run.steps[i].req.now < ctx.request.user.value.passwordChangeDate + maxAge * 1_000_000_000) != b.negate
  {
    hide CheckBinding;
    hide StartExecution;
    i := ExecutionHasStart(run, n, key);
    ExpiryBindingPassesIff(At(run, n).executions[key].context, ctx, b);
  }

  // Sessions do not interfere

  /** A request in session `sid`, or the eviction of one of its executions. */
  predicate ActsFor(env: Env, st: System, step: Step, sid: string) {
    || (SessionOf(env, st, step).Some? && SessionOf(env, st, step).value.sessionId == sid)
    || (step.Evict? && step.key.session == sid)
  }

  /** The two states agree on the row and the executions of session `sid`. */
  ghost predicate SameFor(sid: string, a: System, b: System) {
    && (sid in a.sessions <==> sid in b.sessions)
    && (sid in a.sessions && sid in b.sessions ==> a.sessions[sid] == b.sessions[sid])
    && forall key: FlowKey | key.session == sid ::
        && (key in a.executions <==> key in b.executions)
        && (key in a.executions && key in b.executions ==> a.executions[key] == b.executions[key])
  }

  lemma StepSparesOthers(env: Env, st: System, step: Step, sid: string)
    requires ValidSystem(st) && sid in st.sessions && !ActsFor(env, st, step, sid)
    ensures SameFor(sid, st, Next(env, st, step))
  {
    if step.GetStep? || step.PostStep? {
      ExtractionKeepsRows(env, st.sessions, step.req);
      var target := TargetOf(env, st, step);
      if target.None? || (step.PostStep? && target.value !in st.executions) {
        IdleNext(env, st, step);
      } else if step.GetStep? {
        GetNext(env, st, step, target.value);
      } else {
        PostNext(env, st, step, target.value);
      }
    } else {
      OutsideNext(env, st, step);
    }
  }

  /** Whatever other sessions do, for however long, a session's row and executions stay as they are. */
  lemma {:induction false} OtherSessionsAreSpared(run: Run, i: nat, j: nat, sid: string)
    requires ValidRun(run) && i <= j <= |run.steps| && sid in At(run, i).sessions
    requires forall m | i <= m < j :: !ActsFor(run.env, At(run, m), run.steps[m], sid)
    ensures SameFor(sid, At(run, i), At(run, j))
    decreases j
  {
    if i < j {
      OtherSessionsAreSpared(run, i, j - 1, sid);
      AtNext(run, j - 1);
      StepSparesOthers(run.env, At(run, j - 1), run.steps[j - 1], sid);
    }
  }

  // Redirects

  lemma {:induction false} AppearsBetween(run: Run, i: nat, j: nat, key: FlowKey) returns (m: nat)
    requires ValidRun(run) && i < j <= |run.steps|
    requires key !in At(run, i).executions && key in At(run, j).executions
    ensures i <= m < j && key !in At(run, m).executions && key in At(run, m + 1).executions
    decreases j
  {
    if key in At(run, j - 1).executions {
      m := AppearsBetween(run, i, j - 1, key);
    } else {
      m := j - 1;
    }
  }

  /** An execution that appears was started by a GET, and is new. */
  lemma AppearsByStart(run: Run, m: nat, key: FlowKey)
    requires ValidRun(run) && m < |run.steps|
    requires key !in At(run, m).executions && key in At(run, m + 1).executions
    ensures run.steps[m].GetStep?
    ensures var e := At(run, m + 1).executions[key];
            e.cursor == 0 && !e.completed && e.context.pending.None? && e.context.error.None?
  {
    AtNext(run, m);
    ExecutionStep(run.env, At(run, m), run.steps[m], key);
  }

  lemma RedirectedIsGone(run: Run, i: nat, key: FlowKey)
    requires ValidRun(run) && i < |run.steps|
    requires Redirects(run.env, At(run, i), run.steps[i], key)
    ensures key in At(run, i).executions && key !in At(run, i + 1).executions
  {
    RedirectEndsExecution(run.env, At(run, i), run.steps[i], key);
    AtNext(run, i);
  }

  /** An execution redirects once: between two redirects at a key a new execution is started there. */
  lemma RedirectsOnce(run: Run, i: nat, j: nat, key: FlowKey) returns (m: nat)
    requires ValidRun(run) && i < j < |run.steps|
    requires Redirects(run.env, At(run, i), run.steps[i], key)
    requires Redirects(run.env, At(run, j), run.steps[j], key)
    ensures i < m < j && run.steps[m].GetStep? && key !in At(run, m).executions
    ensures key in At(run, m + 1).executions
    ensures var e := At(run, m + 1).executions[key];
            e.cursor == 0 && !e.completed && e.context.pending.None? && e.context.error.None?
  {
    hide Redirects;
    RedirectedIsGone(run, i, key);
    RedirectedIsGone(run, j, key);
    m := AppearsBetween(run, i + 1, j, key);
    AppearsByStart(run, m, key);
  }

  /**
   While an execution stays, its cursor never moves back, its error never goes away, and from its
   completion on nothing about it changes.
   */
  lemma {:induction false} ExecutionsOnlyProceed(run: Run, i: nat, j: nat, key: FlowKey)
    requires ValidRun(run) && i <= j <= |run.steps|
    requires Stays(run, i, j, key)
    ensures key in At(run, i).executions && key in At(run, j).executions
    ensures var e, e' := At(run, i).executions[key], At(run, j).executions[key];
            && e.cursor <= e'.cursor
            && (e.context.error.Some? ==> e'.context.error.Some?)
            && (e.completed ==> e' == e)
    decreases j
  {
    hide Stays;
    StaysSplits(run, i, j, key);
    if i < j {
      ExecutionsOnlyProceed(run, i, j - 1, key);
      AtNext(run, j - 1);
      ExecutionStep(run.env, At(run, j - 1), run.steps[j - 1], key);
    }
  }

  // Logins

  /** The logins that the POST at `key`, if step `m` is one, runs. */
  ghost function LoginsRunAt(run: Run, m: nat, key: FlowKey): nat
    requires ValidRun(run) && m < |run.steps|
  {
    if PostsTo(run.env, At(run, m), run.steps[m], key) then EffectAt(run.env, At(run, m), run.steps[m], key).logins
    else 0
  }

  /** Step `m` is an accepted POST to the execution at `key`, which is not completed. */
  ghost predicate AcceptsAt(run: Run, m: nat, key: FlowKey)
    requires ValidRun(run) && m < |run.steps|
  {
    AcceptedAt(run.env, At(run, m), run.steps[m], key) && !At(run, m).executions[key].completed
  }

  /** Step `m` is such a POST made at a login entry. */
  ghost predicate PostsAtLogin(run: Run, m: nat, key: FlowKey)
    requires ValidRun(run) && m < |run.steps|
  {
    AcceptsAt(run, m, key) && At(run, m).executions[key].Stage().kind.UserLogin?
  }

  /** The logins that steps `i` to `n` run at `key`. */
  ghost function LoginsRun(run: Run, i: nat, n: nat, key: FlowKey): nat
    requires ValidRun(run) && i <= n <= |run.steps|
    decreases n
  {
    if i == n then 0 else LoginsRun(run, i, n - 1, key) + LoginsRunAt(run, n - 1, key)
  }

  /** How many of the steps `i` to `n` are accepted POSTs made at a login entry. */
  ghost function PostsMadeAtLogins(run: Run, i: nat, n: nat, key: FlowKey): nat
    requires ValidRun(run) && i <= n <= |run.steps|
    decreases n
  {
    if i == n then 0 else PostsMadeAtLogins(run, i, n - 1, key) + if PostsAtLogin(run, n - 1, key) then 1 else 0
  }

  /** How many of the steps `i` to `n` are accepted POSTs to the running execution. */
  ghost function AcceptedPosts(run: Run, i: nat, n: nat, key: FlowKey): nat
    requires ValidRun(run) && i <= n <= |run.steps|
    decreases n
  {
    if i == n then 0 else AcceptedPosts(run, i, n - 1, key) + if AcceptsAt(run, n - 1, key) then 1 else 0
  }

  lemma {:induction false} LoginsAreCounted(run: Run, i: nat, n: nat, key: FlowKey)
    requires ValidRun(run) && i <= n <= |run.steps|
    requires Stays(run, i, n, key)
    ensures key in At(run, i).executions && key in At(run, n).executions
    ensures var e, e' := At(run, i).executions[key], At(run, n).executions[key];
            && e.Sound() && e'.Sound()
            && e'.flow == e.flow && e'.context.storage == e.context.storage
            && Stands(e') == Stands(e) + AcceptedPosts(run, i, n, key) + LoginsRun(run, i, n, key)
            && LoginsBetween(e', Stands(e), Stands(e')) == LoginsRun(run, i, n, key) + PostsMadeAtLogins(run, i, n, key)
    decreases n
  {
    hide LoginsRunAt;
    hide PostsAtLogin;
    hide AcceptsAt;
    hide Stays;
    StaysSplits(run, i, n, key);
    assert ValidExecution(At(run, i), key);
    if i < n {
      LoginsAreCounted(run, i, n - 1, key);
      LoginsCountedAt(run, n - 1, key);
      var e, e1, e' := At(run, i).executions[key], At(run, n - 1).executions[key], At(run, n).executions[key];
      SameLogins(e1, e', Stands(e), Stands(e1));
      LoginsAdd(e', Stands(e), Stands(e1), Stands(e'));
    }
  }

  lemma LoginsCountedAt(run: Run, m: nat, key: FlowKey)
    requires ValidRun(run) && m < |run.steps|
    requires key in At(run, m).executions && key in At(run, m + 1).executions
    ensures var e, e' := At(run, m).executions[key], At(run, m + 1).executions[key];
            && e.Sound() && e'.Sound()
            && e'.flow == e.flow && e'.context.storage == e.context.storage
            && Stands(e') == Stands(e) + (if AcceptsAt(run, m, key) then 1 else 0) + LoginsRunAt(run, m, key)
            && LoginsBetween(e', Stands(e), Stands(e')) ==
               LoginsRunAt(run, m, key) + if PostsAtLogin(run, m, key) then 1 else 0
  {
    AtNext(run, m);
    LoginsCountedInStep(run.env, At(run, m), run.steps[m], key);
    var e, e' := At(run, m).executions[key], At(run, m + 1).executions[key];
    SameLogins(e, e', Stands(e), Stands(e'));
  }

  /**
   Since its start an execution has come exactly as far as there were accepted POSTs to it and logins run
   by them. So it takes at most as many of them as the flow has entries, and is completed exactly when
   they have used up the entries.
   */
  lemma ExecutionsProgress(run: Run, n: nat, key: FlowKey) returns (i: nat)
    requires ValidRun(run) && n <= |run.steps| && key in At(run, n).executions
    ensures i < n && StartedAt(run, i, key, At(run, n).executions[key])
    ensures var e := At(run, n).executions[key];
            var steps := AcceptedPosts(run, i + 1, n, key) + LoginsRun(run, i + 1, n, key);
            && e.Sound() && Stands(e) == steps <= |e.flow.entries|
            && (e.completed <==> steps == |e.flow.entries|)
  {
    hide Stays;
    hide StartedAt;
    hide AcceptsAt;
    hide LoginsRunAt;
    i := ExecutionHasStart(run, n, key);
    StaysSplits(run, i + 1, n, key);
    StartIsAtEntryZero(run, i, key, At(run, n).executions[key]);
    LoginsAreCounted(run, i + 1, n, key);
  }

  /**
   Over the life of an execution the login entries it has passed are those its POSTs ran, and one for
   each accepted POST made at a login entry. So a completed execution has run all logins of its flow
   exactly if no such POST was made.
   */
  lemma PassedLoginsAreRun(run: Run, n: nat, key: FlowKey) returns (i: nat)
    requires ValidRun(run) && n <= |run.steps| && key in At(run, n).executions
    ensures i < n && StartedAt(run, i, key, At(run, n).executions[key])
    ensures var e := At(run, n).executions[key];
            && e.Sound()
            && LoginsBetween(e, 0, Stands(e)) == LoginsRun(run, i + 1, n, key) + PostsMadeAtLogins(run, i + 1, n, key)
            && (e.completed ==>
                  (LoginsBetween(e, 0, |e.flow.entries|) == LoginsRun(run, i + 1, n, key) <==>
                   forall m | i < m < n :: !PostsAtLogin(run, m, key)))
  {
    hide Stays;
    hide StartedAt;
    hide PostsAtLogin;
    hide AcceptsAt;
    i := ExecutionHasStart(run, n, key);
    StaysSplits(run, i + 1, n, key);
    StartIsAtEntryZero(run, i, key, At(run, n).executions[key]);
    LoginsAreCounted(run, i + 1, n, key);
    NoPostsMade(run, i + 1, n, key);
  }

  /** Step `m` binds the session of `key` to a user. */
  ghost predicate Binds(run: Run, m: nat, key: FlowKey)
    requires ValidRun(run) && m < |run.steps|
  {
    exists row :: LogsIn(run.env, At(run, m), run.steps[m], key, row)
  }

  /** Step `m` is a POST at `key` that ends in the redirect to the flow. */
  ghost predicate Commits(run: Run, m: nat, key: FlowKey)
    requires ValidRun(run) && m < |run.steps|
  {
    && PostsTo(run.env, At(run, m), run.steps[m], key)
    && EffectAt(run.env, At(run, m), run.steps[m], key).outcome == Success(SeeOther)
  }

  lemma BindsIff(run: Run, m: nat, key: FlowKey)
    requires ValidRun(run) && m < |run.steps|
    ensures Binds(run, m, key) <==> LoginsRunAt(run, m, key) > 0 && Commits(run, m, key)
  {
    if LoginsRunAt(run, m, key) > 0 {
      PostCommits(run.env, At(run, m), run.steps[m], key);
      var user := EffectAt(run.env, At(run, m), run.steps[m], key).exec.context.pending.value;
      assert Commits(run, m, key) ==> LogsIn(run.env, At(run, m), run.steps[m], key, Some(user.uid));
    }
  }

  lemma {:induction false} SomeLoginRun(run: Run, i: nat, n: nat, key: FlowKey)
    requires ValidRun(run) && i <= n <= |run.steps|
    ensures LoginsRun(run, i, n, key) > 0 <==> exists m :: i <= m < n && LoginsRunAt(run, m, key) > 0
    decreases n
  {
    hide LoginsRunAt;
    if i < n {
      SomeLoginRun(run, i, n - 1, key);
    }
  }

  /**
   An execution binds its session exactly if one of its POSTs ran a login and committed. For a completed
   execution whose POSTs that ran logins all committed, that is exactly if its flow has more logins than
   there were accepted POSTs made at one.
   */
  lemma CompletedBindsIff(run: Run, n: nat, key: FlowKey) returns (i: nat)
    requires ValidRun(run) && n <= |run.steps| && key in At(run, n).executions
    ensures i < n && StartedAt(run, i, key, At(run, n).executions[key])
    ensures (exists m :: i < m < n && Binds(run, m, key)) <==>
            exists m :: i < m < n && LoginsRunAt(run, m, key) > 0 && Commits(run, m, key)
    ensures var e := At(run, n).executions[key];
            && e.Sound()
            && (e.completed && (forall m | i < m < n && LoginsRunAt(run, m, key) > 0 :: Commits(run, m, key)) ==>
                  ((exists m :: i < m < n && Binds(run, m, key)) <==>
                   LoginsBetween(e, 0, |e.flow.entries|) > PostsMadeAtLogins(run, i + 1, n, key)))
  {
    hide StartedAt;
    hide PostsAtLogin;
    hide LoginsRunAt;
    hide Binds;
    hide Commits;
    i := PassedLoginsAreRun(run, n, key);
    SomeLoginRun(run, i + 1, n, key);
    forall m | i < m < n
      ensures Binds(run, m, key) <==> LoginsRunAt(run, m, key) > 0 && Commits(run, m, key)
    {
      BindsIff(run, m, key);
    }
  }

  lemma StartIsAtEntryZero(run: Run, i: nat, key: FlowKey, e: Execution)
    requires ValidRun(run) && i < |run.steps| && StartedAt(run, i, key, e) && key in At(run, i + 1).executions
    ensures At(run, i + 1).executions[key].Sound() && Stands(At(run, i + 1).executions[key]) == 0
  {
    AppearsByStart(run, i, key);
    assert ValidExecution(At(run, i + 1), key);
  }

  lemma {:induction false} NoPostsMade(run: Run, i: nat, n: nat, key: FlowKey)
    requires ValidRun(run) && i <= n <= |run.steps|
    ensures PostsMadeAtLogins(run, i, n, key) == 0 <==> forall m | i <= m < n :: !PostsAtLogin(run, m, key)
    decreases n
  {
    hide PostsAtLogin;
    if i < n {
      NoPostsMade(run, i, n - 1, key);
    }
  }

  // Failure

  /** A request that does not end in a committed redirect to the flow binds no session. */
  lemma OnlyCommitsBind(env: Env, st: System, step: Step, sid: string)
    requires ValidSystem(st) && sid in st.sessions
    requires step.PostStep? ==> ResponseTo(env, st, step).value.outcome != Success(SeeOther)
    ensures sid in Next(env, st, step).sessions && Next(env, st, step).sessions[sid] == st.sessions[sid]
  {
    SessionStep(env, st, step, sid);
    if Next(env, st, step).sessions[sid] != st.sessions[sid] {
      var key: FlowKey :| key.session == sid && LogsIn(env, st, step, key, Next(env, st, step).sessions[sid]);
      PostNext(env, st, step, key);
    }
  }
}
