/** What running the server-side stages after a submission amounts to. */
module Completion {
  import opened Wrappers
  import opened Model
  import opened Tables
  import opened Executions
  import opened Requests

  /** The kind of stage at an entry. */
  function KindAt(e: Execution, i: nat): StageKind
    requires e.Sound() && i < |e.flow.entries|
  {
    assert e.flow.entries[i] in e.flow.entries;
    Find(e.context.storage.stages, e.flow.entries[i].stage).kind
  }

  lemma {:induction false} AdvanceFirst(e: Execution, n: nat)
    ensures AdvanceTimes(Advance(e), n) == AdvanceTimes(e, n + 1)
  {
    if n > 0 {
      AdvanceFirst(e, n - 1);
    }
  }

  /** Where the loop stands after `k` logins. */
  lemma AdvancedIsSound(e: Execution, k: nat)
    requires e.Sound()
    ensures AdvanceTimes(e, k).Sound()
  {
    AdvanceTimesCursor(e, k);
  }

  /** The last `k` of the entries passed were logins. */
  predicate PassedLogins(e: Execution, k: nat)
    requires e.Sound()
  {
    && (k > 0 ==> !e.completed && e.cursor + k <= |e.flow.entries|)
    && forall i | e.cursor <= i < e.cursor + k && i < |e.flow.entries| :: KindAt(e, i).UserLogin?
  }

  /** The entry an execution stands at, counting a completed execution as past the last one. */
  function Stands(e: Execution): (i: nat)
    requires e.Sound()
    ensures i <= |e.flow.entries|
  {
    if e.completed then |e.flow.entries| else e.cursor
  }

  /** How many of the entries from `start` up to `end` are logins. */
  function LoginsBetween(e: Execution, start: nat, end: nat): nat
    requires e.Sound() && start <= end <= |e.flow.entries|
    decreases end
  {
    if start == end then 0
    else LoginsBetween(e, start, end - 1) + if KindAt(e, end - 1).UserLogin? then 1 else 0
  }

  lemma {:induction false} LoginsAdd(e: Execution, start: nat, middle: nat, end: nat)
    requires e.Sound() && start <= middle <= end <= |e.flow.entries|
    ensures LoginsBetween(e, start, end) == LoginsBetween(e, start, middle) + LoginsBetween(e, middle, end)
    decreases end
  {
    if middle < end {
      LoginsAdd(e, start, middle, end - 1);
    }
  }

  lemma {:induction false} AllLogins(e: Execution, start: nat, end: nat)
    requires e.Sound() && start <= end <= |e.flow.entries|
    requires forall i | start <= i < end :: KindAt(e, i).UserLogin?
    ensures LoginsBetween(e, start, end) == end - start
    decreases end
  {
    if start < end {
      AllLogins(e, start, end - 1);
    }
  }

  /** The count is a matter of the flow and its frozen store. */
  lemma {:induction false} SameLogins(e: Execution, e': Execution, start: nat, end: nat)
    requires e.Sound() && e'.Sound() && e'.flow == e.flow && e'.context.storage == e.context.storage
    requires start <= end <= |e.flow.entries|
    ensures LoginsBetween(e', start, end) == LoginsBetween(e, start, end)
    decreases end
  {
    if start < end {
      SameLogins(e, e', start, end - 1);
    }
  }

  predicate AwaitsAuthentication(e: Execution) {
    e.context.pending.Some? && !e.context.pending.value.authenticated
  }

  /** The reasons for the loop to end well, having got to `stopped` by `bodies` stage bodies. */
  predicate Stops(stopped: Execution, last: Execution, bodies: nat)
    requires stopped.Sound()
  {
    || (last == stopped &&
        (stopped.completed || stopped.Stage().kind.RequiresInput() || bodies == 41))
    || (!stopped.completed && stopped.Stage().kind.UserLogin? && AwaitsAuthentication(stopped) &&
        last == stopped.(context := stopped.context.(error := Some(AuthenticationFailed(stopped.Entry().stage)))))
  }

  /** The error of a login stage whose pending user is not authenticated. */
  function AuthenticationFailed(stage: StageQuery): ExecutionError {
    ExecutionError(Some(stage), "Authentication of pending user failed")
  }

  /** The reasons for the loop to hit an unfinished stage. */
  predicate HitsUnfinished(stopped: Execution, site: PanicSite)
    requires stopped.Sound()
  {
    && !stopped.completed
    && ((site.LogoutStage? && stopped.Stage().kind.UserLogout?) ||
        (site.WriteStage? && stopped.Stage().kind.UserWrite?))
  }

  /** How `q` comes from `p` by `k` logins. */
  ghost predicate Progressed(env: Env, sid: string, p: Progress, q: Progress, done: Outcome<()>, iterations: nat,
                             k: nat)
    requires p.exec.Sound()
  {
    var stopped := AdvanceTimes(p.exec, k);
    AdvancedIsSound(p.exec, k);
    && q.logins == p.logins + k
    && PassedLogins(p.exec, k)
    && (k > 0 ==> p.exec.context.pending.Some? && p.exec.context.pending.value.authenticated)
    && iterations + k <= 41
    && q.sessions == (if k > 0 then BindSession(p.sessions, sid, p.exec.context.pending.value.uid) else p.sessions)
    && (done.Success? && k == 0 ==> q.cookie == p.cookie)
    && (done.Success? ==> Stops(stopped, q.exec, iterations + k))
    && (!done.Success? ==> q.exec == stopped)
    && (done.Panic? ==> HitsUnfinished(stopped, done.site))
  }

  /** Of the execution only the cursor, the completed flag and the error may have changed. */
  lemma ProgressedShape(env: Env, sid: string, p: Progress, q: Progress, done: Outcome<()>, iterations: nat, k: nat)
    requires p.exec.Sound() && Progressed(env, sid, p, q, done, iterations, k)
    ensures q.exec.Sound() && q.exec == AdvanceTimes(p.exec, k).(context := q.exec.context)
    ensures q.exec.context == p.exec.context.(error := q.exec.context.error)
    ensures p.exec.context.error.Some? ==> q.exec.context.error.Some?
  {
    AdvancedIsSound(p.exec, k);
    AdvanceTimesCursor(p.exec, k);
  }

  lemma BindTwice(sessions: Sessions, sid: string, uid: Uuid)
    ensures BindSession(BindSession(sessions, sid, uid), sid, uid) == BindSession(sessions, sid, uid)
  {
  }

  /** One login further on, the same account of the loop holds. */
  lemma ProgressedStep(env: Env, sid: string, p: Progress, p': Progress, q: Progress, done: Outcome<()>,
                       iterations: nat, k: nat)
    requires p.exec.Sound() && !p.exec.completed && p.exec.Stage().kind.UserLogin?
    requires p.exec.context.pending.Some? && p.exec.context.pending.value.authenticated
    requires p'.exec == Advance(p.exec) && p'.logins == p.logins + 1
    requires p'.sessions == BindSession(p.sessions, sid, p.exec.context.pending.value.uid)
    requires iterations <= MAX_ITERATIONS
    requires Advance(p.exec).Sound() && Progressed(env, sid, p', q, done, iterations + 1, k)
    ensures Progressed(env, sid, p, q, done, iterations, k + 1)
  {
    AdvanceFirst(p.exec, k);
    AdvancedIsSound(p.exec, k + 1);
    BindTwice(p.sessions, sid, p.exec.context.pending.value.uid);
    assert PassedLogins(p.exec, k + 1) by {
      assert KindAt(p.exec, p.exec.cursor).UserLogin?;
      forall i | p.exec.cursor <= i < p.exec.cursor + k + 1 && i < |p.exec.flow.entries|
        ensures KindAt(p.exec, i).UserLogin?
      {
        if i > p.exec.cursor {
          assert KindAt(p'.exec, i).UserLogin?;
        }
      }
    }
  }

  /** The loop goes on after a login: it is at one, and the login does not fail. */
  predicate LogsInNow(env: Env, sid: string, updateFails: nat -> bool, p: Progress, iterations: nat)
    requires p.exec.Sound()
  {
    && !p.exec.completed && p.exec.Stage().kind.UserLogin? && iterations <= MAX_ITERATIONS
    && p.exec.context.pending.Some? && p.exec.context.pending.value.authenticated
    && Login(env, sid, updateFails(iterations), p, p.exec.context.pending.value).1.Success?
  }

  lemma ProgressedAtOnce(env: Env, sid: string, updateFails: nat -> bool, p: Progress, iterations: nat)
    requires p.exec.Sound() && iterations <= MAX_ITERATIONS + 1 && !LogsInNow(env, sid, updateFails, p, iterations)
    ensures var (q, done) := Complete(env, sid, updateFails, p, iterations);
            Progressed(env, sid, p, q, done, iterations, 0)
  {
  }

  /**
   The loop ends for one of the listed reasons, having passed `k` logins and nothing else; it never
   meets a client-side stage, never runs more than 41 bodies, and binds only the given session, to the
   authenticated pending user.
   */
  lemma {:induction false} CompleteProgress(env: Env, sid: string, updateFails: nat -> bool, p: Progress,
                                            iterations: nat)
    returns (k: nat)
    requires p.exec.Sound() && iterations <= MAX_ITERATIONS + 1
    ensures var (q, done) := Complete(env, sid, updateFails, p, iterations);
            Progressed(env, sid, p, q, done, iterations, k)
    decreases p.exec.EntriesLeft()
  {
    hide Progressed;
    if LogsInNow(env, sid, updateFails, p, iterations) {
      var issued := Login(env, sid, updateFails(iterations), p, p.exec.context.pending.value).0;
      AdvanceKeepsSound(p.exec);
      var p' := issued.(exec := Advance(p.exec), logins := p.logins + 1);
      var k' := CompleteProgress(env, sid, updateFails, p', iterations + 1);
      var (q, done) := Complete(env, sid, updateFails, p', iterations + 1);
      ProgressedStep(env, sid, p, p', q, done, iterations, k');
      k := k' + 1;
    } else {
      ProgressedAtOnce(env, sid, updateFails, p, iterations);
      k := 0;
    }
  }

  /**
   If the loop ends well at a server-side stage whose login did not fail, it ran 41 bodies: from the
   start on there are 42 server-side entries in a row.
   */
  lemma CapNeedsLongRun(env: Env, sid: string, updateFails: nat -> bool, p: Progress)
    requires p.exec.Sound() && !AwaitsAuthentication(p.exec)
    requires var (q, done) := Complete(env, sid, updateFails, p, 0);
             && done.Success? && q.exec.Sound() && !q.exec.completed && !q.exec.Stage().kind.RequiresInput()
    ensures p.exec.cursor + 41 < |p.exec.flow.entries|
    ensures forall i | p.exec.cursor <= i <= p.exec.cursor + 41 :: !KindAt(p.exec, i).RequiresInput()
  {
    var (q, done) := Complete(env, sid, updateFails, p, 0);
    var k := CompleteProgress(env, sid, updateFails, p, 0);
    AdvanceTimesCursor(p.exec, k);
    AdvancedIsSound(p.exec, k);
    assert q.exec == AdvanceTimes(p.exec, k) && k == MAX_ITERATIONS + 1;
    assert KindAt(p.exec, q.exec.cursor) == q.exec.Stage().kind;
  }

  // The loop in closed form, when nothing goes wrong

  function LoginRun(e: Execution): nat
    requires e.Sound()
    decreases e.EntriesLeft()
  {
    if e.completed || !e.Stage().kind.UserLogin? then 0
    else
      AdvanceKeepsSound(e);
      1 + LoginRun(Advance(e))
  }

  /** The run of logins at the cursor, without recursion: it is as long as it can be. */
  lemma {:induction false} LoginRunIsMaximal(e: Execution)
    requires e.Sound()
    ensures PassedLogins(e, LoginRun(e))
    ensures !e.completed && e.cursor + LoginRun(e) < |e.flow.entries| ==>
              !KindAt(e, e.cursor + LoginRun(e)).UserLogin?
    decreases e.EntriesLeft()
  {
    if !e.completed {
      if e.Stage().kind.UserLogin? {
        AdvanceKeepsSound(e);
        var e' := Advance(e);
        LoginRunIsMaximal(e');
        assert KindAt(e, e.cursor).UserLogin?;
        forall i | e.cursor < i < |e.flow.entries|
          ensures KindAt(e, i) == KindAt(e', i)
        {
        }
      } else {
        assert KindAt(e, e.cursor) == e.Stage().kind;
      }
    }
  }

  /** The pending user may log in: authenticated, and the cookie can be reissued for them. */
  ghost predicate CanLogin(env: Env, p: Progress) {
    && p.exec.context.pending.Some? && p.exec.context.pending.value.authenticated
    && p.cookie.Some?
    && env.decode(p.cookie.value).Ok?
    && env.encode(LoginClaims(env.decode(p.cookie.value).value, p.exec.context.pending.value)).Ok?
  }

  ghost function LoginCookie(env: Env, p: Progress): Option<string>
    requires CanLogin(env, p)
  {
    Some(env.encode(LoginClaims(env.decode(p.cookie.value).value, p.exec.context.pending.value)).value)
  }

  /** The result of `k` logins in one go. */
  ghost function AfterLogins(env: Env, sid: string, p: Progress, k: nat): Progress
    requires CanLogin(env, p)
  {
    if k == 0 then p
    else Progress(AdvanceTimes(p.exec, k), BindSession(p.sessions, sid, p.exec.context.pending.value.uid),
                  LoginCookie(env, p), p.logins + k)
  }

  ghost function FinalOutcome(stopped: Execution, capped: bool): Outcome<()>
    requires stopped.Sound()
  {
    if stopped.completed || capped then Success(())
    else if stopped.Stage().kind.UserLogout? then Panic(LogoutStage)
    else if stopped.Stage().kind.UserWrite? then Panic(WriteStage)
    else Success(())
  }

  lemma AfterLoginsStep(env: Env, sid: string, p: Progress, k: nat)
    requires SoundCodec(env) && CanLogin(env, p)
    ensures var p' := AfterLogins(env, sid, p, 1);
            CanLogin(env, p') && AfterLogins(env, sid, p', k) == AfterLogins(env, sid, p, k + 1)
  {
    var p' := AfterLogins(env, sid, p, 1);
    var user := p.exec.context.pending.value;
    var claims := LoginClaims(env.decode(p.cookie.value).value, user);
    assert claims.iss == ISSUER;
    assert env.decode(p'.cookie.value) == Ok(claims);
    assert LoginClaims(claims, user) == claims;
    AdvanceFirst(p.exec, k);
    BindTwice(p.sessions, sid, user.uid);
    assert AdvanceTimes(p.exec, 1) == Advance(AdvanceTimes(p.exec, 0));
  }

  /**
   Without faults the loop passes the whole run of login entries at the cursor, or 41 of them, binds
   the session to the pending user once, and hands out one token for them.
   */
  lemma {:induction false} CompleteClosedForm(env: Env, sid: string, updateFails: nat -> bool, p: Progress,
                                              iterations: nat)
    requires SoundCodec(env) && p.exec.Sound() && CanLogin(env, p)
    requires iterations <= MAX_ITERATIONS + 1
    requires forall i :: !updateFails(i)
    ensures var k := Min(LoginRun(p.exec), MAX_ITERATIONS + 1 - iterations);
            && AdvanceTimes(p.exec, k).Sound()
            && Complete(env, sid, updateFails, p, iterations) ==
               (AfterLogins(env, sid, p, k),
                FinalOutcome(AdvanceTimes(p.exec, k), iterations + k == MAX_ITERATIONS + 1))
    decreases p.exec.EntriesLeft()
  {
    hide Complete;
    hide AfterLogins;
    if !p.exec.completed && p.exec.Stage().kind.UserLogin? && iterations <= MAX_ITERATIONS {
      AdvanceKeepsSound(p.exec);
      var k := Min(LoginRun(p.exec), MAX_ITERATIONS + 1 - iterations);
      AfterLoginsStep(env, sid, p, k - 1);
      AdvanceFirst(p.exec, k - 1);
      CompleteOneLogin(env, sid, updateFails, p, iterations);
      CompleteClosedForm(env, sid, updateFails, AfterLogins(env, sid, p, 1), iterations + 1);
    } else {
      CompleteNoLogin(env, sid, updateFails, p, iterations);
    }
  }

  lemma CompleteNoLogin(env: Env, sid: string, updateFails: nat -> bool, p: Progress, iterations: nat)
    requires p.exec.Sound() && CanLogin(env, p) && iterations <= MAX_ITERATIONS + 1
    requires p.exec.completed || !p.exec.Stage().kind.UserLogin? || iterations > MAX_ITERATIONS
    ensures Complete(env, sid, updateFails, p, iterations) ==
            (p, FinalOutcome(p.exec, iterations == MAX_ITERATIONS + 1))
    ensures Min(LoginRun(p.exec), MAX_ITERATIONS + 1 - iterations) == 0
    ensures AfterLogins(env, sid, p, 0) == p && AdvanceTimes(p.exec, 0) == p.exec
  {
  }

  lemma CompleteOneLogin(env: Env, sid: string, updateFails: nat -> bool, p: Progress, iterations: nat)
    requires p.exec.Sound() && CanLogin(env, p) && !updateFails(iterations)
    requires !p.exec.completed && p.exec.Stage().kind.UserLogin? && iterations <= MAX_ITERATIONS
    ensures AfterLogins(env, sid, p, 1).exec == Advance(p.exec) && Advance(p.exec).Sound()
    ensures Complete(env, sid, updateFails, p, iterations) ==
            Complete(env, sid, updateFails, AfterLogins(env, sid, p, 1), iterations + 1)
  {
    AdvanceKeepsSound(p.exec);
    assert AdvanceTimes(p.exec, 1) == Advance(AdvanceTimes(p.exec, 0));
  }

  /** A token of `sid` for `user`. */
  ghost predicate TokenFor(env: Env, cookie: Option<string>, sid: string, user: PendingUser) {
    && cookie.Some? && env.decode(cookie.value).Ok?
    && var claims := env.decode(cookie.value).value;
       && claims.sid == sid && claims.sub == Some(user.uid)
       && claims.authenticated && claims.isAdmin == user.isAdmin
  }

  ghost predicate CookieOf(env: Env, cookie: Option<string>, sid: string) {
    cookie.Some? && env.decode(cookie.value).Ok? && env.decode(cookie.value).value.sid == sid
  }

  /**
   The loop leaves the cookie alone, or with a token of the session for the authenticated pending user,
   whether or not it ends well; and if any login ran, it is the latter.
   */
  lemma {:induction false} CompleteIssuesToken(env: Env, sid: string, updateFails: nat -> bool, p: Progress,
                                               iterations: nat)
    requires SoundCodec(env) && p.exec.Sound() && CookieOf(env, p.cookie, sid)
    ensures var (q, done) := Complete(env, sid, updateFails, p, iterations);
            var pending := p.exec.context.pending;
            || (q.cookie == p.cookie && q.logins == p.logins)
            || (pending.Some? && pending.value.authenticated && TokenFor(env, q.cookie, sid, pending.value))
    decreases p.exec.EntriesLeft()
  {
    if !p.exec.completed && p.exec.Stage().kind.UserLogin? && iterations <= MAX_ITERATIONS
       && p.exec.context.pending.Some? && p.exec.context.pending.value.authenticated {
      var user := p.exec.context.pending.value;
      var (issued, outcome) := Login(env, sid, updateFails(iterations), p, user);
      var claims := env.decode(p.cookie.value).value;
      assert claims.iss == ISSUER;
      if env.encode(LoginClaims(claims, user)).Ok? {
        assert TokenFor(env, issued.cookie, sid, user);
      }
      if outcome.Success? {
        AdvanceKeepsSound(p.exec);
        var p' := issued.(exec := Advance(p.exec), logins := p.logins + 1);
        CompleteIssuesToken(env, sid, updateFails, p', iterations + 1);
      }
    }
  }

  /**
   The loop sets the error exactly when it stops at a login whose pending user is not authenticated, and
   otherwise leaves it as it was.
   */
  lemma {:induction false} CompleteSetsErrorIff(env: Env, sid: string, updateFails: nat -> bool, p: Progress,
                                                iterations: nat)
    requires p.exec.Sound()
    ensures var (q, done) := Complete(env, sid, updateFails, p, iterations);
            && q.exec.Sound()
            && q.exec.context == p.exec.context.(error :=
                 if iterations <= 40 && AwaitsAuthentication(p.exec)
                    && !q.exec.completed && q.exec.Stage().kind.UserLogin?
                 then Some(ExecutionError(Some(q.exec.Entry().stage), "Authentication of pending user failed"))
                 else p.exec.context.error)
    decreases p.exec.EntriesLeft()
  {
    if LogsInNow(env, sid, updateFails, p, iterations) {
      var issued := Login(env, sid, updateFails(iterations), p, p.exec.context.pending.value).0;
      AdvanceKeepsSound(p.exec);
      CompleteSetsErrorIff(env, sid, updateFails, issued.(exec := Advance(p.exec), logins := p.logins + 1),
                           iterations + 1);
    }
  }

  /**
   Why a login of `user` fails: there is no session cookie, it does not decode, the new token cannot be
   signed, or else the update fails.
   */
  function LoginError(env: Env, cookie: Option<string>, user: PendingUser): ApiError {
    match cookie
    case None => InvalidSessionCookie
    case Some(token) =>
      match env.decode(token)
      case Err(error) => error
      case Ok(claims) =>
        match env.encode(Claims(claims.sid, claims.iss, Some(user.uid), true, user.isAdmin))
        case Err(error) => error
        case Ok(_) => Database
  }

  /** The loop fails only at a login, with nobody pending or for one of the reasons a login fails. */
  lemma {:induction false} CompleteFailsAtLogin(env: Env, sid: string, updateFails: nat -> bool, p: Progress,
                                                iterations: nat)
    requires SoundCodec(env) && p.exec.Sound()
    ensures var (q, done) := Complete(env, sid, updateFails, p, iterations);
            var pending := p.exec.context.pending;
            && q.exec.Sound()
            && (done.Failure? ==>
                  && !q.exec.completed && q.exec.Stage().kind.UserLogin?
                  && (pending.Some? ==> pending.value.authenticated)
                  && done.error == if pending.None? then Submission(NoPendingUser)
                                   else LoginError(env, p.cookie, pending.value))
    decreases p.exec.EntriesLeft()
  {
    if LogsInNow(env, sid, updateFails, p, iterations) {
      var user := p.exec.context.pending.value;
      var issued := Login(env, sid, updateFails(iterations), p, user).0;
      var claims := LoginClaims(env.decode(p.cookie.value).value, user);
      assert claims.iss == ISSUER;
      assert env.decode(issued.cookie.value) == Ok(claims) && LoginClaims(claims, user) == claims;
      AdvanceKeepsSound(p.exec);
      CompleteFailsAtLogin(env, sid, updateFails, issued.(exec := Advance(p.exec), logins := p.logins + 1),
                           iterations + 1);
    }
  }
}
