/**
 What one request does, as a function of the server's state. The methods in `Api` are proved against
 these functions, and the runs in `Runs` are sequences of them.
 */
module Requests {
  import opened Wrappers
  import opened Model
  import opened Tables
  import opened Closure
  import opened Executions
  import opened Checks

  datatype VerifyResult = Valid | Mismatch | Broken

  datatype Claims = Claims(sid: string, iss: string, sub: Option<Uuid>, authenticated: bool, isAdmin: bool)

  const ISSUER := "authust"

  /** The cryptography and parsing the server relies on. */
  datatype Env = Env(
    verify: (string, string) -> VerifyResult,
    encode: Claims -> Result<string, ApiError>,
    decode: string -> Result<Claims, ApiError>,
    parseUuid: string -> Option<Uuid>)

  /** Tokens decode to what was signed, and only this issuer's tokens decode. */
  ghost predicate SoundCodec(env: Env) {
    && (forall c: Claims, t: string :: c.iss == ISSUER && env.encode(c) == Ok(t) ==> env.decode(t) == Ok(c))
    && (forall t: string :: env.decode(t).Ok? ==> env.decode(t).value.iss == ISSUER)
  }

  /** Which database operations of a request fail. */
  datatype Faults = Faults(
    session: bool,
    connection: bool,
    lookup: bool,
    password: bool,
    update: nat -> bool,
    commit: bool)

  datatype Request = Request(
    cookie: Option<string>,
    freshSid: string,
    flow: FlowQuery,
    next: Option<string>,
    form: Value,
    engine: Engine,
    now: int,
    faults: Faults)

  datatype Body = Page(data: FlowData) | SeeOther

  datatype Response = Response(outcome: Outcome<Body>, cookie: Option<string>)

  // Sessions

  datatype Session = Session(sessionId: string, userId: Option<Uuid>, isAdmin: bool)

  /** The `sessions` table: session ids, and the user each is bound to. */
  type Sessions = map<string, Option<Uuid>>

  datatype Extraction = Extraction(sessions: Sessions, cookie: Option<string>, outcome: Outcome<Session>)

  function MakeNewSession(env: Env, sessions: Sessions, req: Request): Extraction {
    if req.faults.session then Extraction(sessions, req.cookie, Failure(Database))
    else if req.freshSid in sessions then Extraction(sessions, req.cookie, Failure(Conflict))
    else
      var inserted := sessions[req.freshSid := None];
      match env.encode(Claims(req.freshSid, ISSUER, None, false, false))
      case Err(error) => Extraction(inserted, req.cookie, Failure(error))
      case Ok(token) => Extraction(inserted, Some(token), Success(Session(req.freshSid, None, false)))
  }

  function ExtractSession(env: Env, sessions: Sessions, req: Request): Extraction {
    match req.cookie
    case None => MakeNewSession(env, sessions, req)
    case Some(token) =>
      match env.decode(token)
      case Err(error) => Extraction(sessions, req.cookie, Failure(error))
      case Ok(claims) =>
        if req.faults.session then Extraction(sessions, req.cookie, Failure(Database))
        else if claims.sid in sessions then
          Extraction(sessions, req.cookie, Success(Session(claims.sid, sessions[claims.sid], claims.isAdmin)))
        else MakeNewSession(env, sessions, req)
  }

  /** `update sessions set user_id = uid where uid = sid`. */
  function BindSession(sessions: Sessions, sid: string, uid: Uuid): Sessions {
    if sid in sessions then sessions[sid := Some(uid)] else sessions
  }

  /** The update adds no row, and changes the one it names only. */
  lemma UpdateKeepsRows(sessions: Sessions, sid: string, uid: Uuid)
    ensures var updated := BindSession(sessions, sid, uid);
            && updated.Keys == sessions.Keys
            && forall other <- sessions :: updated[other] == if other == sid then Some(uid) else sessions[other]
  {
  }

  // Users

  function Rows(users: seq<UserRow>, p: UserRow -> bool): (r: seq<UserRow>)
    ensures forall row <- r :: row in users && p(row)
  {
    if users == [] then []
    else (if p(users[0]) then [users[0]] else []) + Rows(users[1..], p)
  }

  /** A query for at most one row. */
  function QueryOpt(users: seq<UserRow>, p: UserRow -> bool): (r: Outcome<Option<UserRow>>)
    ensures r.Success? && r.value.Some? ==> r.value.value in users && p(r.value.value)
  {
    var rows := Rows(users, p);
    if |rows| == 0 then Success(None)
    else if |rows| == 1 then Success(Some(rows[0]))
    else Failure(Database)
  }

  function ToPartialUser(row: UserRow): PartialUser {
    PartialUser(row.uid, row.name, row.administrator, row.passwordChangeDate)
  }

  function FindByUid(users: seq<UserRow>, uid: Uuid): (r: Outcome<Option<UserRow>>)
    ensures r.Success? && r.value.Some? ==> r.value.value in users && r.value.value.uid == uid
  {
    QueryOpt(users, (row: UserRow) => row.uid == uid)
  }

  function LookupUserUid(users: seq<UserRow>, uid: Uuid): Outcome<Option<PartialUser>> {
    match FindByUid(users, uid)
    case Success(Some(row)) => Success(Some(ToPartialUser(row)))
    case Success(None) => Success(None)
    case Failure(error) => Failure(error)
    case Panic(site) => Panic(site)
  }

  /** Tries the name, then the email, then the id, each if the stage allows it. */
  function LookupUser(env: Env, users: seq<UserRow>, text: string, fields: seq<UserField>): Outcome<Option<UserRow>> {
    var byName := if Name in fields then QueryOpt(users, (row: UserRow) => row.name == text) else Success(None);
    if byName != Success(None) then byName
    else
      var byEmail :=
        if Email in fields then QueryOpt(users, (row: UserRow) => row.email == Some(text)) else Success(None);
      if byEmail != Success(None) then byEmail
      else if UserId in fields && env.parseUuid(text).Some? then
        FindByUid(users, env.parseUuid(text).value)
      else Success(None)
  }

  /** No row, one row or several rows match: `i` and `j` are the first positions of such rows. */
  lemma {:induction false} RowsShape(users: seq<UserRow>, p: UserRow -> bool) returns (i: nat, j: nat)
    ensures var rows := Rows(users, p);
            && (|rows| == 0 ==> forall k | 0 <= k < |users| :: !p(users[k]))
            && (|rows| == 1 ==> i < |users| && p(users[i]) && rows[0] == users[i] &&
                                forall k | 0 <= k < |users| && p(users[k]) :: k == i)
            && (|rows| > 1 ==> i < j < |users| && p(users[i]) && p(users[j]))
  {
    i, j := 0, 0;
    if users != [] {
      var i', j' := RowsShape(users[1..], p);
      if p(users[0]) {
        j := i' + 1;
      } else {
        i, j := i' + 1, j' + 1;
      }
      assert forall k | 0 < k < |users| :: users[k] == users[1..][k - 1];
    }
  }

  predicate Matches(env: Env, row: UserRow, text: string, field: UserField) {
    match field
    case Name => row.name == text
    case Email => row.email == Some(text)
    case UserId => env.parseUuid(text) == Some(row.uid)
  }

  /** Row `i` of the table matches. */
  predicate MatchesAt(env: Env, users: seq<UserRow>, text: string, field: UserField, i: nat) {
    i < |users| && Matches(env, users[i], text, field)
  }

  /** The fields a lookup tries before the given one. */
  predicate TriedBefore(a: UserField, b: UserField) {
    (a.Name? && !b.Name?) || (a.Email? && b.UserId?)
  }

  /** `field` is allowed, and the allowed fields tried before it match nobody. */
  ghost predicate ReachesField(env: Env, users: seq<UserRow>, text: string, fields: seq<UserField>, field: UserField) {
    && field in fields
    && forall earlier, k: nat | earlier in fields && TriedBefore(earlier, field) ::
        !MatchesAt(env, users, text, earlier, k)
  }

  /** The lookup gets to `field`, and the row at `i` is the only one it matches. */
  ghost predicate OneMatch(env: Env, users: seq<UserRow>, text: string, fields: seq<UserField>, field: UserField,
                           i: nat)
  {
    && ReachesField(env, users, text, fields, field)
    && MatchesAt(env, users, text, field, i)
    && forall k: nat | MatchesAt(env, users, text, field, k) :: k == i
  }

  /** The lookup gets to `field`, which matches several rows. */
  ghost predicate SeveralMatch(env: Env, users: seq<UserRow>, text: string, fields: seq<UserField>, field: UserField,
                               i: nat, j: nat)
  {
    && ReachesField(env, users, text, fields, field)
    && i < j && MatchesAt(env, users, text, field, i) && MatchesAt(env, users, text, field, j)
  }

  /** What the query for one field comes to. */
  function QueryField(env: Env, users: seq<UserRow>, text: string, field: UserField): Outcome<Option<UserRow>> {
    match field
    case Name => QueryOpt(users, (row: UserRow) => row.name == text)
    case Email => QueryOpt(users, (row: UserRow) => row.email == Some(text))
    case UserId =>
      match env.parseUuid(text)
      case Some(uid) => FindByUid(users, uid)
      case None => Success(None)
  }

  lemma QueryFieldCases(env: Env, users: seq<UserRow>, text: string, field: UserField) returns (i: nat, j: nat)
    ensures match QueryField(env, users, text, field)
            case Success(None) => forall k: nat :: !MatchesAt(env, users, text, field, k)
            case Success(Some(row)) =>
              && MatchesAt(env, users, text, field, i) && row == users[i]
              && forall k: nat | MatchesAt(env, users, text, field, k) :: k == i
            case Failure(error) =>
              && error.Database? && i < j
              && MatchesAt(env, users, text, field, i) && MatchesAt(env, users, text, field, j)
            case Panic(_) => false
  {
    i, j := 0, 0;
    match field
    case Name => i, j := RowsShape(users, (row: UserRow) => row.name == text);
    case Email => i, j := RowsShape(users, (row: UserRow) => row.email == Some(text));
    case UserId =>
      if env.parseUuid(text).Some? {
        var uid := env.parseUuid(text).value;
        i, j := RowsShape(users, (row: UserRow) => row.uid == uid);
      }
  }

  /** The field that decides a lookup, or the last one if none does. */
  function DecidingField(env: Env, users: seq<UserRow>, text: string, fields: seq<UserField>): UserField {
    if Name in fields && QueryField(env, users, text, Name) != Success(None) then Name
    else if Email in fields && QueryField(env, users, text, Email) != Success(None) then Email
    else UserId
  }

  /**
   A lookup tries the allowed fields in the order name, email, id, and the first that anybody matches
   decides: it finds the only matching row, or fails because there are several; and it finds nobody
   exactly if no allowed field matches anybody.
   */
  lemma LookupUserFindsFirstMatch(env: Env, users: seq<UserRow>, text: string, fields: seq<UserField>)
    ensures match LookupUser(env, users, text, fields)
            case Success(None) =>
              forall field, k: nat | field in fields :: !MatchesAt(env, users, text, field, k)
            case Success(Some(row)) =>
              exists field, i: nat :: OneMatch(env, users, text, fields, field, i) && row == users[i]
            case Failure(error) =>
              error.Database? && exists field, i: nat, j: nat :: SeveralMatch(env, users, text, fields, field, i, j)
            case Panic(_) => false
  {
    hide LookupUser;
    hide QueryField;
    hide DecidingField;
    hide ReachesField;
    hide MatchesAt;
    LookupUserByFields(env, users, text, fields);
    DecidingFieldIsReached(env, users, text, fields);
    var field := DecidingField(env, users, text, fields);
    var i, j := QueryFieldCases(env, users, text, field);
    if field in fields && QueryField(env, users, text, field).Failure? {
      assert SeveralMatch(env, users, text, fields, field, i, j);
    } else if field in fields && QueryField(env, users, text, field).value.Some? {
      assert OneMatch(env, users, text, fields, field, i);
    }
  }

  lemma DecidingFieldIsReached(env: Env, users: seq<UserRow>, text: string, fields: seq<UserField>)
    ensures var field := DecidingField(env, users, text, fields);
            && (field in fields ==> ReachesField(env, users, text, fields, field))
            && (field !in fields || QueryField(env, users, text, field) == Success(None) ==>
                  forall other, k: nat | other in fields :: !MatchesAt(env, users, text, other, k))
  {
    hide QueryField;
    hide MatchesAt;
    var _, _ := QueryFieldCases(env, users, text, Name);
    var _, _ := QueryFieldCases(env, users, text, Email);
    var _, _ := QueryFieldCases(env, users, text, UserId);
    forall other, k: nat | other in fields && MatchesAt(env, users, text, other, k)
      ensures DecidingField(env, users, text, fields) in fields
      ensures QueryField(env, users, text, DecidingField(env, users, text, fields)) != Success(None)
    {
      match other
      case Name =>
      case Email =>
      case UserId =>
    }
  }

  lemma LookupUserByFields(env: Env, users: seq<UserRow>, text: string, fields: seq<UserField>)
    ensures var field := DecidingField(env, users, text, fields);
            LookupUser(env, users, text, fields) ==
            if field in fields then QueryField(env, users, text, field) else Success(None)
  {
  }

  /** These cases exclude each other, so each of them is exactly when the lookup ends that way. */
  lemma LookupUserFailsIffSeveralMatch(env: Env, users: seq<UserRow>, text: string, fields: seq<UserField>)
    ensures LookupUser(env, users, text, fields) == Failure(Database) <==>
            exists field, i: nat, j: nat :: SeveralMatch(env, users, text, fields, field, i, j)
  {
    LookupUserFindsFirstMatch(env, users, text, fields);
  }

  function SessionUser(users: seq<UserRow>, session: Session): Outcome<Option<PartialUser>> {
    match session.userId
    case Some(uid) => LookupUserUid(users, uid)
    case None => Success(None)
  }

  // Rendering an execution

  function Component(e: Execution): Outcome<FlowComponent>
    requires e.Sound()
  {
    match e.Stage().kind
    case Deny => Success(AccessDenied("Access denied"))
    case PromptStage(_) => Panic(PromptComponent)
    case Identification(password, fields) => Success(IdentificationForm(fields, password.Some?))
    case UserLogin | UserLogout | UserWrite =>
      Success(AccessDenied("Internal error while constructing component"))
    case Password(_) => Success(PasswordForm)
    case Consent(_) => Panic(ConsentComponent)
  }

  /** A rendered page, and whether rendering it removed the execution. */
  datatype Rendering = Rendering(outcome: Outcome<Body>, invalidates: bool)

  function Data(e: Execution, error: Option<SubmissionError>, ctx: CheckContext): Rendering
    requires e.Sound()
  {
    var verdict := Check(e, ctx);
    if verdict.Unfinished? then Rendering(Panic(GroupBinding), false)
    else if verdict.Refuse? && !e.completed then
      Rendering(Success(Page(FlowData(e.flow.title, error, None,
                                      AccessDenied("Flow does not apply to current user")))), false)
    else
      var page := (component: FlowComponent) =>
        Success(Page(FlowData(e.flow.title, error, e.context.pending, component)));
      if e.completed then
        match ctx.request.next
        case Some(to) => Rendering(page(Redirect(to)), true)
        case None => Rendering(page(ErrorMessage("Missing Redirect")), false)
      else if e.context.error.Some? then
        Rendering(page(ErrorMessage(e.context.error.value.message)), false)
      else
        match Component(e)
        case Success(component) => Rendering(page(component), false)
        case Failure(err) => Rendering(Failure(err), false)
        case Panic(site) => Rendering(Panic(site), false)
  }

  // Handling a submission

  function StringField(name: string, form: Value): Result<string, SubmissionError> {
    match form.Get(name)
    case None => Err(Field(name, Missing))
    case Some(Str(s)) => Ok(s)
    case Some(other) => Err(Field(name, InvalidType(StringType, other.Type())))
  }

  function SetPending(e: Execution, pending: Option<PendingUser>): Execution {
    e.(context := e.context.(pending := pending))
  }

  function HandlePassword(env: Env, users: seq<UserRow>, req: Request, e: Execution, backends: seq<PasswordBackend>)
    : (Execution, Outcome<()>)
  {
    if e.context.pending.None? then (e, Failure(Submission(NoPendingUser)))
    else
      var pending := e.context.pending.value;
      match StringField("password", req.form)
      case Err(error) => (e, Failure(Submission(error)))
      case Ok(password) =>
        var wrong := Failure(Submission(Field("password", Invalid("Invalid Password"))));
        if Internal !in backends then (e, wrong)
        else if req.faults.password then (e, Failure(Database))
        else match FindByUid(users, pending.uid)
          case Failure(error) => (e, Failure(error))
          case Panic(site) => (e, Panic(site))
          case Success(None) => (e, Failure(Submission(NoPendingUser)))
          case Success(Some(row)) =>
            match env.verify(row.password, password)
            case Broken => (e, Failure(PwHash))
            case Mismatch => (e, wrong)
            case Valid => (SetPending(e, Some(pending.(authenticated := true))), Success(()))
  }

  /** The user an identification stage would find, if it gets that far. */
  function Identify(env: Env, users: seq<UserRow>, req: Request, fields: seq<UserField>): Outcome<UserRow> {
    match StringField("uid", req.form)
    case Err(error) => Failure(Submission(error))
    case Ok(uid) =>
      if req.faults.lookup then Failure(Database)
      else match LookupUser(env, users, uid, fields)
        case Failure(error) => Failure(error)
        case Panic(site) => Panic(site)
        case Success(None) => Failure(Submission(Field("uid", Invalid("Failed to authenticate"))))
        case Success(Some(row)) => Success(row)
  }

  function Identified(row: UserRow): PendingUser {
    PendingUser(row.uid, row.name, false, row.administrator)
  }

  function HandleStage(env: Env, users: seq<UserRow>, req: Request, e: Execution, kind: StageKind)
    : (Execution, Outcome<()>)
    requires kind.Identification? && kind.password.Some? ==>
               Answers(e.context.storage.stages, kind.password.value)
  {
    match kind
    case Identification(password, fields) =>
      (match Identify(env, users, req, fields)
       case Failure(error) => (e, Failure(error))
       case Panic(site) => (e, Panic(site))
       case Success(row) =>
         var e' := SetPending(e, Some(Identified(row)));
         match password
         case None => (e', Success(()))
         case Some(q) =>
           var stage := Find(e.context.storage.stages, q);
           if stage.kind.Password? then HandlePassword(env, users, req, e', stage.kind.backends)
           else (e', Panic(NotPasswordStage)))
    case Password(backends) => HandlePassword(env, users, req, e, backends)
    case _ => (e, Success(()))
  }

  function HandleSubmission(env: Env, users: seq<UserRow>, req: Request, e: Execution): (Execution, Outcome<()>)
    requires e.Sound()
  {
    if e.completed then (e, Success(()))
    else
      assert e.Entry() in e.flow.entries;
      HandleStage(env, users, req, e, e.Stage().kind)
  }

  // Running server-side stages

  const MAX_ITERATIONS := 40

  /** `logins` counts the login stages run so far. */
  datatype Progress = Progress(exec: Execution, sessions: Sessions, cookie: Option<string>, logins: nat)

  function LoginClaims(claims: Claims, user: PendingUser): Claims {
    claims.(sub := Some(user.uid), authenticated := true, isAdmin := user.isAdmin)
  }

  /** Issues a token for `user` and binds the session to them. */
  function Login(env: Env, sid: string, fails: bool, p: Progress, user: PendingUser): (Progress, Outcome<()>) {
    match p.cookie
    case None => (p, Failure(InvalidSessionCookie))
    case Some(token) =>
      match env.decode(token)
      case Err(error) => (p, Failure(error))
      case Ok(claims) =>
        match env.encode(LoginClaims(claims, user))
        case Err(error) => (p, Failure(error))
        case Ok(token) =>
          var issued := p.(cookie := Some(token));
          if fails then (issued, Failure(Database))
          else (issued.(sessions := BindSession(p.sessions, sid, user.uid)), Success(()))
  }

  function LoginFailed(e: Execution): Execution
    requires e.Sound()
  {
    e.(context := e.context.(error := Some(ExecutionError(Some(e.Entry().stage),
                                                         "Authentication of pending user failed"))))
  }

  function Complete(env: Env, sid: string, updateFails: nat -> bool, p: Progress, iterations: nat)
    : (Progress, Outcome<()>)
    requires p.exec.Sound()
    decreases p.exec.EntriesLeft()
  {
    if p.exec.completed then (p, Success(()))
    else
      var kind := p.exec.Stage().kind;
      if kind.RequiresInput() || iterations > MAX_ITERATIONS then (p, Success(()))
      else if kind.UserLogin? then
        match p.exec.context.pending
        case None => (p, Failure(Submission(NoPendingUser)))
        case Some(user) =>
          if !user.authenticated then (p.(exec := LoginFailed(p.exec)), Success(()))
          else
            var (p', outcome) := Login(env, sid, updateFails(iterations), p, user);
            if outcome.Success? then
              Complete(env, sid, updateFails, p'.(exec := Advance(p.exec), logins := p.logins + 1), iterations + 1)
            else (p', outcome)
      else if kind.UserLogout? then (p, Panic(LogoutStage))
      else
        assert kind.UserWrite?;
        (p, Panic(WriteStage))
  }

  // Requests

  datatype System = System(
    executions: map<FlowKey, Execution>,
    sessions: Sessions,
    users: seq<UserRow>,
    source: Source)

  /** The effect of a request on its own execution, the session table and the cookie jar. */
  datatype Effect = Effect(
    exec: Execution,
    removed: bool,
    sessions: Sessions,
    cookie: Option<string>,
    outcome: Outcome<Body>,
    logins: nat)

  function ContextFor(e: Execution, req: Request, user: Option<PartialUser>): CheckContext {
    CheckContext(CheckRequest(req.next, user, req.engine), e.context.pending)
  }

  function ForwardError(outcome: Outcome<()>): Outcome<Body>
    requires !outcome.Success?
  {
    match outcome
    case Failure(error) => Failure(error)
    case Panic(site) => Panic(site)
  }

  /** After an accepted submission: complete the current stage, run server-side stages, commit. */
  function Proceed(env: Env, session: Session, req: Request, e: Execution, sessions: Sessions, cookie: Option<string>)
    : Effect
    requires e.Sound()
  {
    var (p, done) := Complete(env, session.sessionId, req.faults.update,
                              Progress(Advance(e), sessions, cookie, 0), 0);
    if !done.Success? then Effect(p.exec, false, sessions, p.cookie, ForwardError(done), p.logins)
    else if req.faults.commit then Effect(p.exec, false, sessions, p.cookie, Failure(Database), p.logins)
    else Effect(p.exec, false, p.sessions, p.cookie, Success(SeeOther), p.logins)
  }

  function PostTo(env: Env, users: seq<UserRow>, session: Session, req: Request, e: Execution, sessions: Sessions,
                  cookie: Option<string>): Effect
    requires e.Sound()
  {
    var refused := (outcome: Outcome<Body>) => Effect(e, false, sessions, cookie, outcome, 0);
    if req.faults.connection then refused(Failure(Database))
    else match SessionUser(users, session)
      case Failure(error) => refused(Failure(error))
      case Panic(site) => refused(Panic(site))
      case Success(user) =>
        var ctx := ContextFor(e, req, user);
        match Check(e, ctx)
        case Unfinished => refused(Panic(GroupBinding))
        case Refuse(_) =>
          var r := Data(e, None, ctx);
          refused(r.outcome).(removed := r.invalidates)
        case Pass =>
          var (e', submitted) := HandleSubmission(env, users, req, e);
          match submitted
          case Success(_) => SubmissionKeepsSound(env, users, req, e); Proceed(env, session, req, e', sessions, cookie)
          case Failure(Submission(error)) =>
            SubmissionKeepsSound(env, users, req, e);
            var r := Data(e', Some(error), ctx);
            refused(r.outcome).(exec := e', removed := r.invalidates)
          case _ => refused(ForwardError(submitted)).(exec := e')
  }

  function GetFrom(users: seq<UserRow>, session: Session, req: Request, e: Execution): Rendering
    requires e.Sound()
  {
    if req.faults.connection then Rendering(Failure(Database), false)
    else match SessionUser(users, session)
      case Failure(error) => Rendering(Failure(error), false)
      case Panic(site) => Rendering(Panic(site), false)
      case Success(user) => Data(e, None, ContextFor(e, req, user))
  }

  lemma PasswordKeepsRest(env: Env, users: seq<UserRow>, req: Request, e: Execution, backends: seq<PasswordBackend>)
    ensures var e' := HandlePassword(env, users, req, e, backends).0;
            e' == SetPending(e, e'.context.pending)
  {
  }

  /** A submission changes nothing of an execution but its pending user. */
  lemma SubmissionKeepsSound(env: Env, users: seq<UserRow>, req: Request, e: Execution)
    requires e.Sound()
    ensures var e' := HandleSubmission(env, users, req, e).0;
            e'.Sound() && e' == SetPending(e, e'.context.pending)
  {
    hide HandlePassword;
    if !e.completed {
      assert e.Entry() in e.flow.entries;
      match e.Stage().kind {
        case Password(backends) => PasswordKeepsRest(env, users, req, e, backends);
        case Identification(Some(q), fields) =>
          var found := Identify(env, users, req, fields);
          var stage := Find(e.context.storage.stages, q);
          if found.Success? && stage.kind.Password? {
            PasswordKeepsRest(env, users, req, SetPending(e, Some(Identified(found.value))), stage.kind.backends);
          }
        case _ =>
      }
    }
  }

  function GetKey(session: Session, flow: FlowQuery): Option<FlowKey> {
    if flow.FlowSlug? then Some(FlowKey(session.sessionId, flow)) else None
  }

  /** What starting an execution comes to; `Endless` is a start whose walk never ends. */
  datatype Started = NoFlow | Endless | Ready(exec: Execution)

  /** A new execution, if the flow exists, has entries, and its walk ends. */
  ghost function StartExecution(source: Source, key: FlowKey, now: int): Started
    requires Intact(source)
  {
    match Lookup(source.flows, key.flow)
    case Some(flow) =>
      if flow.entries == [] then NoFlow
      else if !EntriesEnd(source, flow.entries) then Endless
      else
        StoredFlowResolves(source, key.flow);
        Ready(Start(flow, key, Freeze(source, Walk(source, flow)), now))
    case None => NoFlow
  }

  ghost predicate ValidSystem(st: System) {
    && Intact(st.source)
    && forall key {:trigger ValidExecution(st, key)} | key in st.executions :: ValidExecution(st, key)
  }

  /** An execution sits under its own key, which belongs to a stored session. */
  ghost predicate ValidExecution(st: System, key: FlowKey)
    requires key in st.executions
  {
    && st.executions[key].key == key
    && st.executions[key].Sound()
    && key.session in st.sessions
    && key.flow.FlowSlug?
  }

  function Remove<K, V>(m: map<K, V>, key: K): map<K, V> {
    m - {key}
  }

  function Apply(st: System, key: FlowKey, effect: Effect): System {
    st.(executions := if effect.removed then Remove(st.executions, key) else st.executions[key := effect.exec],
        sessions := effect.sessions)
  }

  /** A POST in a session: `st` already has the session's row, `cookie` is its cookie. */
  function PostIn(env: Env, st: System, session: Session, req: Request, cookie: Option<string>): (System, Response)
    requires forall key <- st.executions :: st.executions[key].Sound()
  {
    match GetKey(session, req.flow)
    case None => (st, Response(Failure(NotFound), cookie))
    case Some(key) =>
      if key !in st.executions then (st, Response(Failure(NotFound), cookie))
      else
        var effect := PostTo(env, st.users, session, req, st.executions[key], st.sessions, cookie);
        (Apply(st, key, effect), Response(effect.outcome, effect.cookie))
  }

  function Post(env: Env, st: System, req: Request): (System, Response)
    requires forall key <- st.executions :: st.executions[key].Sound()
  {
    var x := ExtractSession(env, st.sessions, req);
    var st1 := st.(sessions := x.sessions);
    match x.outcome
    case Failure(error) => (st1, Response(Failure(error), x.cookie))
    case Panic(site) => (st1, Response(Panic(site), x.cookie))
    case Success(session) => PostIn(env, st1, session, req, x.cookie)
  }

  /** A GET in a session: it works on the cached execution, or starts one. */
  ghost function GetIn(st: System, session: Session, req: Request): (System, Outcome<Body>)
    requires Intact(st.source)
    requires forall key <- st.executions :: st.executions[key].Sound()
  {
    match GetKey(session, req.flow)
    case None => (st, Failure(MiscInternal))
    case Some(key) =>
      match FoundBy(st, key, req.now)
      case NoFlow => (st, Failure(NotFound))
      case Endless => (st, Panic(EndlessWalk))
      case Ready(e) =>
        assert e.Sound() by { StartIsSound(st.source, key, req.now); }
        var r := GetFrom(st.users, session, req, e);
        (st.(executions := if r.invalidates then Remove(st.executions, key) else st.executions[key := e]), r.outcome)
  }

  /** The execution a GET works on. */
  ghost function FoundBy(st: System, key: FlowKey, now: int): Started
    requires Intact(st.source)
  {
    if key in st.executions then Ready(st.executions[key]) else StartExecution(st.source, key, now)
  }

  ghost function Get(env: Env, st: System, req: Request): (System, Response)
    requires Intact(st.source)
    requires forall key <- st.executions :: st.executions[key].Sound()
  {
    var x := ExtractSession(env, st.sessions, req);
    var st1 := st.(sessions := x.sessions);
    match x.outcome
    case Failure(error) => (st1, Response(Failure(error), x.cookie))
    case Panic(site) => (st1, Response(Panic(site), x.cookie))
    case Success(session) =>
      var (st2, outcome) := GetIn(st1, session, req);
      (st2, Response(outcome, x.cookie))
  }

  lemma StartIsSound(source: Source, key: FlowKey, now: int)
    requires Intact(source)
    ensures var e := StartExecution(source, key, now);
            e.Ready? ==>
              && e.exec.Sound() && e.exec.key == key && !e.exec.completed && e.exec.cursor == 0
              && Lookup(source.flows, key.flow) == Some(e.exec.flow)
              && e.exec.context.startTime == now && e.exec.context.sessionId == key.session
              && e.exec.context.pending == None && e.exec.context.error == None
  {
    var found := Lookup(source.flows, key.flow);
    if found.Some? && EntriesEnd(source, found.value.entries) {
      StoredFlowResolves(source, key.flow);
      FreezeComplete(source, found.value);
    }
  }
}
