/** Stock result types shared by the other modules. */
module Wrappers {
  datatype Option<+T> = None | Some(value: T)

  datatype Result<+T, +E> = Ok(value: T) | Err(error: E)
}

/** The data types of the `model` crate, together with the errors and responses of the API. */
module Model {
  import opened Wrappers

  /** A user id. Only equality of ids matters. */
  type Uuid = nat

  // References to stored data. A reference is the query that finds the data.

  datatype FlowQuery = FlowUid(uid: int) | FlowSlug(slug: string)

  datatype StageQuery = StageUid(uid: int) | StageSlug(slug: string)

  datatype PolicyQuery = PolicyUid(uid: int) | PolicySlug(slug: string)

  datatype PromptQuery = PromptUid(uid: int)

  // Stages

  datatype PasswordBackend = Internal | Ldap

  datatype UserField = Email | Name | UserId

  datatype ConsentMode = Always | Once | Until(duration: int)

  datatype PromptBinding = PromptBinding(order: int, prompt: PromptQuery)

  datatype Prompt = Prompt(uid: int, fieldKey: string, required: bool)

  datatype StageKind =
    | Deny
    | PromptStage(bindings: seq<PromptBinding>)
    | Identification(password: Option<StageQuery>, userFields: seq<UserField>)
    | UserLogin
    | UserLogout
    | UserWrite
    | Password(backends: seq<PasswordBackend>)
    | Consent(mode: ConsentMode)
  {
    /** Whether the client has to act on the stage, as opposed to the server. */
    predicate RequiresInput() {
      match this
      case Deny => true
      case PromptStage(_) => true
      case Identification(_, _) => true
      case UserLogin | UserLogout | UserWrite => false
      case Password(_) => true
      case Consent(_) => true
    }
  }

  datatype Stage = Stage(uid: int, slug: string, kind: StageKind, timeout: int)

  // Policies

  datatype PolicyKind =
    | PasswordExpiry(maxAge: int)
    | PasswordStrength
    | Expression(source: string)

  datatype Policy = Policy(uid: int, slug: string, kind: PolicyKind)

  // Flows

  datatype AuthenticationRequirement = Superuser | Required | Unauthenticated | Ignored

  datatype FlowBindingKind = Group(group: Uuid) | User(user: Uuid) | PolicyRef(policy: PolicyQuery)

  datatype FlowBinding = FlowBinding(enabled: bool, negate: bool, order: int, kind: FlowBindingKind)

  datatype FlowEntry = FlowEntry(ordering: int, bindings: seq<FlowBinding>, stage: StageQuery)

  datatype Flow = Flow(
    uid: int,
    slug: string,
    title: string,
    authentication: AuthenticationRequirement,
    bindings: seq<FlowBinding>,
    entries: seq<FlowEntry>)

  // Users

  datatype PartialUser = PartialUser(uid: Uuid, name: string, isAdmin: bool, passwordChangeDate: int)

  datatype PendingUser = PendingUser(uid: Uuid, name: string, authenticated: bool, isAdmin: bool)

  /** A row of the `users` table. */
  datatype UserRow = UserRow(
    uid: Uuid,
    name: string,
    email: Option<string>,
    password: string,
    passwordChangeDate: int,
    administrator: bool)

  // Errors

  datatype FieldType = NullType | BooleanType | StringType | NumberType | ObjectType | ArrayType

  datatype FieldErrorKind = Missing | Invalid(message: string) | InvalidType(expected: FieldType, got: FieldType)

  datatype SubmissionError = NoPendingUser | Field(field: string, kind: FieldErrorKind)

  datatype ApiError =
    | NotFound
    | Conflict
    | InvalidSessionCookie
    | JsonWebToken
    | MiscInternal
    | PwHash
    | Database
    | Submission(error: SubmissionError)

  /**
   The places where the server is unfinished (`todo!`) or trusts its configuration: `unreachable!`, and
   a walk along password references that never ends.
   */
  datatype PanicSite =
    | GroupBinding
    | PromptComponent
    | ConsentComponent
    | NotPasswordStage
    | LogoutStage
    | WriteStage
    | EndlessWalk

  /** What a request handler ends with: a value, an error response, or a task that never answers. */
  datatype Outcome<+T> = Success(value: T) | Failure(error: ApiError) | Panic(site: PanicSite)

  // Responses

  datatype FlowComponent =
    | AccessDenied(message: string)
    | IdentificationForm(userFields: seq<UserField>, password: bool)
    | PasswordForm
    | Redirect(to: string)
    | ErrorMessage(message: string)

  datatype FlowData = FlowData(
    title: string,
    error: Option<SubmissionError>,
    pendingUser: Option<PendingUser>,
    component: FlowComponent)

  // Submitted forms

  datatype Value =
    | Null
    | Bool(b: bool)
    | Number(n: int)
    | Str(s: string)
    | Array(elements: seq<Value>)
    | Object(fields: map<string, Value>)
  {
    function Get(name: string): Option<Value> {
      if Object? && name in fields then Some(fields[name]) else None
    }

    function Type(): FieldType {
      match this
      case Null => NullType
      case Bool(_) => BooleanType
      case Number(_) => NumberType
      case Str(_) => StringType
      case Array(_) => ArrayType
      case Object(_) => ObjectType
    }
  }
}
