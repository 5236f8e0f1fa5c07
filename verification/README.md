# Authust: the flow executor and what it runs on

Authust lets a browser session work through a *flow*: a list of entries, each naming a stage. This
project models the executor of such flows, the frozen copy of the configuration that an execution
runs on, the cache of compiled policies and the masking of the anti-forgery token, and proves what
they promise.

## How the model is laid out

| file | contents |
|---|---|
| `Model.dfy` | the data types of the `model` crate, API errors, pages and forms |
| `Tables.dfy` | tables indexed by id and query; `ProxyStorage`, which records what passes through it |
| `Closure.dfy` | what a flow refers to, as a walk and as reachability; the frozen store |
| `Recording.dfy` | the walk in imperative form: loops and recursion over four recording proxies |
| `Executions.dfy` | an execution as a value, its cursor, and interleaved requests on it |
| `Checks.dfy` | whether a flow and its current entry apply to a user |
| `Requests.dfy` | what one request does, as functions of the server's state |
| `Completion.dfy` | the loop over server-side stages, and its closed form |
| `Executor.dfy`, `Api.dfy` | the classes and handlers that change the server in place, each proved equal to its function |
| `Submissions.dfy` | what one POST does to the execution it reaches |
| `Responses.dfy` | what a request is answered, in terms of rows, form and execution alone |
| `Steps.dfy` | what one step (GET, POST, eviction, a change of users or configuration) keeps and changes |
| `Runs.dfy` | what holds over every run of such steps |
| `Counterexamples.dfy` | runs that complete a flow and log nobody in, or leave a request unanswered |
| `Panics.dfy` | which configurations keep requests away from the unfinished parts |
| `PasswordRaces.dfy` | submissions to one execution that overlap, section by section |
| `PolicyCache.dfy` | the compiled-policy cache, call by call |
| `PolicyRaces.dfy` | the same cache under calls that overlap, section by section |
| `Csrf.dfy` | the token masking |

A state of the server (`Requests.System`) is the map of executions, the session table, the user table
and the configuration. `Api.Server.GetFlow` and `Api.Server.PostFlow` work on objects: cached
executions, a transaction, a cookie jar. Their contracts say that they compute exactly
`Requests.Get` and `Requests.Post` on every state and every request that is answered. A `Runs.Run` is
then any sequence of states linked by steps, from any session table and an empty execution cache;
requests bring arbitrary cookies, forms, policy results and database failures, and users and
configuration may change between steps.

Cryptography and parsing are parameters (`Requests.Env`): password verification, token encoding and
decoding, and the parsing of user ids. Where tokens matter, `SoundCodec` says that a token decodes to
what was signed and that only this issuer's tokens decode. The result of looking up, compiling and
running an expression policy is a parameter of the request (`Checks.Engine`);
`PolicyCache.CacheIsTransparent` is why, for calls one at a time, it may be thought of as a function of
the stored policy.

The unfinished parts of the server (`todo!`) and the one place where it trusts its configuration
(`unreachable!`) are modelled as the outcome `Panic`, which aborts the request but not the server, so
nothing is assumed about flows. The panics on a missing stage or policy are preconditions of the
lookups instead, and are met everywhere: that an execution never asks for what its frozen store lacks
is part of `Execution.Sound`, which every reachable execution satisfies.

A configuration has unique queries and intact references (`Closure.Intact`), which the database schema
enforces. It may have cycles of password references. Starting a flow walks along them, and the walk ends
exactly if the flow reaches no cycle (`Closure.WalkEndsIffNoCycleReached`). A GET that is to start any
other flow is never answered; the model gives it the outcome `Panic(EndlessWalk)` and no effect on the
cache. `Steps.GetIsEndlessIff` says when that happens, and `Counterexamples.GetIsNeverAnswered` is a run
in which it does. The recursion of such a walk holds more and more memory, which may in the end bring
down the whole server; that is not part of this model, in which the other requests go on. The method
`Api.Server.GetFlow` has to end, so it is specified for requests without that outcome.

Where the code does less than one might expect, the model follows the code, and the exact condition is
proved:

- A completed execution does not imply a bound session, for two reasons. A POST is accepted at a login
  entry and moves past it without logging anybody in (so does the next accepted POST after a failed
  login, which sets a sticky error and leaves the cursor at its entry): `Submissions.LastLoginIsPassed`
  and `Counterexamples.FlowCompletesWithoutLogin`. And a login that is run binds nobody if the commit
  fails: `Submissions.FailedCommitCompletes`. `Runs.CompletedBindsIff` is the condition over an
  execution's life: it bound its session exactly if one of its POSTs ran a login and committed, and, if
  all that ran one committed, exactly if its flow has more logins than there were accepted POSTs made at
  one. `Runs.PassedLoginsAreRun` has the count behind it: the logins run and the accepted POSTs made at a
  login entry add up to the login entries passed.
- A stage that denies stops nobody: like a prompt or a request for consent, it accepts every admitted
  submission. `Submissions.AcceptedIff` says which submissions are accepted.
- A POST that the checks refuse may remove an execution, namely a completed one whose final redirect it
  picks up. `Submissions.LoggedInPostPicksUpRedirect` is how this ordinarily comes about, and
  `Submissions.PostRedirectIsRemoval` says exactly when.
- A lookup of a compiled policy and an invalidation are two critical sections each. In some orders an
  outdated result is answered, filed, and served for good: `PolicyRaces.LookupInsideInvalidationIsStale`
  and `PolicyRaces.InvalidationInsideLookupIsStale`. For every order, `PolicyRaces.FillAnswers` says what
  a lookup under way answers, and `PolicyRaces.InterleavingTransparentIff` when all calls are answered as
  without a cache once the lookups and invalidations under way have finished.
  `PolicyRaces.OrderlyIsDirect` gives orders in which every answer is right: no policy is filed between
  the sections of its invalidation, nor refreshed between those of its lookup.
- A password check reads the pending user, awaits their row, and then sets the bit of whoever is pending.
  Runs take a request as one step, and the results on identity (`Runs.SessionIdentity`,
  `Runs.PendingHasProvenance` and those resting on them) hold for such runs. If requests to one execution
  overlap they can fail: `PasswordRaces.OvertakenCheckAuthenticatesOther`. A check authenticates the user
  it checked exactly if nobody was identified meanwhile, or that user again last
  (`PasswordRaces.BitFallsOnCheckedIff`), and in orders without such overtaking whoever is authenticated
  has had their own password checked (`PasswordRaces.UndisturbedChecksAreOwn`).
- A POST that fails after issuing a token still hands it out, while the session's row stays as it was
  (`Submissions.RightPasswordLogsIn` with a failing commit). The next request then has the administrator
  bit of the token's user in a session whose row may name somebody else: `Steps.IssuedTokenAgreesIff`. The
  same goes for a token that is kept while somebody else logs in: `Runs.IssuedTokenAgreesLater`.
- The order of bindings does not matter for admission, but it decides between a refusal and an
  unfinished check where both would apply (`Checks.OrderMattersSomewhere`).

Times are in nanoseconds. Strings are sequences of Unicode characters; where bytes matter
(`Csrf.dfy`), their UTF-8 length is explicit.

## Model

| member | source | states |
|---|---|---|
| Runs.SessionIdentity | server/src/api/v1/executor.rs:73-127 | In every run of requests one at a time, a stored session is bound to a user only if it was so at the start, or an execution of that same session put a password of that user to the check of a password stage (its own stage, or the one its identification stage refers to), through the internal backend and against the one row of that user, and it was right |
| Runs.PendingHasProvenance | server/src/api/v1/executor.rs:178-187 | In every reachable execution of such a run the pending user, name and admin bit are those of the row the most recent identification found, that row being the one its form named by a field the stage allows; and if authenticated, that execution has since checked exactly that user's password, and it was right |
| PasswordRaces.BitFallsOnCheckedIff | server/src/api/v1/executor.rs:224-258 | Between a check's reading of the pending user and its setting of the bit anything may happen to the execution: the bit falls on the checked user exactly if nobody was identified meanwhile or that user was the last to be |
| PasswordRaces.UndisturbedChecksAreOwn | server/src/api/v1/executor.rs:224-258 | In any order of sections in which no check sets the bit after an identification during it, whoever is pending and authenticated has had their own password checked since they were identified |
| PasswordRaces.OvertakenCheckAuthenticatesOther | server/src/api/v1/executor.rs:178-258 | A concrete order of two submissions in which the first one's password authenticates the user of the second |
| PasswordRaces.SectionsOfSubmission | server/src/api/v1/executor.rs:145-260 | Undisturbed, the sections of a submission leave pending whom the submission as a whole does |
| Runs.LoginIsProved | server/src/api/v1/executor.rs:310-337 | The user a committed login binds a session to has passed the password check of an execution of that session |
| Runs.EffectHasProvenance | server/src/api/v1/executor.rs:92-126 | The same provenance holds of whom a POST leaves pending, even if the request fails afterwards |
| Runs.LoginTokenAgrees | server/src/api/v1/executor.rs:324-337 | After a committed login the cookie decodes to the session's id, the user the row now names, and the administrator bit that user's row had at the identification |
| Runs.CookiesAreAccountedFor | server/src/api/v1/auth.rs:215-277 | With a sound codec every cookie a response leaves with is the request's own, or an unauthenticated token of the session just created, or a token of the request's session for a user identified and password-checked in it, with that user's administrator bit, even if the request failed |
| Runs.IssuedTokenAgreesLater | server/src/api/v1/auth.rs:215-277 | However late a token issued to a session is used, it gives the session the administrator bit of the token's user; the row names that user exactly if the session's last committed login since was theirs, or there was none and the row named them before |
| Runs.RowIsLastBound | server/src/api/v1/executor.rs:332-337 | A session's row names the user of its last committed login |
| Runs.FrozenAnswers | server/src/executor/flow.rs:124-139 | However the configuration changes, a running execution finds every stage and policy its flow can ask for, each as it was when the execution was started |
| Runs.ExecutionHasStart | server/src/executor.rs:103-131 | Every cached execution goes back to one GET that started it, with the flow and frozen store of the configuration at that time and that time as its start, and has stayed in the cache since |
| Runs.ExpiryIsMeasuredAtStart | server/src/executor/flow.rs:285-295 | An expiry binding of a reachable execution is met by a logged-in user exactly if, at the GET that started it, their password was younger than the limit, or, negated, was not |
| Runs.OtherSessionsAreSpared | server/src/executor.rs:30-44 | Over any stretch of a run in which nobody acts for a session, its row and all its executions stay as they are |
| Runs.StepSparesOthers | server/src/api/v1/executor.rs:84-91 | A single step of another session changes neither the row nor any execution of this one |
| Runs.RedirectsOnce | server/src/executor/flow.rs:74-82 | Between two final redirects at one key a GET starts a new execution at entry 0, not completed, with nobody pending and no error |
| Runs.ExecutionsOnlyProceed | server/src/executor/flow.rs:110-118 | While an execution stays, its cursor never moves back, its error never goes away, and once completed it does not change at all |
| Runs.ExecutionsProgress | server/src/executor/flow.rs:110-118 | Since its start an execution has come exactly as far as it had accepted POSTs and these ran logins; so it takes at most as many as its flow has entries, and is completed exactly when they are used up |
| Runs.PassedLoginsAreRun | server/src/api/v1/executor.rs:284-346 | Over the life of an execution the login entries it has passed are those its POSTs ran, plus one for each accepted POST made at a login entry; so a completed execution has run all logins of its flow exactly if no such POST was made |
| Runs.CompletedBindsIff | server/src/api/v1/executor.rs:114-126 | An execution binds its session exactly if one of its POSTs ran a login and committed; completed, and with all that ran logins committed, exactly if its flow has more logins than there were accepted POSTs made at one |
| Counterexamples.FlowCompletesWithoutLogin | server/src/api/v1/executor.rs:207 | For every codec and request without faults: a GET and a POST complete a flow whose only entry is a login, the POST commits, and the session stays unbound |
| Counterexamples.GetIsNeverAnswered | storage/src/stage.rs:203-209 | With one stage that refers to itself for the password the references are intact, and the GET that is to start its flow is never answered |
| Runs.OnlyCommitsBind | server/src/api/v1/executor.rs:105-126 | A step that does not end in a committed redirect to the flow leaves every existing session row as it was |
| Runs.StatesAreValid | server/src/executor.rs:90-131 | Every state of a run is valid: each execution sits under its own key, that key's session is stored, and the execution is sound |
| Steps.StepKeepsValid | server/src/executor.rs:81-131 | Every step keeps the invariant of the server's state |
| Steps.ExecutionStep | server/src/api/v1/executor.rs:44-127 | After a step an execution at a key is either newly started by a GET there, or the old one, changed at most by a POST there and never in flow, key or store |
| Steps.GetIsEndlessIff | server/src/executor.rs:103-115 | A GET goes without an answer exactly if it is to start a flow that reaches a cycle of password references, and then changes no execution |
| Steps.StartsIff | server/src/executor.rs:103-131 | A flow is started exactly if it exists, has entries, and reaches no cycle of password references |
| Steps.SessionStep | server/src/api/v1/executor.rs:332-337 | A step keeps all session rows, adds only unbound ones, and binds one only by a committed login at a key of that session |
| Requests.UpdateKeepsRows | server/src/api/v1/executor.rs:332-337 | The update of a login adds no session row and changes only the one it names |
| Submissions.SubmissionChangesPending | server/src/api/v1/executor.rs:145-271 | A submission changes only the pending user: identification installs the found row unauthenticated, and a passed password check of exactly that user authenticates it; a submission that gets to a check is accepted exactly if it passes, and a rejected submission authenticates nobody |
| Submissions.PasswordVerifies | server/src/api/v1/executor.rs:218-271 | The password stage succeeds exactly if somebody is pending, the internal backend is among the stage's, the query works and finds the one row of that user, and the submitted password verifies against its hash; otherwise it changes nothing |
| Submissions.AcceptedIff | server/src/api/v1/executor.rs:145-215 | Accepted are exactly the admitted submissions to a completed execution, those that pass the password check of their stage, those that identify somebody without one, and all to stages of any other kind, denying ones included |
| Responses.IdentifiedIffNamed | server/src/api/v1/executor.rs:157-187 | A submission identifies exactly the row that the text in its `uid` field names by the first of the stage's own fields that matches anybody, if no other row matches that field |
| Responses.IdentificationAccepts | server/src/api/v1/executor.rs:178-206 | Naming a row leaves that row's user pending, unauthenticated, with its name and administrator bit; then the stage accepts, or the password stage it refers to decides |
| Responses.IdentificationRejects | server/src/api/v1/executor.rs:161-194 | A form without a text in `uid` is rejected with that field's error, a name nobody has with "Failed to authenticate" and exactly then, and an ambiguous one with a database error; nothing changes |
| Responses.PasswordAnswers | server/src/api/v1/executor.rs:218-271 | What a password stage answers, in each case, to the text in the `password` field and the rows of the pending user |
| Responses.MeetsIff | server/src/api/v1/executor.rs:237-254 | A password check is passed exactly if the text in the `password` field fits the hash in the user's only row, with the internal backend in place and the query working |
| Responses.SessionUserIsRow | server/src/service/user.rs:26-48 | The user of a request is the only row of the user its session is bound to, with that row's name, administrator bit and password date; there is none exactly if the session is unbound or the row is gone, and an error exactly if there are several |
| Responses.AdmittedIff | server/src/executor/flow.rs:141-160 | A request is admitted exactly if the row of its session's user meets the requirement and every enabled binding is satisfied for that user and the pending one, connection and lookup working |
| Responses.RequirementGuards | server/src/executor/flow.rs:236-247 | Nobody whose row does not meet the requirement, say by not being an administrator, changes an execution or a session by a POST or sees a page of a running execution |
| Responses.RequirementFailsFirst | server/src/executor/flow.rs:259-268 | A refusal for the requirement comes before all bindings and names the requirement |
| Responses.RefusedPage | server/src/executor/flow.rs:62-73 | A running execution whose checks refuse shows only that the flow does not apply |
| Responses.CompletedPage | server/src/executor/flow.rs:74-82 | A completed execution shows the redirect to the target, or that there is none, with the pending user and the error |
| Responses.RunningPage | server/src/executor/flow.rs:83-102 | A running execution shows its own error, or else the component of its stage, with the pending user and the error of the submission |
| Responses.PagesAreShown | server/src/api/v1/executor.rs:44-71 | A GET, and a POST that the checks refuse, answer with the page of the execution for the session's user |
| Responses.RejectionIsShown | server/src/api/v1/executor.rs:105-113 | A rejected submission answers with the same form and its error, any other failure with itself |
| Responses.AcceptanceIsAnswered | server/src/api/v1/executor.rs:114-126 | An accepted submission answers with the redirect to the flow, unless the commit fails, a stage is unfinished, or a login fails for one of the listed reasons |
| Responses.AcceptedPostSetsErrorIff | server/src/api/v1/executor.rs:317-323 | An accepted POST sets the sticky error exactly when it leaves the execution at a login whose pending user is not authenticated, and else keeps it as it was |
| Responses.FailedLoginIsShown | server/src/executor/flow.rs:83-86 | After that, every page shows that the authentication failed, while the flow applies |
| Responses.UnreachedAnswers | server/src/api/v1/executor.rs:92-102 | Without a connection or a user lookup GET and POST answer with a database error |
| Submissions.RefusedPostKeeps | server/src/api/v1/executor.rs:93-104 | A POST that is not admitted leaves the execution, the sessions and the cookie alone, and removes the execution exactly if the checks refuse it on a completed execution and it names a target |
| Submissions.RejectedPostKeeps | server/src/api/v1/executor.rs:105-113 | A rejected submission keeps the cursor, completes nothing, authenticates nobody and binds no session |
| Submissions.AcceptedPostProceeds | server/src/api/v1/executor.rs:114-126 | An accepted submission advances by one entry and then by the logins passed, all of them login entries, even when the request fails afterwards; it binds the session only when it commits, and keeps the cookie if it ends well without a login |
| Submissions.AcceptedPostRunsLogins | server/src/api/v1/executor.rs:114-126 | An accepted POST on a running execution gets past the entry it was made at and the logins it runs, and runs every login it passes, except one at the entry it was made at |
| Submissions.LastLoginIsPassed | server/src/api/v1/executor.rs:207 | At a login that is the last entry, an admitted POST completes the execution, commits, runs no login and binds nobody |
| Submissions.FailedCommitCompletes | server/src/api/v1/executor.rs:125 | The right password before a last login completes the execution and runs the login, and if then the commit fails nobody is bound |
| Submissions.PostChanges | server/src/api/v1/executor.rs:84-127 | Everything a POST may do to its execution and to the session table: whom it leaves pending, exactly when it removes the execution, and that it binds the session only by a committed login |
| Submissions.RightPasswordLogsIn | server/src/api/v1/executor.rs:188-260 | Conversely, a submission that gets to a password check, at a password stage or through an identification stage, and passes it before a run of logins issues a token for the checked user; it binds the session to them and redirects, unless the commit fails |
| Steps.LoginIssuesToken | server/src/api/v1/executor.rs:324-337 | A committed login answers with a token of its session for the user its row is bound to |
| Steps.IssuedTokenAgreesIff | server/src/api/v1/executor.rs:324-337 | The session of a request with a newly issued token has the administrator bit of the token's user; its row names that user exactly if the issuing POST committed or the row named them before |
| Steps.SessionMatchesCookie | server/src/api/v1/auth.rs:215-277 | The cookie a request leaves session extraction with is a token of the extracted session; the session's user is the one its row names and its admin bit the token's |
| Steps.ExtractionKeepsRows | server/src/api/v1/auth.rs:215-277 | Session extraction adds at most one row, for an id that had none, and a known session keeps table and cookie as they are |
| Responses.ExtractionAnswers | server/src/api/v1/auth.rs:215-277 | A request gets the stored session its cookie names, else a new unbound one with a fresh token, and with a cookie that does not decode neither |
| Steps.RedirectEndsExecution | server/src/executor/flow.rs:54-103 | Only a completed execution answers with the final redirect, to the target the request named, and it is gone afterwards |
| Submissions.PostRedirectIsRemoval | server/src/api/v1/executor.rs:102-112 | A POST removes its execution exactly when it answers with the final redirect, which is exactly when connection and user lookup work, the checks refuse it, the execution is completed and the request names a target |
| Submissions.LoggedInPostPicksUpRedirect | server/src/api/v1/executor.rs:102-104 | Once a flow for the logged-out has logged the user in, its own checks refuse the next POST, which picks up the redirect and removes the execution |
| Submissions.CompletedPostIsIdle | server/src/api/v1/executor.rs:137-139 | A POST to a completed execution leaves all of it unchanged |
| Completion.CompleteProgress | server/src/api/v1/executor.rs:284-346 | The loop over server-side stages passes some number of login entries and nothing else, never meets a client-side stage, runs at most 41 bodies, binds only the given session to the authenticated pending user, and stops for one of the listed reasons |
| Completion.CompleteSetsErrorIff | server/src/api/v1/executor.rs:317-323 | The loop sets the error, with stage and message, exactly when it stops at a login whose pending user is not authenticated, and changes nothing else of the context |
| Completion.CompleteFailsAtLogin | server/src/api/v1/executor.rs:310-337 | The loop fails only at a login, because nobody is pending, there is no session cookie, it does not decode, the new token cannot be signed, or the update fails |
| Completion.CompleteClosedForm | server/src/api/v1/executor.rs:291-345 | Without failures the loop passes the whole run of login entries at the cursor, or as many as the cap allows, in one go |
| Completion.CapNeedsLongRun | server/src/api/v1/executor.rs:301-308 | Stopping at the cap takes 42 server-side entries in a row, so it is impossible with at most 41 |
| Completion.CompleteIssuesToken | server/src/api/v1/executor.rs:324-331 | The loop leaves the cookie alone, or with a token of the session for the authenticated pending user, whether or not it ends well; and if any login ran, it is the latter |
| Completion.LoginRunIsMaximal | server/src/api/v1/executor.rs:296-300 | The run of logins used in the closed form consists of login entries and cannot be extended |
| Executions.AdvanceTimesCursor | server/src/executor/flow.rs:110-118 | After n completions the cursor has moved by n but not past the last entry, and the execution is completed exactly if n reached the end |
| Executions.InterleavedCursor | server/src/executor/flow.rs:104-122 | In any interleaving of the critical sections of any requests the number of completions alone decides cursor and completed flag, and the current entry always exists |
| Executions.InterleavedContext | server/src/executor/flow.rs:34-37 | And the changes to the context, in their order, alone decide the context |
| Checks.CheckPassesIffAllMet | server/src/executor/flow.rs:141-211 | The check passes exactly if the authentication requirement and every enabled binding of the flow and of the current entry is met, negation included |
| Checks.CheckGivesFirstFailure | server/src/executor/flow.rs:146-182 | Otherwise the verdict is that of the first binding not met, flow bindings before entry bindings |
| Checks.BindingPassesIffSatisfied | server/src/executor/flow.rs:162-200 | A binding passes exactly if it is disabled or its policy or user test gives the wanted answer; negation turns a plain answer round but neither a missing one nor an evaluation error |
| Checks.FlowOrderIsIrrelevant | server/src/executor/flow.rs:147-151 | Permuting a flow's bindings changes nobody's admission, nor the verdict unless an unmet group binding and another unmet binding compete |
| Checks.EntryOrderIsIrrelevant | server/src/executor/flow.rs:152-158 | The same of the bindings of the current entry |
| Checks.OrderMattersSomewhere | server/src/executor/flow.rs:162-182 | Where they do compete, some permutation gets another verdict |
| Checks.FurtherFlowBindingNeverAdmits | server/src/executor/flow.rs:147-151 | Inserting a binding of the flow anywhere admits nobody who was refused |
| Checks.FurtherEntryBindingNeverAdmits | server/src/executor/flow.rs:152-158 | Nor does inserting a binding of the current entry |
| Requests.LookupUserFindsFirstMatch | server/src/service/user.rs:50-114 | In the order name, email, id, the first allowed field that any row matches decides: the lookup finds the only row that matches it, or fails with a database error because several do; it finds nobody only if no allowed field matches any row |
| Requests.LookupUserFailsIffSeveralMatch | server/src/service/user.rs:50-114 | A lookup fails exactly if some allowed field matches several rows and no field tried before it matches any |
| Requests.SubmissionKeepsSound | server/src/api/v1/executor.rs:130-143 | Handling a submission changes nothing of an execution but its pending user, and keeps it sound |
| Requests.StartIsSound | server/src/executor.rs:103-131 | A started execution is sound, so its frozen store answers everything it will ask |
| Panics.ConfiguredNeverPanics | server/src/executor/flow.rs:356-364 | With no enabled group binding, no unfinished stage kind, and password references that name password stages, no GET or POST panics |
| Panics.PageAsksForField | server/src/executor/data.rs:14-50 | The form a page shows is the one the next submission needs: without its field the submission is rejected and changes nothing, with that field's error, or at a password form with nobody pending for that reason |
| Panics.FormsShowStages | server/src/executor/data.rs:14-50 | A page shows a password or identification form exactly if the flow applies, the execution is neither completed nor failed, and the current stage is of that kind, with the stage's own fields |
| Closure.WalkIsReachability | storage/src/flow.rs:159-182 | The walk visits exactly the data reachable from the flow through bindings, entries, prompt bindings and password references |
| Closure.WalkEndsIffNoCycleReached | storage/src/stage.rs:191-213 | The recursive walk of a flow ends exactly if no stage reachable from the flow lies on a cycle of password references |
| Closure.ChainEndsIffNoCycle | storage/src/stage.rs:191-213 | The walk of a stage ends at all exactly if its password references lead to no cycle, and then within as many steps as there are stages |
| Closure.FreezeComplete | storage/src/lib.rs:149-162 | The frozen store has every stage and policy that running the flow can ask for, so its lookups never panic |
| Closure.FreezeSound | storage/src/lib.rs:372-421 | The frozen store keeps the index invariant, and whatever it answers about flows, stages, policies and prompts is the source's answer |
| Tables.SubtableIsRestriction | storage/src/lib.rs:219-232 | Recorded maps that satisfy the index invariant are determined by which items were recorded |
| Tables.ItemsDecideTable | storage/src/lib.rs:219-232 | The order of insertions, and repeated ones, leave no trace in the recorded maps |
| Tables.RestrictLookup | storage/src/lib.rs:389-401 | A restricted table answers a query about one of its ids as the whole table does, and no other query |
| Tables.FoundIff | storage/src/lib.rs:389-401 | A query finds exactly the stored item that generates it |
| Closure.FlowFoundIff | model/src/flow.rs:45-48 | A flow is found exactly by its id and its slug |
| Closure.StageFoundIff | model/src/stage.rs:10-13 | A stage is found exactly by its id and its slug |
| Closure.PolicyFoundIff | model/src/policy.rs:14-17 | A policy is found exactly by its id and its slug |
| Tables.ProxyStorage.InsertData | storage/src/lib.rs:219-232 | Inserting an item of the source keeps the recorded maps the source's part for the recorded ids |
| Tables.ProxyStorage.FindOptional | storage/src/lib.rs:263-270 | A lookup through the proxy answers as the source does and records what it returned |
| Tables.ProxyStorage.ExportData | storage/src/lib.rs:234-242 | The export hands out the source's part for the recorded ids, well indexed, and leaves the proxy empty |
| Recording.ProxiedStorage.ReverseLookup | storage/src/flow.rs:160-181 | Looking up everything a flow refers to records exactly its walk and never misses a reference |
| Recording.ProxiedStorage.ReverseLookupStage | storage/src/stage.rs:193-213 | Likewise for one stage, through its prompts or its chain of password stages |
| Recording.ProxiedStorage.CreateFreezed | storage/src/lib.rs:149-162 | The frozen store is the source's part for what was recorded |
| Recording.FreezeFor | server/src/executor.rs:110-115 | Proxy, walk and export together freeze exactly the walk of any flow whose walk ends |
| Executor.FlowExecution.CompleteCurrent | server/src/executor/flow.rs:110-118 | Advances the cursor, or marks completion at the last entry |
| Executor.FlowExecution.Check | server/src/executor/flow.rs:141-160 | The loops with early return compute the specified verdict |
| Executor.FlowExecution.Data | server/src/executor/flow.rs:54-103 | Renders the specified page, and removes the execution from the cache exactly when the specification says so |
| Executor.FlowExecutor.GetExecution | server/src/executor.rs:90-101 | Returns the cached execution, or starts one if asked to and possible, and changes no other entry of the cache |
| Executor.FlowExecutor.Start | server/src/executor.rs:103-131 | Starts the specified execution of a flow whose walk ends, or none if the flow is missing or has no entries |
| Executor.FlowExecutor.SteppedOne | server/src/executor.rs:51-79 | Stepping or removing one cached execution leaves all others as they were |
| Api.Server.PostFlow | server/src/api/v1/executor.rs:74-127 | A POST is the specified step, on every state and request |
| Api.Server.GetFlow | server/src/api/v1/executor.rs:44-71 | A GET is the specified step, on every state and every request that does not start an endless walk |
| Api.Server.PostToExecution | server/src/api/v1/executor.rs:92-126 | The handler between finding the execution and answering has the specified effect on execution, cache, sessions and cookie |
| Api.CompleteStages | server/src/api/v1/executor.rs:284-346 | The loop with its iteration counter ends, and computes the specified progress |
| Api.LoginStage | server/src/api/v1/executor.rs:324-337 | Reissues the cookie and binds the session in the transaction, as specified |
| Api.HandlePasswordStage | server/src/api/v1/executor.rs:218-271 | Handles a password submission as specified |
| Api.HandleStageOf | server/src/api/v1/executor.rs:146-215 | Handles a submission to a stage as specified |
| Api.SessionFromRequest | server/src/api/v1/auth.rs:245-277 | Extracts or creates the session as specified |
| PolicyCache.CacheIsTransparent | server/src/service/policy/service.rs:50-68 | Every sequence of lookups and invalidations is answered as by looking up and compiling without a cache, failed compilations included |
| PolicyCache.TransparentIffHarmless | server/src/service/policy/service.rs:50-106 | Of any results on file: every later sequence of calls is answered as without a cache exactly if no result differs from what its stored policy compiles to |
| PolicyCache.StepIsDirect | server/src/service/policy/service.rs:50-106 | Each call keeps the results on file harmless, keeps them those of stored expression policies only if they were, and a lookup is answered as without a cache |
| PolicyCache.PolicyService.GetAst | server/src/service/policy/service.rs:50-68 | Answers as without a cache, and files the result as specified |
| PolicyCache.PolicyService.Invalidate | server/src/service/policy/service.rs:98-106 | Drops the result and refreshes the row, keeping the cache coherent |
| PolicyRaces.InterleavingTransparentIff | server/src/service/policy/service.rs:50-106 | After any order of sections with any calls under way: however the lookups finish and further ones come while the invalidations lead to a given table, all calls from then on are answered as without a cache exactly if what is on file, what lookups under way have read, and what is stored until the refresh agree with that table as far as they can be filed |
| PolicyRaces.FillAnswers | server/src/service/policy/service.rs:50-68 | In any order a lookup under way answers with the result on file, and otherwise with that of the row it read; so it answers for the row it read exactly if no differing result is on file |
| PolicyRaces.OrderlyIsDirect | server/src/service/policy/service.rs:50-106 | In every order in which no policy is filed between the sections of its invalidation nor refreshed between those of its lookup, each lookup answers what is stored at that moment, and all that follows is direct |
| PolicyRaces.OrderlyIsCurrent | server/src/service/policy/service.rs:50-106 | In such an order every result on file and every row read by a lookup under way is what is stored |
| PolicyRaces.ResultsHaveOrigins | server/src/service/policy/service.rs:50-68 | In any interleaving each result on file is that of the row the filing lookup had read |
| PolicyRaces.SectionsOfCall | server/src/service/policy/service.rs:50-106 | Undisturbed, the two sections of a lookup or of an invalidation amount to the whole call |
| PolicyRaces.LookupInsideInvalidationIsStale | server/src/service/policy/service.rs:98-106 | A concrete lookup between the two sections of an invalidation after which the outdated result is served |
| PolicyRaces.InvalidationInsideLookupIsStale | server/src/service/policy/service.rs:50-68 | A concrete invalidation between the two sections of a lookup after which the outdated result is served |
| Csrf.OverflowingSubChars | server/src/api/csrf.rs:244-252 | For any machine word that holds 61, the wrapping subtraction gives the difference modulo 62 and inverts addition modulo 62 |
| Csrf.AlphanumericIsAlphabet | server/src/api/csrf.rs:26-32 | The server's table consists of 62 different one-byte characters, so everything proved of such tables holds of it |
| Csrf.PositionOfTableChar | server/src/api/csrf.rs:218-232 | Position and indexing are inverse on the 62 characters |
| Csrf.MaskOpInverts | server/src/api/csrf.rs:218-242 | Masking and unmasking with one mask undo each other, in both orders |
| Csrf.MaskOpPanics | server/src/api/csrf.rs:218-232 | On halves of equal byte length the operation panics exactly at a character outside the table |
| Csrf.UnmaskInvertsMask | server/src/api/csrf.rs:211-258 | Every masked secret is an alphanumeric token of 64 characters that unmasks to the secret |
| Csrf.MaskInvertsUnmask | server/src/api/csrf.rs:254-258 | Every alphanumeric token of 64 characters is the masking of what it unmasks to |
| Csrf.ValidatePanics | server/src/api/csrf.rs:260-267 | Validating a 64-byte token panics exactly if some character is not alphanumeric |
| Csrf.ValidateAcceptsOnePerMask | server/src/api/csrf.rs:260-267 | A 64-byte token is accepted exactly if it is the masking of the secret with some mask, so exactly one is accepted per mask |
| Csrf.ValidateAcceptsIff | server/src/api/csrf.rs:260-267 | Over all tokens: accepted are the secret itself unless it is 64 bytes long, and the 64-byte maskings of the secret; so an unmasked secret of 32 characters is accepted, and nothing else of another length |
| Csrf.MaskAdds | server/src/api/csrf.rs:211-242 | A token is its mask followed by the secret plus the mask, position by position, modulo 62 |
| Csrf.BytesIsLeast | server/src/api/csrf.rs:261 | A character counts as the fewest bytes of UTF-8 that its code point fits in |

## Left out

- Concurrency of requests on one execution in runs: a request is one step there. Section by section only the cursor (`Executions.InterleavedCursor`), the pending user (`PasswordRaces`) and the policy cache (`PolicyRaces`) are treated. The lock on the context is not modelled.
- Memory: an endless walk grows without bound, and what it does to other requests in the end is not modelled.
- Looking into the compiled-policy cache and filing a result are one section, as the cache's get-or-insert makes them; expiry of results is not modelled.
- Api.Server.GetFlow: says nothing of a GET that is to start a flow reaching a cycle of password references, because that request is never answered; `Requests.Get` covers it.
- Executions held by a running request after their eviction: with atomic requests there are none.
- The storage cache (`datacache`), which is not part of this repository: a lookup answers from one snapshot of the configuration, and the snapshot changes in steps of its own.
- Read errors of the storage while a flow is started; they surface there as missing data.
- SQL, connection pools and migrations: tables are maps or sequences of rows, and a failing statement is a flag of the request. The server answers with a database error where a query for one row finds several.
- Tenants, which the proxy registers but the walk never looks up, and `find_one` of the proxy, which records as `find_optional` does.
- Sorting of bindings and prompt bindings by their order: it is the library's sort, and admission does not depend on it.
- `FieldStorage`, and the context's `user` field, which nothing sets.
- Argon2, token signing, the script language and random numbers: parameters of the model.
- The clock of the execution cache: eviction is a step that may happen at any time.
- HTTP extraction, routing, origin checks and the cookie of the anti-forgery layer, telemetry, configuration, the front end.
- The URI, network and user packages of the policy engine and the log entries of policies: they would only add one-branch members.
