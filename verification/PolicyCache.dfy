/** The cache of compiled expression policies, failures included. */
module PolicyCache {
  import opened Wrappers
  import opened Model
  import opened Tables
  import opened Closure

  type PolicyTable = Table<PolicyQuery, Policy>

  type Compiler<!Ast> = string -> Option<Ast>

  /** What a policy compiles to; only an expression compiles to anything. */
  function Expected<Ast>(compile: Compiler<Ast>, policy: Policy): Option<Ast> {
    if policy.kind.Expression? then compile(policy.kind.source) else None
  }

  /** What the service would answer without a cache: look the policy up and compile it. */
  function Direct<Ast>(compile: Compiler<Ast>, storage: PolicyTable, q: PolicyQuery): Option<Ast> {
    match Lookup(storage, q)
    case Some(policy) => Expected(compile, policy)
    case None => None
  }

  /** Cached results are those of the expression policies they are filed under, and of nothing else. */
  ghost predicate Coherent<Ast>(compile: Compiler<Ast>, storage: PolicyTable, asts: map<int, Option<Ast>>) {
    forall id <- asts ::
      && id in storage.data && storage.data[id].kind.Expression?
      && asts[id] == compile(storage.data[id].kind.source)
  }

  /** No result on file for a stored policy differs from what the policy compiles to. */
  ghost predicate Harmless<Ast>(compile: Compiler<Ast>, storage: PolicyTable, asts: map<int, Option<Ast>>) {
    forall id <- asts :: id in storage.data ==> asts[id] == Expected(compile, storage.data[id])
  }

  /** The storage may change at `id` only. */
  ghost predicate ChangesOnly(before: PolicyTable, after: PolicyTable, id: int) {
    forall other | other != id ::
      && (other in before.data <==> other in after.data)
      && (other in before.data && other in after.data ==> before.data[other] == after.data[other])
  }

  // One call of the cached service, on values

  datatype Call = GetAst(q: PolicyQuery) | Invalidate(id: int, refreshed: PolicyTable)

  datatype State<Ast> = State(storage: PolicyTable, asts: map<int, Option<Ast>>)

  function Step<Ast>(compile: Compiler<Ast>, s: State<Ast>, call: Call): (State<Ast>, Option<Ast>) {
    match call
    case Invalidate(id, refreshed) => (State(refreshed, s.asts - {id}), None)
    case GetAst(q) =>
      match Lookup(s.storage, q)
      case None => (s, None)
      case Some(policy) =>
        if policy.uid in s.asts then (s, s.asts[policy.uid])
        else if policy.kind.Expression? then
          var compiled := compile(policy.kind.source);
          (s.(asts := s.asts[policy.uid := compiled]), compiled)
        else (s, None)
  }

  class PolicyService<Ast> {
    const compile: Compiler<Ast>
    var storage: PolicyTable
    var asts: map<int, Option<Ast>>

    ghost predicate Valid()
      reads this
    {
      WellIndexed(POLICY_SCHEMA, storage) && Coherent(compile, storage, asts)
    }

    constructor (compile: Compiler<Ast>, storage: PolicyTable)
      requires WellIndexed(POLICY_SCHEMA, storage)
      ensures Valid() && asts == map[] && this.storage == storage && this.compile == compile
    {
      this.compile := compile;
      this.storage := storage;
      asts := map[];
    }

    method GetAst(q: PolicyQuery) returns (r: Option<Ast>)
      requires Valid()
      modifies this
      ensures Valid() && storage == old(storage)
      ensures r == Direct(compile, storage, q)
      ensures (State(storage, asts), r) == Step(compile, State(old(storage), old(asts)), Call.GetAst(q))
    {
      var found := Lookup(storage, q);
      if found.None? {
        return None;
      }
      var policy := found.value;
      var id := storage.query[q];
      assert QueryIndexed(POLICY_SCHEMA, storage, q) && ItemIndexed(POLICY_SCHEMA, storage, id);
      if policy.uid in asts {
        return asts[policy.uid];
      }
      match policy.kind {
        case Expression(source) =>
          var compiled := compile(source);
          asts := asts[policy.uid := compiled];
          r := compiled;
        case PasswordExpiry(_) | PasswordStrength =>
          r := None;
      }
    }

    /** Forgets a policy's result, and lets the storage pick up what became of the policy. */
    method Invalidate(id: int, refreshed: PolicyTable)
      requires Valid()
      requires WellIndexed(POLICY_SCHEMA, refreshed) && ChangesOnly(storage, refreshed, id)
      modifies this
      ensures Valid()
      ensures State(storage, asts) == Step(compile, State(old(storage), old(asts)), Call.Invalidate(id, refreshed)).0
    {
      asts := asts - {id};
      storage := refreshed;
    }
  }

  // Sequences of calls

  /** The answers of the cached service to a sequence of calls. */
  function CachedAnswers<Ast>(compile: Compiler<Ast>, s: State<Ast>, calls: seq<Call>): seq<Option<Ast>>
    decreases |calls|
  {
    if calls == [] then []
    else
      var (s', answer) := Step(compile, s, calls[0]);
      [answer] + CachedAnswers(compile, s', calls[1..])
  }

  /** The answers of a service without a cache. */
  function DirectAnswers<Ast>(compile: Compiler<Ast>, storage: PolicyTable, calls: seq<Call>): seq<Option<Ast>>
    decreases |calls|
  {
    if calls == [] then []
    else match calls[0]
      case GetAst(q) => [Direct(compile, storage, q)] + DirectAnswers(compile, storage, calls[1..])
      case Invalidate(_, refreshed) => [None] + DirectAnswers(compile, refreshed, calls[1..])
  }

  /** Storage changes only by invalidation, and then at the invalidated policy. */
  ghost predicate Honest(storage: PolicyTable, calls: seq<Call>)
    decreases |calls|
  {
    && WellIndexed(POLICY_SCHEMA, storage)
    && (calls != [] ==>
          match calls[0]
          case GetAst(_) => Honest(storage, calls[1..])
          case Invalidate(id, refreshed) => ChangesOnly(storage, refreshed, id) && Honest(refreshed, calls[1..]))
  }

  /** Each call keeps what is on file harmless, and a lookup is answered as without the cache. */
  lemma StepIsDirect<Ast>(compile: Compiler<Ast>, s: State<Ast>, call: Call)
    requires WellIndexed(POLICY_SCHEMA, s.storage) && Harmless(compile, s.storage, s.asts)
    requires call.Invalidate? ==> ChangesOnly(s.storage, call.refreshed, call.id)
    ensures var (s', answer) := Step(compile, s, call);
            && Harmless(compile, s'.storage, s'.asts)
            && (Coherent(compile, s.storage, s.asts) ==> Coherent(compile, s'.storage, s'.asts))
            && (call.GetAst? ==> s'.storage == s.storage && answer == Direct(compile, s.storage, call.q))
  {
    if call.GetAst? && Lookup(s.storage, call.q).Some? {
      var id := s.storage.query[call.q];
      assert QueryIndexed(POLICY_SCHEMA, s.storage, call.q) && ItemIndexed(POLICY_SCHEMA, s.storage, id);
    }
  }

  /** The cache is invisible: every sequence of calls is answered as without it. */
  lemma {:induction false} CacheIsTransparent<Ast>(compile: Compiler<Ast>, s: State<Ast>, calls: seq<Call>)
    requires Honest(s.storage, calls) && Harmless(compile, s.storage, s.asts)
    ensures CachedAnswers(compile, s, calls) == DirectAnswers(compile, s.storage, calls)
    decreases |calls|
  {
    if calls != [] {
      StepIsDirect(compile, s, calls[0]);
      CacheIsTransparent(compile, Step(compile, s, calls[0]).0, calls[1..]);
    }
  }

  /** Whatever is asked and invalidated from here on, all answers are those of a service without a cache. */
  ghost predicate Transparent<Ast>(compile: Compiler<Ast>, s: State<Ast>) {
    forall calls | Honest(s.storage, calls) ::
      CachedAnswers(compile, s, calls) == DirectAnswers(compile, s.storage, calls)
  }

  /** Of any results on file: later answers are direct exactly if the results are harmless. */
  lemma TransparentIffHarmless<Ast>(compile: Compiler<Ast>, s: State<Ast>)
    requires WellIndexed(POLICY_SCHEMA, s.storage)
    ensures Transparent(compile, s) <==> Harmless(compile, s.storage, s.asts)
  {
    if Harmless(compile, s.storage, s.asts) {
      forall calls | Honest(s.storage, calls)
        ensures CachedAnswers(compile, s, calls) == DirectAnswers(compile, s.storage, calls)
      {
        CacheIsTransparent(compile, s, calls);
      }
    } else {
      var id :| id in s.asts && id in s.storage.data && s.asts[id] != Expected(compile, s.storage.data[id]);
      assert ItemIndexed(POLICY_SCHEMA, s.storage, id);
      assert PolicyUid(id) in POLICY_SCHEMA.queries(s.storage.data[id]);
      var calls := [GetAst(PolicyUid(id))];
      assert calls[1..] == [] && Honest(s.storage, calls);
      assert CachedAnswers(compile, s, calls)[0] != DirectAnswers(compile, s.storage, calls)[0];
    }
  }
}
