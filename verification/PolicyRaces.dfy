/**
 The cache of compiled policies under calls that overlap. A lookup reads the row, and fills the cache
 afterwards; an invalidation drops the result, and refreshes the row afterwards. The sections of
 different calls may come in any order.
 */
module PolicyRaces {
  import opened Wrappers
  import opened Model
  import opened Tables
  import opened Closure
  import opened PolicyCache

  /** `call` tells the lookups under way apart; `refreshed` is what the storage holds from then on. */
  datatype Section =
    | Read(call: nat, q: PolicyQuery)
    | Fill(call: nat)
    | Drop(id: int)
    | Refresh(id: int, refreshed: PolicyTable)

  /** The shared state, and the row each lookup under way has read. */
  datatype Sections<Ast> = Sections(state: State<Ast>, rows: map<nat, Policy>)

  function Idle<Ast>(storage: PolicyTable): Sections<Ast> {
    Sections(State(storage, map[]), map[])
  }

  function RunSection<Ast>(compile: Compiler<Ast>, s: Sections<Ast>, section: Section): Sections<Ast> {
    match section
    case Read(call, q) =>
      (match Lookup(s.state.storage, q)
       case Some(policy) => s.(rows := s.rows[call := policy])
       case None => s.(rows := s.rows - {call}))
    case Fill(call) =>
      if call !in s.rows then s
      else
        var policy := s.rows[call];
        var left := s.(rows := s.rows - {call});
        if policy.uid in s.state.asts || !policy.kind.Expression? then left
        else left.(state := s.state.(asts := s.state.asts[policy.uid := compile(policy.kind.source)]))
    case Drop(id) => s.(state := s.state.(asts := s.state.asts - {id}))
    case Refresh(_, refreshed) => s.(state := s.state.(storage := refreshed))
  }

  function RunSections<Ast>(compile: Compiler<Ast>, s: Sections<Ast>, sections: seq<Section>): Sections<Ast> {
    if sections == [] then s
    else
      var last := |sections| - 1;
      RunSection(compile, RunSections(compile, s, sections[..last]), sections[last])
  }

  /** What a lookup answers when it fills. */
  function FillAnswer<Ast>(compile: Compiler<Ast>, s: Sections<Ast>, call: nat): Option<Ast> {
    if call !in s.rows then None
    else if s.rows[call].uid in s.state.asts then s.state.asts[s.rows[call].uid]
    else Expected(compile, s.rows[call])
  }

  /** Undisturbed, the sections of a call amount to the call. */
  lemma SectionsOfCall<Ast>(compile: Compiler<Ast>, s: Sections<Ast>, call: nat, q: PolicyQuery, id: int,
                            refreshed: PolicyTable)
    requires call !in s.rows
    ensures var read := RunSection(compile, s, Read(call, q));
            && RunSection(compile, read, Fill(call)) == s.(state := Step(compile, s.state, GetAst(q)).0)
            && FillAnswer(compile, read, call) == Step(compile, s.state, GetAst(q)).1
    ensures RunSection(compile, RunSection(compile, s, Drop(id)), Refresh(id, refreshed)) ==
            s.(state := Step(compile, s.state, Invalidate(id, refreshed)).0)
  {
    assert s.rows - {call} == s.rows;
    if Lookup(s.state.storage, q).Some? {
      assert s.rows[call := Lookup(s.state.storage, q).value] - {call} == s.rows;
    }
  }

  // Where the results on file come from

  /** Which row each result on file came from; the order of the sections alone decides it. */
  datatype Origins = Origins(storage: PolicyTable, filed: map<int, Policy>, rows: map<nat, Policy>)

  function Track(o: Origins, section: Section): Origins {
    match section
    case Read(call, q) =>
      (match Lookup(o.storage, q)
       case Some(policy) => o.(rows := o.rows[call := policy])
       case None => o.(rows := o.rows - {call}))
    case Fill(call) =>
      if call !in o.rows then o
      else
        var policy := o.rows[call];
        var left := o.(rows := o.rows - {call});
        if policy.uid in o.filed || !policy.kind.Expression? then left
        else left.(filed := o.filed[policy.uid := policy])
    case Drop(id) => o.(filed := o.filed - {id})
    case Refresh(_, refreshed) => o.(storage := refreshed)
  }

  function TrackAll(o: Origins, sections: seq<Section>): Origins {
    if sections == [] then o
    else
      var last := |sections| - 1;
      Track(TrackAll(o, sections[..last]), sections[last])
  }

  function OriginsAfter(storage: PolicyTable, sections: seq<Section>): Origins {
    TrackAll(Origins(storage, map[], map[]), sections)
  }

  lemma {:induction false} TrackAppend(o: Origins, a: seq<Section>, b: seq<Section>)
    ensures TrackAll(o, a + b) == TrackAll(TrackAll(o, a), b)
  {
    if b == [] {
      assert a + b == a;
    } else {
      var last := |b| - 1;
      assert (a + b)[..|a| + last] == a + b[..last];
      TrackAppend(o, a, b[..last]);
    }
  }

  /** The results on file are those of the rows they came from. */
  ghost predicate FiledFrom<Ast>(compile: Compiler<Ast>, s: Sections<Ast>, o: Origins) {
    && s.state.storage == o.storage && s.rows == o.rows
    && s.state.asts.Keys == o.filed.Keys
    && forall id <- o.filed :: o.filed[id].kind.Expression? && s.state.asts[id] == Expected(compile, o.filed[id])
  }

  lemma FiledFromStep<Ast>(compile: Compiler<Ast>, s: Sections<Ast>, o: Origins, section: Section)
    requires FiledFrom(compile, s, o)
    ensures FiledFrom(compile, RunSection(compile, s, section), Track(o, section))
  {
  }

  lemma {:induction false} ResultsHaveOrigins<Ast>(compile: Compiler<Ast>, storage: PolicyTable,
                                                   sections: seq<Section>)
    ensures FiledFrom(compile, RunSections(compile, Idle(storage), sections), OriginsAfter(storage, sections))
  {
    if sections != [] {
      var front, last := sections[..|sections| - 1], sections[|sections| - 1];
      ResultsHaveOrigins(compile, storage, front);
      FiledFromStep(compile, RunSections(compile, Idle(storage), front), OriginsAfter(storage, front), last);
    }
  }

  /**
   The answer of a lookup under way, in any order of sections: the result on file if there is one, from
   whatever row it came, and otherwise that of the row it read. So it answers for the row it read
   exactly if no result on file differs from that row's.
   */
  lemma FillAnswers<Ast>(compile: Compiler<Ast>, storage: PolicyTable, sections: seq<Section>, call: nat)
    requires call in OriginsAfter(storage, sections).rows
    ensures var answer := FillAnswer(compile, RunSections(compile, Idle(storage), sections), call);
            var o := OriginsAfter(storage, sections);
            var row := o.rows[call];
            && answer == Expected(compile, if row.uid in o.filed then o.filed[row.uid] else row)
            && (answer == Expected(compile, row) <==>
                (row.uid in o.filed ==> Expected(compile, o.filed[row.uid]) == Expected(compile, row)))
  {
    ResultsHaveOrigins(compile, storage, sections);
  }

  // What follows an order of sections

  ghost predicate RefreshesIndexed(sections: seq<Section>) {
    forall i | 0 <= i < |sections| && sections[i].Refresh? :: WellIndexed(POLICY_SCHEMA, sections[i].refreshed)
  }

  lemma {:induction false} StorageStaysIndexed(o: Origins, sections: seq<Section>)
    requires WellIndexed(POLICY_SCHEMA, o.storage) && RefreshesIndexed(sections)
    ensures WellIndexed(POLICY_SCHEMA, TrackAll(o, sections).storage)
  {
    if sections != [] {
      StorageStaysIndexed(o, sections[..|sections| - 1]);
    }
  }

  /** Each row of `table` is the one in `before` or the one in `after`. */
  ghost predicate Between(before: PolicyTable, table: PolicyTable, after: PolicyTable) {
    && WellIndexed(POLICY_SCHEMA, table)
    && forall id <- table.data ::
        || (id in before.data && table.data[id] == before.data[id])
        || (id in after.data && table.data[id] == after.data[id])
  }

  /** Calls under way may finish and lookups may come, while invalidations under way lead to `after`. */
  ghost predicate Continues(o: Origins, after: PolicyTable, rest: seq<Section>) {
    rest == [] ||
    var front, last := rest[..|rest| - 1], rest[|rest| - 1];
    && Continues(o, after, front)
    && match last
       case Read(_, _) => true
       case Fill(_) => true
       case Drop(_) => false
       case Refresh(_, refreshed) => Between(TrackAll(o, front).storage, refreshed, after)
  }

  /** In the end every lookup has been answered, and the storage holds `after`. */
  ghost predicate Finishes(o: Origins, after: PolicyTable, rest: seq<Section>) {
    Continues(o, after, rest) && TrackAll(o, rest).rows == map[] && TrackAll(o, rest).storage == after
  }

  /** The two rows compile to the same, if the policy of the first is still in the table. */
  ghost predicate Agrees<Ast>(compile: Compiler<Ast>, row: Policy, table: PolicyTable, id: int) {
    id in table.data ==> Expected(compile, row) == Expected(compile, table.data[id])
  }

  /**
   Whatever is on file, is about to be filed by a lookup under way, or would be filed by a lookup that
   comes before the storage is refreshed, agrees with what the storage will hold.
   */
  ghost predicate Fits<Ast>(compile: Compiler<Ast>, o: Origins, after: PolicyTable) {
    && (forall id <- o.filed :: Agrees(compile, o.filed[id], after, id))
    && (forall call <- o.rows :: o.rows[call].kind.Expression? && o.rows[call].uid !in o.filed ==>
          Agrees(compile, o.rows[call], after, o.rows[call].uid))
    && (forall id <- o.storage.data :: o.storage.data[id].kind.Expression? && id !in o.filed ==>
          Agrees(compile, o.storage.data[id], after, id))
  }

  lemma {:induction false} FitsWhileContinuing<Ast>(compile: Compiler<Ast>, o: Origins, after: PolicyTable,
                                                    rest: seq<Section>)
    requires WellIndexed(POLICY_SCHEMA, o.storage) && Continues(o, after, rest) && Fits(compile, o, after)
    ensures Fits(compile, TrackAll(o, rest), after) && WellIndexed(POLICY_SCHEMA, TrackAll(o, rest).storage)
  {
    if rest != [] {
      var front, last := rest[..|rest| - 1], rest[|rest| - 1];
      FitsWhileContinuing(compile, o, after, front);
      FitsStep(compile, TrackAll(o, front), after, last);
    }
  }

  lemma FitsStep<Ast>(compile: Compiler<Ast>, o: Origins, after: PolicyTable, section: Section)
    requires WellIndexed(POLICY_SCHEMA, o.storage) && Fits(compile, o, after) && !section.Drop?
    requires section.Refresh? ==> Between(o.storage, section.refreshed, after)
    ensures Fits(compile, Track(o, section), after) && WellIndexed(POLICY_SCHEMA, Track(o, section).storage)
  {
    if section.Read? && Lookup(o.storage, section.q).Some? {
      var id := o.storage.query[section.q];
      assert QueryIndexed(POLICY_SCHEMA, o.storage, section.q) && ItemIndexed(POLICY_SCHEMA, o.storage, id);
    }
  }

  lemma FreshCall(calls: set<nat>) returns (call: nat)
    ensures forall other <- calls :: other < call
  {
    call := 0;
    if calls != {} {
      var some :| some in calls;
      var above := FreshCall(calls - {some});
      call := if some < above then above else some + 1;
      assert forall other <- calls :: other == some || other in calls - {some};
    }
  }

  lemma ContinueBy(o: Origins, after: PolicyTable, front: seq<Section>, section: Section)
    requires Continues(o, after, front) && !section.Drop?
    requires section.Refresh? ==> Between(TrackAll(o, front).storage, section.refreshed, after)
    ensures Continues(o, after, front + [section])
    ensures TrackAll(o, front + [section]) == Track(TrackAll(o, front), section)
  {
    assert (front + [section])[..|front|] == front;
  }

  /** What is on file early stays on file. */
  ghost predicate KeepsFiled(early: Origins, late: Origins) {
    forall id <- early.filed :: id in late.filed && late.filed[id] == early.filed[id]
  }

  /** From any beginning, the lookups under way can all fill and the storage be refreshed. */
  lemma {:induction false} FinishFrom(o: Origins, after: PolicyTable, start: seq<Section>) returns (rest: seq<Section>)
    requires WellIndexed(POLICY_SCHEMA, after) && Continues(o, after, start)
    ensures Finishes(o, after, rest)
    ensures KeepsFiled(TrackAll(o, start), TrackAll(o, rest))
    decreases |TrackAll(o, start).rows|
  {
    hide Continues;
    hide WellIndexed;
    var now := TrackAll(o, start);
    if now.rows == map[] {
      ContinueBy(o, after, start, Refresh(0, after));
      rest := start + [Refresh(0, after)];
    } else {
      var call :| call in now.rows;
      ContinueBy(o, after, start, Fill(call));
      FewerRows(now.rows, call);
      rest := FinishFrom(o, after, start + [Fill(call)]);
    }
  }

  lemma FewerRows(rows: map<nat, Policy>, call: nat)
    requires call in rows
    ensures |rows - {call}| < |rows|
  {
    assert (rows - {call}).Keys == rows.Keys - {call};
    assert |rows.Keys - {call}| == |rows.Keys| - 1;
  }

  /** If something does not fit, some way to finish leaves a result on file that does not either. */
  lemma UnfitFinish<Ast>(compile: Compiler<Ast>, o: Origins, after: PolicyTable)
    returns (rest: seq<Section>, id: int)
    requires WellIndexed(POLICY_SCHEMA, o.storage) && WellIndexed(POLICY_SCHEMA, after) && !Fits(compile, o, after)
    ensures Finishes(o, after, rest)
    ensures id in TrackAll(o, rest).filed && !Agrees(compile, TrackAll(o, rest).filed[id], after, id)
  {
    var start: seq<Section>;
    if call :| call in o.rows && o.rows[call].kind.Expression? && o.rows[call].uid !in o.filed
               && !Agrees(compile, o.rows[call], after, o.rows[call].uid) {
      start, id := [Fill(call)], o.rows[call].uid;
      ContinueBy(o, after, [], Fill(call));
      assert [] + [Fill(call)] == start;
    } else if stored :| stored in o.storage.data && o.storage.data[stored].kind.Expression? && stored !in o.filed
                        && !Agrees(compile, o.storage.data[stored], after, stored) {
      id := stored;
      start := ReadAndFill(o, after, id);
    } else {
      id :| id in o.filed && !Agrees(compile, o.filed[id], after, id);
      start := [];
    }
    rest := FinishFrom(o, after, start);
  }

  lemma ReadAndFill(o: Origins, after: PolicyTable, id: int) returns (start: seq<Section>)
    requires WellIndexed(POLICY_SCHEMA, o.storage) && id in o.storage.data
    requires o.storage.data[id].kind.Expression? && id !in o.filed
    ensures Continues(o, after, start)
    ensures id in TrackAll(o, start).filed && TrackAll(o, start).filed[id] == o.storage.data[id]
  {
    var call := FreshCall(o.rows.Keys);
    var read, fill := Read(call, PolicyUid(id)), Fill(call);
    assert ItemIndexed(POLICY_SCHEMA, o.storage, id);
    assert PolicyUid(id) in POLICY_SCHEMA.queries(o.storage.data[id]);
    ContinueBy(o, after, [], read);
    assert [] + [read] == [read];
    ContinueBy(o, after, [read], fill);
    start := [read] + [fill];
  }

  /** The results on file are harmless exactly if they agree with what is stored. */
  lemma TransparentIffFilesAgree<Ast>(compile: Compiler<Ast>, storage: PolicyTable, sections: seq<Section>)
    requires WellIndexed(POLICY_SCHEMA, OriginsAfter(storage, sections).storage)
    ensures var o := OriginsAfter(storage, sections);
            Transparent(compile, RunSections(compile, Idle(storage), sections).state) <==>
            forall id <- o.filed :: Agrees(compile, o.filed[id], o.storage, id)
  {
    ResultsHaveOrigins(compile, storage, sections);
    TransparentIffHarmless(compile, RunSections(compile, Idle(storage), sections).state);
  }

  /**
   After any order of sections, with any lookups and invalidations under way: however the lookups
   finish, and further ones come, while the invalidations lead to `after`, all calls from then on are
   answered as without a cache exactly if everything fits.
   */
  lemma InterleavingTransparentIff<Ast>(compile: Compiler<Ast>, storage: PolicyTable, sections: seq<Section>,
                                        after: PolicyTable)
    requires WellIndexed(POLICY_SCHEMA, storage) && WellIndexed(POLICY_SCHEMA, after) && RefreshesIndexed(sections)
    ensures var o := OriginsAfter(storage, sections);
            Fits(compile, o, after) <==>
            forall rest | Finishes(o, after, rest) ::
              Transparent(compile, RunSections(compile, Idle(storage), sections + rest).state)
  {
    var o := OriginsAfter(storage, sections);
    StorageStaysIndexed(Origins(storage, map[], map[]), sections);
    if Fits(compile, o, after) {
      forall rest | Finishes(o, after, rest)
        ensures Transparent(compile, RunSections(compile, Idle(storage), sections + rest).state)
      {
        TrackAppend(Origins(storage, map[], map[]), sections, rest);
        FitsWhileContinuing(compile, o, after, rest);
        TransparentIffFilesAgree(compile, storage, sections + rest);
      }
    } else {
      var rest, id := UnfitFinish(compile, o, after);
      TrackAppend(Origins(storage, map[], map[]), sections, rest);
      TransparentIffFilesAgree(compile, storage, sections + rest);
    }
  }

  // Orders without harm

  /** The invalidations under way: dropped, and not refreshed yet. */
  function UnderWay(sections: seq<Section>): multiset<int> {
    if sections == [] then multiset{}
    else
      var last := |sections| - 1;
      match sections[last]
      case Drop(id) => UnderWay(sections[..last]) + multiset{id}
      case Refresh(id, _) => UnderWay(sections[..last]) - multiset{id}
      case _ => UnderWay(sections[..last])
  }

  /** The section files no policy whose invalidation is under way, and refreshes no row a lookup has read. */
  ghost predicate Orderly(o: Origins, underWay: multiset<int>, section: Section) {
    match section
    case Read(_, _) => true
    case Drop(_) => true
    case Fill(call) => call in o.rows ==> o.rows[call].uid !in underWay
    case Refresh(id, refreshed) =>
      && id in underWay
      && (forall call <- o.rows :: o.rows[call].uid != id)
      && WellIndexed(POLICY_SCHEMA, refreshed) && ChangesOnly(o.storage, refreshed, id)
  }

  /**
   A policy is filed at no time between the two sections of its invalidation, and refreshed at no time
   between the two sections of its lookup.
   */
  ghost predicate AllOrderly(storage: PolicyTable, sections: seq<Section>) {
    sections == [] ||
    var front := sections[..|sections| - 1];
    && AllOrderly(storage, front)
    && Orderly(OriginsAfter(storage, front), UnderWay(front), sections[|sections| - 1])
  }

  /** Everything on file, and everything read by a lookup under way, is what is stored. */
  ghost predicate Current(o: Origins, underWay: multiset<int>) {
    && WellIndexed(POLICY_SCHEMA, o.storage)
    && (forall id <- o.filed :: id !in underWay && id in o.storage.data && o.storage.data[id] == o.filed[id])
    && (forall call <- o.rows ::
          o.rows[call].uid in o.storage.data && o.storage.data[o.rows[call].uid] == o.rows[call])
  }

  lemma CurrentStep(o: Origins, front: seq<Section>, section: Section)
    requires Current(o, UnderWay(front)) && Orderly(o, UnderWay(front), section)
    ensures Current(Track(o, section), UnderWay(front + [section]))
  {
    assert (front + [section])[..|front|] == front;
    if section.Read? && Lookup(o.storage, section.q).Some? {
      var id := o.storage.query[section.q];
      assert QueryIndexed(POLICY_SCHEMA, o.storage, section.q) && ItemIndexed(POLICY_SCHEMA, o.storage, id);
    }
  }

  lemma {:induction false} OrderlyIsCurrent(storage: PolicyTable, sections: seq<Section>)
    requires WellIndexed(POLICY_SCHEMA, storage) && AllOrderly(storage, sections)
    ensures Current(OriginsAfter(storage, sections), UnderWay(sections))
  {
    if sections != [] {
      var front, last := sections[..|sections| - 1], sections[|sections| - 1];
      OrderlyIsCurrent(storage, front);
      CurrentStep(OriginsAfter(storage, front), front, last);
      assert front + [last] == sections;
    }
  }

  /**
   In such an order every lookup answers, when it fills, as one without a cache would at that moment;
   and once no invalidation is under way all later answers are direct, however the lookups finish.
   */
  lemma OrderlyIsDirect<Ast>(compile: Compiler<Ast>, storage: PolicyTable, sections: seq<Section>)
    requires WellIndexed(POLICY_SCHEMA, storage) && AllOrderly(storage, sections)
    ensures var s, o := RunSections(compile, Idle(storage), sections), OriginsAfter(storage, sections);
            && (forall call <- o.rows :: FillAnswer(compile, s, call) ==
                  Direct(compile, s.state.storage, PolicyUid(o.rows[call].uid)))
            && Fits(compile, o, o.storage) && Transparent(compile, s.state)
  {
    OrderlyIsCurrent(storage, sections);
    ResultsHaveOrigins(compile, storage, sections);
    TransparentIffFilesAgree(compile, storage, sections);
    var o := OriginsAfter(storage, sections);
    forall call <- o.rows
      ensures Lookup(o.storage, PolicyUid(o.rows[call].uid)) == Some(o.rows[call])
    {
      assert ItemIndexed(POLICY_SCHEMA, o.storage, o.rows[call].uid);
      assert PolicyUid(o.rows[call].uid) in POLICY_SCHEMA.queries(o.rows[call]);
    }
  }

  // Two orders in which an outdated result gets filed, and is served from then on

  function PolicyAt(source: string): PolicyTable {
    Table(map[1 := Policy(1, "p", Expression(source))], map[PolicyUid(1) := 1, PolicySlug("p") := 1])
  }

  /** The result on file is that of the row `a`, and the row stored by now is `b`. */
  predicate ServesOutdated(s: Sections<string>) {
    var compile := (source: string) => Some(source);
    && s.state.storage == PolicyAt("b")
    && Step(compile, s.state, GetAst(PolicyUid(1))).1 == Some("a")
    && Direct(compile, s.state.storage, PolicyUid(1)) == Some("b")
  }

  /** A whole lookup between the two sections of an invalidation. */
  lemma LookupInsideInvalidationIsStale()
    ensures var compile := (source: string) => Some(source);
            var dropped := RunSection(compile, Idle(PolicyAt("a")), Drop(1));
            var read := RunSection(compile, dropped, Read(0, PolicyUid(1)));
            var filled := RunSection(compile, read, Fill(0));
            ServesOutdated(RunSection(compile, filled, Refresh(1, PolicyAt("b"))))
  {
  }

  /** A whole invalidation between the two sections of a lookup: its own answer is outdated already. */
  lemma InvalidationInsideLookupIsStale()
    ensures var compile := (source: string) => Some(source);
            var read := RunSection(compile, Idle(PolicyAt("a")), Read(0, PolicyUid(1)));
            var dropped := RunSection(compile, read, Drop(1));
            var refreshed := RunSection(compile, dropped, Refresh(1, PolicyAt("b")));
            && FillAnswer(compile, refreshed, 0) == Some("a")
            && ServesOutdated(RunSection(compile, refreshed, Fill(0)))
  {
  }
}
