/**
 Submissions to one execution that overlap. A password check reads who is pending, awaits the user's row
 and verifies the password, and then sets the bit of whoever is pending by that time.
 */
module PasswordRaces {
  import opened Wrappers
  import opened Model
  import opened Executions
  import opened Requests
  import opened Submissions

  /** `call` tells the checks under way apart; a check sets the bit only if the password was right. */
  datatype Section = ReadPending(call: nat) | SetAuthenticated(call: nat) | Identify(row: UserRow)

  /** Who is pending, and whom each check under way has read. */
  datatype Shared = Shared(pending: Option<PendingUser>, read: map<nat, PendingUser>)

  function RunSection(s: Shared, section: Section): Shared {
    match section
    case ReadPending(call) =>
      s.(read := if s.pending.Some? then s.read[call := s.pending.value] else s.read - {call})
    case SetAuthenticated(call) =>
      if call !in s.read then s
      else
        var pending := if s.pending.Some? then Some(Authenticated(s.pending.value)) else None;
        Shared(pending, s.read - {call})
    case Identify(row) => s.(pending := Some(Identified(row)))
  }

  function RunSections(s: Shared, sections: seq<Section>): Shared {
    if sections == [] then s
    else
      var last := |sections| - 1;
      RunSection(RunSections(s, sections[..last]), sections[last])
  }

  // One submission after another

  /** The sections of one submission: an identification, a password check that is passed, or both. */
  function SectionsOf(env: Env, users: seq<UserRow>, req: Request, e: Execution): seq<Section>
    requires e.Sound()
  {
    var identified := IdentifiedRow(env, users, req, e);
    var challenge := ChallengeOf(env, users, req, e);
    (if identified.Some? then [Identify(identified.value)] else []) +
    (if challenge.Some? && Meets(env, users, req, challenge.value) then [ReadPending(0), SetAuthenticated(0)] else [])
  }

  lemma RunAppend(s: Shared, front: seq<Section>, section: Section)
    ensures RunSections(s, front + [section]) == RunSection(RunSections(s, front), section)
  {
    assert (front + [section])[..|front|] == front;
  }

  /** Undisturbed, the sections of a submission leave pending whom the submission leaves pending. */
  lemma SectionsOfSubmission(env: Env, users: seq<UserRow>, req: Request, e: Execution)
    requires e.Sound()
    ensures RunSections(Shared(e.context.pending, map[]), SectionsOf(env, users, req, e)) ==
            Shared(PendingAfter(env, users, req, e), map[])
  {
    hide Meets;
    hide Requests.Identify;
    var start := Shared(e.context.pending, map[]);
    var identified := IdentifiedRow(env, users, req, e);
    var first := if identified.Some? then [Section.Identify(identified.value)] else [];
    if identified.Some? {
      RunAppend(start, [], first[0]);
      assert [] + first == first;
    }
    var challenge := ChallengeOf(env, users, req, e);
    if challenge.Some? && Meets(env, users, req, challenge.value) {
      RunAppend(start, first, ReadPending(0));
      RunAppend(start, first + [ReadPending(0)], SetAuthenticated(0));
      assert first + [ReadPending(0), SetAuthenticated(0)] == first + [ReadPending(0)] + [SetAuthenticated(0)];
      assert RunSections(start, first).pending == Some(challenge.value.user);
      assert map[0 := challenge.value.user] - {0} == map[];
    } else {
      assert first + [] == first;
    }
  }

  // On whom the bit falls

  /** The user identified last. */
  function LastIdentified(sections: seq<Section>): Option<Uuid> {
    if sections == [] then None
    else
      var last := |sections| - 1;
      if sections[last].Identify? then Some(sections[last].row.uid) else LastIdentified(sections[..last])
  }

  predicate About(section: Section, call: nat) {
    (section.ReadPending? || section.SetAuthenticated?) && section.call == call
  }

  lemma {:induction false} PendingBetween(s: Shared, between: seq<Section>, call: nat)
    requires s.pending.Some? && call in s.read
    requires forall section <- between :: !About(section, call)
    ensures var later := RunSections(s, between);
            && call in later.read && later.read[call] == s.read[call] && later.pending.Some?
            && later.pending.value.uid ==
               (if LastIdentified(between).Some? then LastIdentified(between).value else s.pending.value.uid)
  {
    if between != [] {
      var front, last := between[..|between| - 1], between[|between| - 1];
      assert last in between && forall section <- front :: section in between;
      PendingBetween(s, front, call);
    }
  }

  /**
   A check that read `user` and found the password right authenticates exactly `user` if and only if
   nobody was identified meanwhile, or `user` again was the last to be; otherwise it authenticates
   somebody whose password it never saw.
   */
  lemma BitFallsOnCheckedIff(s: Shared, call: nat, between: seq<Section>)
    requires s.pending.Some? && forall section <- between :: !About(section, call)
    ensures var user := s.pending.value;
            var after := RunSections(RunSection(s, ReadPending(call)), between + [SetAuthenticated(call)]).pending;
            && after.Some? && after.value.authenticated
            && (after.value.uid == user.uid <==> LastIdentified(between) in {None, Some(user.uid)})
  {
    var read := RunSection(s, ReadPending(call));
    PendingBetween(read, between, call);
    RunAppend(read, between, SetAuthenticated(call));
  }

  /** Two submissions to one identification stage: the password of the first authenticates the second. */
  lemma OvertakenCheckAuthenticatesOther(checked: UserRow, other: UserRow)
    ensures var sections := [Identify(checked), ReadPending(0), Identify(other), SetAuthenticated(0)];
            RunSections(Shared(None, map[]), sections).pending == Some(Authenticated(Identified(other)))
  {
    var start := Shared(None, map[]);
    RunAppend(start, [], Identify(checked));
    RunAppend(start, [Identify(checked)], ReadPending(0));
    RunAppend(start, [Identify(checked), ReadPending(0)], Identify(other));
    RunAppend(start, [Identify(checked), ReadPending(0), Identify(other)], SetAuthenticated(0));
    assert [] + [Identify(checked)] == [Identify(checked)];
    assert [Identify(checked)] + [ReadPending(0)] == [Identify(checked), ReadPending(0)];
    assert [Identify(checked), ReadPending(0)] + [Identify(other)] ==
           [Identify(checked), ReadPending(0), Identify(other)];
    assert [Identify(checked), ReadPending(0), Identify(other)] + [SetAuthenticated(0)] ==
           [Identify(checked), ReadPending(0), Identify(other), SetAuthenticated(0)];
  }

  // Whole orders

  /** The users whose password checks have set the bit since the last identification. */
  function CheckedSince(s: Shared, sections: seq<Section>): set<Uuid> {
    if sections == [] then {}
    else
      var last := |sections| - 1;
      var front := sections[..last];
      match sections[last]
      case ReadPending(_) => CheckedSince(s, front)
      case SetAuthenticated(call) =>
        var read := RunSections(s, front).read;
        CheckedSince(s, front) + if call in read then {read[call].uid} else {}
      case Identify(_) => {}
  }

  /** The checks under way during which somebody was identified. */
  function Overtaken(s: Shared, sections: seq<Section>): set<nat> {
    if sections == [] then {}
    else
      var last := |sections| - 1;
      var front := sections[..last];
      match sections[last]
      case ReadPending(call) => Overtaken(s, front) - {call}
      case SetAuthenticated(_) => Overtaken(s, front)
      case Identify(_) => RunSections(s, front).read.Keys
  }

  /** No check sets the bit after somebody was identified during it. */
  predicate Undisturbed(s: Shared, sections: seq<Section>) {
    sections == [] ||
    var front, last := sections[..|sections| - 1], sections[|sections| - 1];
    Undisturbed(s, front) && (last.SetAuthenticated? ==> last.call !in Overtaken(s, front))
  }

  /** What holds of a check that was not overtaken: it read the user who is still pending. */
  ghost predicate Follows(s: Shared, overtaken: set<nat>, checked: set<Uuid>) {
    && (forall call <- s.read :: call !in overtaken ==>
          s.pending.Some? && s.pending.value.uid == s.read[call].uid)
    && (s.pending.Some? && s.pending.value.authenticated ==> s.pending.value.uid in checked)
  }

  /**
   If no check is overtaken by an identification, whoever is pending and authenticated has had their own
   password checked since they were identified, in whatever order the sections come.
   */
  lemma {:induction false} UndisturbedChecksAreOwn(pending: Option<PendingUser>, sections: seq<Section>)
    requires pending.Some? ==> !pending.value.authenticated
    requires Undisturbed(Shared(pending, map[]), sections)
    ensures var start := Shared(pending, map[]);
            Follows(RunSections(start, sections), Overtaken(start, sections), CheckedSince(start, sections))
  {
    if sections != [] {
      UndisturbedChecksAreOwn(pending, sections[..|sections| - 1]);
    }
  }
}
