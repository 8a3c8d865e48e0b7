/**
 Whole runs of the Outline reconciler: resumability after any number of
 operations, convergence, and what is never touched.
*/
module OutlineConvergence {
  import opened Wrappers
  import opened StringOrder
  import opened OutlinePlan
  import opened OutlineServer
  import opened OutlineResume

  /** Where `apply_plan` has got to: the server, and its `created` dictionary. */
  datatype Progress = Progress(server: Server, created: map<string, string>)

  function Advance(p: Progress, op: Operation, choice: Choice): Progress {
    Progress(Perform(p.server, Addressed(p.created, op), choice), Recorded(p.created, op, choice))
  }

  /** After the first `k` operations. */
  function Run(p: Progress, ops: seq<Operation>, choices: nat -> Choice, k: nat): Progress
    requires k <= |ops|
  {
    if k == 0 then p else Advance(Run(p, ops, choices, k - 1), ops[k - 1], choices(k - 1))
  }

  /** Every id the server hands out during the first `k` operations is new when it does. */
  ghost predicate FreshRun(d: Directory, p: Progress, ops: seq<Operation>, choices: nat -> Choice, k: nat)
    requires k <= |ops|
  {
    forall i :: 0 <= i < k ==> FreshAt(d, p, ops, choices, i)
  }

  ghost predicate FreshAt(d: Directory, p: Progress, ops: seq<Operation>, choices: nat -> Choice, i: nat)
    requires i < |ops|
  {
    ops[i].Create? ==> Fresh(d, Run(p, ops, choices, i).server, choices(i).id)
  }

  /** `memberships` as `reconcile` gathers it: only groups with a relevant name or this source's prefix. */
  function Gathered(d: Directory, s: Server): Memberships {
    map g | g in s.groups && g.id in s.members && Relevant(d, g) :: g.id := s.members[g.id]
  }

  predicate Relevant(d: Directory, g: Group) {
    (exists h :: h in d.ldap && h.name == g.name) || StartsWith(g.externalId, Prefix(d.sourceId))
  }

  /** The memberships of every relevant group could be read. */
  predicate AllRead(d: Directory, groups: seq<Group>, membershipsRead: string -> bool) {
    forall g :: g in groups && Relevant(d, g) ==> membershipsRead(g.id)
  }

  /** Every `memberships[...]` that the planner reads was gathered. */
  lemma LookupsGathered(d: Directory, s: Server)
    requires Consistent(d, s)
    ensures forall h :: h in d.ldap && Target(d, s.groups, h).Some? ==>
      var id := Target(d, s.groups, h).value.id; id in Gathered(d, s) && Gathered(d, s)[id] == s.members[id]
    ensures forall g :: g in s.groups && Stale(d, s.groups, g) ==>
      g.id in Gathered(d, s) && Gathered(d, s)[g.id] == s.members[g.id]
  {
  }

  lemma GatheredSuffices(d: Directory, s: Server)
    requires Consistent(d, s)
    ensures Accepted(d, s.groups, Gathered(d, s)) <==> Accepted(d, s.groups, s.members)
    ensures PlanOps(d, s.groups, Gathered(d, s)) == Plan(d, s)
  {
    LookupsGathered(d, s);
    GatheredPlan(d, s);
  }

  lemma GatheredPlan(d: Directory, s: Server)
    requires Consistent(d, s)
    ensures PlanOps(d, s.groups, Gathered(d, s)) == Plan(d, s)
  {
    LookupsGathered(d, s);
    var ldap := SortedGroups(d.ldap);
    assert SectionChunks(d, s.groups, Gathered(d, s), ldap) == SectionChunks(d, s.groups, s.members, ldap);
    assert StaleChunks(d, s.groups, Gathered(d, s), s.groups) == StaleChunks(d, s.groups, s.members, s.groups);
  }

  // ----- resumability -----

  /** `rest` is what is still to do, and a new plan says so too. */
  ghost predicate OnTrack(d: Directory, p: Progress, rest: seq<Operation>) {
    Planned(d, p, rest) && CreatedIsReal(d, p)
  }

  ghost predicate Planned(d: Directory, p: Progress, rest: seq<Operation>) {
    AcceptedServer(d, p.server) && Plan(d, p.server) == AllAddressed(p.created, rest)
  }

  /** What was created has a real id, and carries its LDAP group. */
  ghost predicate CreatedIsReal(d: Directory, p: Progress) {
    && (forall e :: e in p.created ==> RealId(d, p.created[e]))
    && (forall g :: g in d.ldap && ExternalId(d, g) in p.created ==> Target(d, p.server.groups, g).Some?)
  }

  lemma AddressedTwice(d: Directory, created: map<string, string>, op: Operation, choice: Choice, rest: seq<Operation>)
    requires forall e :: e in created ==> RealId(d, created[e])
    requires op.Create? ==> op.externalId !in created && exists g :: g in d.ldap && op.externalId == ExternalId(d, g)
    ensures AllAddressed(StepIds(op, choice), AllAddressed(created, rest))
         == AllAddressed(Recorded(created, op, choice), rest)
  {
  }

  lemma FirstAddressed(plan: seq<Operation>, created: map<string, string>, rest: seq<Operation>)
    requires plan == AllAddressed(created, rest) && rest != []
    ensures plan != [] && plan[0] == Addressed(created, rest[0]) && plan[1..] == AllAddressed(created, rest[1..])
  {
  }

  lemma SameIds(created: map<string, string>, op: Operation, choice: Choice)
    ensures StepIds(Addressed(created, op), choice) == StepIds(op, choice)
  {
  }

  lemma StepTaken(d: Directory, p: Progress, rest: seq<Operation>, choice: Choice)
    requires Planned(d, p, rest) && rest != []
    requires rest[0].Create? ==> Fresh(d, p.server, choice.id)
    ensures Plan(d, p.server) != [] && PlanStepped(d, p.server, Advance(p, rest[0], choice).server, choice)
  {
    FirstAddressed(Plan(d, p.server), p.created, rest);
    PlanStep(d, p.server, choice);
  }

  /** The plan after a step, from what a step does to a plan. */
  lemma StepPlans(
    d: Directory, s: Server, s': Server, created: map<string, string>, rest: seq<Operation>, choice: Choice)
    requires rest != [] && Plan(d, s) == AllAddressed(created, rest) && Plan(d, s) != []
    requires PlanStepped(d, s, s', choice)
    ensures Plan(d, s') == AllAddressed(StepIds(rest[0], choice), AllAddressed(created, rest[1..]))
  {
    FirstAddressed(Plan(d, s), created, rest);
    SameIds(created, rest[0], choice);
  }

  lemma AdvanceRecords(d: Directory, p: Progress, rest: seq<Operation>, choice: Choice)
    requires OnTrack(d, p, rest) && rest != []
    requires rest[0].Create? ==> Fresh(d, p.server, choice.id)
    ensures CreatedIsReal(d, Advance(p, rest[0], choice))
    ensures rest[0].Create? ==>
      rest[0].externalId !in p.created && exists g :: g in d.ldap && rest[0].externalId == ExternalId(d, g)
  {
    FirstAddressed(Plan(d, p.server), p.created, rest);
    StepTaken(d, p, rest, choice);
    RecordedIsReal(d, p, rest[0], choice, Advance(p, rest[0], choice).server);
  }

  lemma AdvanceKeepsTrack(d: Directory, p: Progress, rest: seq<Operation>, choice: Choice)
    requires OnTrack(d, p, rest) && rest != []
    requires rest[0].Create? ==> Fresh(d, p.server, choice.id)
    ensures OnTrack(d, Advance(p, rest[0], choice), rest[1..])
  {
    AdvanceRecords(d, p, rest, choice);
    FirstAddressed(Plan(d, p.server), p.created, rest);
    StepTaken(d, p, rest, choice);
    StepPlans(d, p.server, Advance(p, rest[0], choice).server, p.created, rest, choice);
    AddressedTwice(d, p.created, rest[0], choice, rest[1..]);
  }

  lemma RecordedIsReal(d: Directory, p: Progress, op: Operation, choice: Choice, s': Server)
    requires DirectoryValid(d)
    requires forall e :: e in p.created ==> RealId(d, p.created[e])
    requires forall g :: g in d.ldap && ExternalId(d, g) in p.created ==> Target(d, p.server.groups, g).Some?
    requires forall h :: h in d.ldap && Target(d, p.server.groups, h).Some? ==> Target(d, s'.groups, h).Some?
    requires op.Create? ==> RealId(d, choice.id)
    requires op.Create? ==> exists g :: g in d.ldap && op.externalId == ExternalId(d, g)
                              && Target(d, p.server.groups, g).None? && Target(d, s'.groups, g).Some?
    ensures var created := Recorded(p.created, op, choice);
      && (forall e :: e in created ==> RealId(d, created[e]))
      && (forall g :: g in d.ldap && ExternalId(d, g) in created ==> Target(d, s'.groups, g).Some?)
    ensures op.Create? ==> op.externalId !in p.created && exists g :: g in d.ldap && op.externalId == ExternalId(d, g)
  {
    if op.Create? {
      var g :| g in d.ldap && op.externalId == ExternalId(d, g)
                && Target(d, p.server.groups, g).None? && Target(d, s'.groups, g).Some?;
      forall h | h in d.ldap && ExternalId(d, h) == op.externalId ensures h == g {
        if h != g {
          ExternalIdsDistinct(d, g, h);
        }
      }
    }
  }

  lemma TrackStep(d: Directory, p: Progress, ops: seq<Operation>, choices: nat -> Choice, k: nat)
    requires k < |ops| && OnTrack(d, Run(p, ops, choices, k), ops[k..]) && FreshAt(d, p, ops, choices, k)
    ensures OnTrack(d, Run(p, ops, choices, k + 1), ops[k + 1..])
  {
    AdvanceKeepsTrack(d, Run(p, ops, choices, k), ops[k..], choices(k));
    assert ops[k..][1..] == ops[k + 1..];
  }

  /** On track after each of the first `k` operations. */
  ghost predicate OnTrackThrough(d: Directory, p: Progress, ops: seq<Operation>, choices: nat -> Choice, k: nat)
    requires k <= |ops|
    decreases k
  {
    && OnTrack(d, Run(p, ops, choices, k), ops[k..])
    && (k > 0 ==> OnTrackThrough(d, p, ops, choices, k - 1))
  }

  lemma {:induction false} StaysOnTrack(d: Directory, p: Progress, ops: seq<Operation>, choices: nat -> Choice, k: nat)
    requires OnTrack(d, p, ops) && k <= |ops| && FreshRun(d, p, ops, choices, k)
    ensures OnTrackThrough(d, p, ops, choices, k)
  {
    if k == 0 {
      assert ops[0..] == ops;
    } else {
      StaysOnTrack(d, p, ops, choices, k - 1);
      assert FreshAt(d, p, ops, choices, k - 1);
      TrackStep(d, p, ops, choices, k - 1);
    }
  }

  /**
   Interrupt `apply_plan` after any k operations: the new snapshot is accepted and its plan
   is exactly the operations still to come, created groups now addressed by their real ids.
  */
  lemma Resumable(d: Directory, s: Server, choices: nat -> Choice, k: nat)
    requires Consistent(d, s) && Accepted(d, s.groups, Gathered(d, s))
    requires var ops := PlanOps(d, s.groups, Gathered(d, s));
      k <= |ops| && FreshRun(d, Progress(s, map[]), ops, choices, k)
    ensures var ops := PlanOps(d, s.groups, Gathered(d, s));
      var p := Run(Progress(s, map[]), ops, choices, k);
      && Consistent(d, p.server)
      && Accepted(d, p.server.groups, Gathered(d, p.server))
      && PlanOps(d, p.server.groups, Gathered(d, p.server)) == AllAddressed(p.created, ops[k..])
  {
    GatheredSuffices(d, s);
    var ops := Plan(d, s);
    AddressedNothing(ops);
    assert OnTrack(d, Progress(s, map[]), ops);
    StaysOnTrack(d, Progress(s, map[]), ops, choices, k);
    GatheredSuffices(d, Run(Progress(s, map[]), ops, choices, k).server);
  }

  // ----- convergence -----

  /** Exactly one group has `g`'s external id; it has `g`'s name and exactly the entitled members. */
  ghost predicate Mirrors(d: Directory, s: Server, g: LdapGroup) {
    exists i :: 0 <= i < |s.groups|
      && s.groups[i].externalId == ExternalId(d, g) && s.groups[i].name == g.name
      && MembersOf(s.members, s.groups[i].id) == Desired(d, g.pk)
      && forall j :: 0 <= j < |s.groups| && s.groups[j].externalId == ExternalId(d, g) ==> j == i
  }

  ghost predicate Converged(d: Directory, s: Server) {
    && (forall g :: g in d.ldap ==> Mirrors(d, s, g))
    && (forall x :: x in s.groups && Stale(d, s.groups, x) ==> MembersOf(s.members, x.id) == {})
  }

  lemma {:induction false} FlattenEmpty(chunks: seq<seq<Operation>>)
    requires Flatten(chunks) == []
    ensures forall j :: 0 <= j < |chunks| ==> chunks[j] == []
  {
    if chunks != [] {
      assert chunks[0] == [] && Flatten(chunks[1..]) == [];
      FlattenEmpty(chunks[1..]);
    }
  }

  lemma SectionEmpty(d: Directory, s: Server, g: LdapGroup)
    requires AcceptedServer(d, s) && g in d.ldap
    ensures Section(d, s.groups, s.members, g) == [] <==> Mirrors(d, s, g)
  {
    var target := Target(d, s.groups, g);
    assert MappingAccepted(d, s.groups, s.members, g);
    if Section(d, s.groups, s.members, g) == [] {
      var t := target.value;
      var i :| 0 <= i < |s.groups| && s.groups[i] == t;
      NoOpsMeansEqual(t.id, Desired(d, g.pk), MembersOf(s.members, t.id));
      assert s.groups[i].externalId == ExternalId(d, g);
    }
    if Mirrors(d, s, g) {
      var i :| 0 <= i < |s.groups| && s.groups[i].externalId == ExternalId(d, g) && s.groups[i].name == g.name
        && MembersOf(s.members, s.groups[i].id) == Desired(d, g.pk);
      ByExternalIdFinds(s.groups, s.groups[i]);
      NoMemberOps(s.groups[i].id, Desired(d, g.pk), MembersOf(s.members, s.groups[i].id));
    }
  }

  lemma NoOpsMeansEqual(id: string, wanted: set<string>, current: set<string>)
    requires MemberOps(id, wanted, current) == []
    ensures wanted == current
  {
  }

  /** An accepted snapshot has nothing to do exactly when Outline already mirrors LDAP. */
  lemma NothingToDoIffConverged(d: Directory, s: Server)
    requires AcceptedServer(d, s)
    ensures Plan(d, s) == [] <==> Converged(d, s)
  {
    SectionsEmpty(d, s);
    StaleEmpty(d, s);
  }

  lemma SectionsEmpty(d: Directory, s: Server)
    requires AcceptedServer(d, s)
    ensures Flatten(SectionChunks(d, s.groups, s.members, SortedGroups(d.ldap))) == []
       <==> forall g :: g in d.ldap ==> Mirrors(d, s, g)
  {
    var ldap := SortedGroups(d.ldap);
    var sections := SectionChunks(d, s.groups, s.members, ldap);
    forall g | g in d.ldap ensures Section(d, s.groups, s.members, g) == [] <==> Mirrors(d, s, g) {
      SectionEmpty(d, s, g);
    }
    if Flatten(sections) == [] {
      FlattenEmpty(sections);
      SortedGroupsIsAll(d.ldap);
      forall g | g in d.ldap ensures Mirrors(d, s, g) {
        var i :| 0 <= i < |ldap| && ldap[i] == g;
        assert sections[i] == [];
      }
    } else {
      var i := FlattenFirst(sections);
      assert ldap[i] in d.ldap;
    }
  }

  lemma StaleEmpty(d: Directory, s: Server)
    ensures Flatten(StaleChunks(d, s.groups, s.members, s.groups)) == []
       <==> forall x :: x in s.groups && Stale(d, s.groups, x) ==> MembersOf(s.members, x.id) == {}
  {
    var stale := StaleChunks(d, s.groups, s.members, s.groups);
    if Flatten(stale) == [] {
      FlattenEmpty(stale);
      forall x | x in s.groups && Stale(d, s.groups, x) ensures MembersOf(s.members, x.id) == {} {
        var i :| 0 <= i < |s.groups| && s.groups[i] == x;
        assert stale[i] == [];
        assert |Removes(x.id, Sorted(MembersOf(s.members, x.id)))| == 0;
      }
    } else {
      var i := FlattenFirst(stale);
      assert s.groups[i] in s.groups && stale[i] != [];
    }
  }

  /** A full `apply_plan` converges, and planning again gives no operation. */
  lemma FullRunConverges(d: Directory, s: Server, choices: nat -> Choice)
    requires Consistent(d, s) && Accepted(d, s.groups, Gathered(d, s))
    requires var ops := PlanOps(d, s.groups, Gathered(d, s));
      FreshRun(d, Progress(s, map[]), ops, choices, |ops|)
    ensures var ops := PlanOps(d, s.groups, Gathered(d, s));
      var s' := Run(Progress(s, map[]), ops, choices, |ops|).server;
      && Converged(d, s')
      && Accepted(d, s'.groups, Gathered(d, s')) && PlanOps(d, s'.groups, Gathered(d, s')) == []
  {
    var ops := PlanOps(d, s.groups, Gathered(d, s));
    Resumable(d, s, choices, |ops|);
    var s' := Run(Progress(s, map[]), ops, choices, |ops|).server;
    GatheredSuffices(d, s');
    NothingToDoIffConverged(d, s');
  }

  // ----- what is never touched -----

  lemma AdvanceSpares(d: Directory, p: Progress, rest: seq<Operation>, choice: Choice)
    requires OnTrack(d, p, rest) && rest != []
    requires rest[0].Create? ==> Fresh(d, p.server, choice.id)
    ensures Spared(d, p.server, Advance(p, rest[0], choice).server)
  {
    StepTaken(d, p, rest, choice);
  }

  lemma SparedAt(d: Directory, p: Progress, ops: seq<Operation>, choices: nat -> Choice, i: nat)
    requires OnTrack(d, p, ops) && i < |ops| && FreshRun(d, p, ops, choices, i + 1)
    ensures Spared(d, Run(p, ops, choices, i).server, Run(p, ops, choices, i + 1).server)
  {
    StaysOnTrack(d, p, ops, choices, i);
    assert FreshAt(d, p, ops, choices, i);
    AdvanceSpares(d, Run(p, ops, choices, i), ops[i..], choices(i));
  }

  /** `x`, mapped to by nothing, is as it was. */
  ghost predicate Kept(d: Directory, s: Server, s': Server, x: Group) {
    && x in s'.groups && !Used(d, s'.groups, x.id)
    && (!StartsWith(x.externalId, Prefix(d.sourceId)) ==> MembersOf(s'.members, x.id) == MembersOf(s.members, x.id))
  }

  lemma KeptOnce(d: Directory, s: Server, s': Server, x: Group)
    requires Spared(d, s, s') && x in s.groups && !Used(d, s.groups, x.id)
    ensures Kept(d, s, s', x)
  {
  }

  ghost predicate SparedUpTo(d: Directory, p: Progress, ops: seq<Operation>, choices: nat -> Choice, k: nat)
    requires k <= |ops|
  {
    forall i :: 0 <= i < k ==> SparedStep(d, p, ops, choices, i)
  }

  ghost predicate SparedStep(d: Directory, p: Progress, ops: seq<Operation>, choices: nat -> Choice, i: nat)
    requires i < |ops|
  {
    Spared(d, Run(p, ops, choices, i).server, Run(p, ops, choices, i + 1).server)
  }

  lemma {:induction false} RunKeeps(d: Directory, p: Progress, ops: seq<Operation>, choices: nat -> Choice, k: nat,
      x: Group)
    requires k <= |ops| && SparedUpTo(d, p, ops, choices, k)
    requires x in p.server.groups && !Used(d, p.server.groups, x.id)
    ensures Kept(d, p.server, Run(p, ops, choices, k).server, x)
  {
    if k > 0 {
      RunKeeps(d, p, ops, choices, k - 1, x);
      assert SparedStep(d, p, ops, choices, k - 1);
      KeptOnce(d, Run(p, ops, choices, k - 1).server, Run(p, ops, choices, k).server, x);
    }
  }

  lemma RunSpares(d: Directory, p: Progress, ops: seq<Operation>, choices: nat -> Choice, k: nat)
    requires OnTrack(d, p, ops) && k <= |ops| && FreshRun(d, p, ops, choices, k)
    ensures SparedUpTo(d, p, ops, choices, k)
  {
    forall i | 0 <= i < k ensures SparedStep(d, p, ops, choices, i) {
      SparedAt(d, p, ops, choices, i);
    }
  }

  /**
   After any k operations: a group no LDAP group maps to still exists as it was (stale ones are
   emptied, never deleted), and outside this source's prefix its members are as they were.
  */
  lemma UnmappedGroupsSurvive(d: Directory, s: Server, choices: nat -> Choice, k: nat, x: Group)
    requires Consistent(d, s) && Accepted(d, s.groups, Gathered(d, s))
    requires var ops := PlanOps(d, s.groups, Gathered(d, s));
      k <= |ops| && FreshRun(d, Progress(s, map[]), ops, choices, k)
    requires x in s.groups && !Used(d, s.groups, x.id)
    ensures var s' := Run(Progress(s, map[]), PlanOps(d, s.groups, Gathered(d, s)), choices, k).server;
      && x in s'.groups
      && (!StartsWith(x.externalId, Prefix(d.sourceId)) ==> MembersOf(s'.members, x.id) == MembersOf(s.members, x.id))
  {
    GatheredSuffices(d, s);
    var ops := Plan(d, s);
    AddressedNothing(ops);
    RunSpares(d, Progress(s, map[]), ops, choices, k);
    RunKeeps(d, Progress(s, map[]), ops, choices, k, x);
  }

  /** The "Multiple LDAP groups map to one Outline group" guard cannot fire on a listing with distinct ids. */
  lemma GuardNeverFires(d: Directory, groups: seq<Group>, members: Memberships)
    requires DirectoryValid(d) && GroupsValid(groups) && IdsDistinct(groups)
    requires forall g :: g in d.ldap ==> MappingAccepted(d, groups, members, g)
    ensures TargetsDistinct(d, groups)
  {
    forall g, h | g in d.ldap && h in d.ldap && g != h && Target(d, groups, g).Some? && Target(d, groups, h).Some?
      ensures Target(d, groups, g).value.id != Target(d, groups, h).value.id
    {
      ExternalIdsDistinct(d, g, h);
      assert MappingAccepted(d, groups, members, g);
      assert MappingAccepted(d, groups, members, h);
      var t, u := Target(d, groups, g).value, Target(d, groups, h).value;
      assert t != u;
    }
  }
}
