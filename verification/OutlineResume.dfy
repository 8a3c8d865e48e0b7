/**
 An Outline plan can be interrupted anywhere: replanning from the server that the
 first k operations left gives exactly the operations that were still to come.
*/
module OutlineResume {
  import opened Wrappers
  import opened StringOrder
  import opened OutlinePlan
  import opened OutlineServer

  // ----- chunks -----

  lemma {:induction false} FlattenFirst(chunks: seq<seq<Operation>>) returns (i: nat)
    requires Flatten(chunks) != []
    ensures i < |chunks| && chunks[i] != [] && Flatten(chunks)[0] == chunks[i][0]
    ensures forall j :: 0 <= j < i ==> chunks[j] == []
  {
    if chunks[0] != [] {
      i := 0;
    } else {
      assert Flatten(chunks) == Flatten(chunks[1..]);
      var k := FlattenFirst(chunks[1..]);
      i := k + 1;
    }
  }

  lemma {:induction false} FlattenMap(chunks: seq<seq<Operation>>, chunks': seq<seq<Operation>>,
      ids: map<string, string>)
    requires |chunks'| == |chunks|
    requires forall j :: 0 <= j < |chunks| ==> chunks'[j] == AllAddressed(ids, chunks[j])
    ensures Flatten(chunks') == AllAddressed(ids, Flatten(chunks))
  {
    if chunks != [] {
      FlattenMap(chunks[1..], chunks'[1..], ids);
      AddressedConcat(ids, chunks[0], Flatten(chunks[1..]));
    }
  }

  /** Dropping the first operation of the first non-empty chunk drops it from the whole. */
  lemma {:induction false} FlattenStep(chunks: seq<seq<Operation>>, chunks': seq<seq<Operation>>, i: nat,
      ids: map<string, string>)
    requires |chunks'| == |chunks| && i < |chunks| && chunks[i] != []
    requires forall j :: 0 <= j < i ==> chunks[j] == []
    requires forall j :: 0 <= j < |chunks| && j != i ==> chunks'[j] == AllAddressed(ids, chunks[j])
    requires chunks'[i] == AllAddressed(ids, chunks[i][1..])
    ensures Flatten(chunks) != [] && Flatten(chunks') == AllAddressed(ids, Flatten(chunks)[1..])
  {
    if i == 0 {
      FlattenMap(chunks[1..], chunks'[1..], ids);
      assert Flatten(chunks)[1..] == chunks[0][1..] + Flatten(chunks[1..]);
      AddressedConcat(ids, chunks[0][1..], Flatten(chunks[1..]));
    } else {
      FlattenStep(chunks[1..], chunks'[1..], i - 1, ids);
      assert chunks'[0] == [];
      assert Flatten(chunks) == Flatten(chunks[1..]);
      assert Flatten(chunks') == Flatten(chunks'[1..]);
    }
  }

  lemma {:induction false} FlattenConcat(a: seq<seq<Operation>>, b: seq<seq<Operation>>)
    ensures Flatten(a + b) == Flatten(a) + Flatten(b)
  {
    if a == [] {
      assert a + b == b;
    } else {
      FlattenConcat(a[1..], b);
      assert (a + b)[0] == a[0] && (a + b)[1..] == a[1..] + b;
      Associate(a[0], Flatten(a[1..]), Flatten(b));
    }
  }

  lemma {:induction false} FlattenNothing(chunks: seq<seq<Operation>>)
    requires forall j :: 0 <= j < |chunks| ==> chunks[j] == []
    ensures Flatten(chunks) == []
  {
    if chunks != [] {
      FlattenNothing(chunks[1..]);
    }
  }

  // ----- one operation of an LDAP group's section -----

  ghost predicate SectionStepped(d: Directory, s: Server, s': Server, g: LdapGroup, ids: map<string, string>) {
    && OthersKept(d, s, s', Some(g)) && Settled(d, s, s', Some(g))
    && AcceptedServer(d, s')
    && s.members.Keys <= s'.members.Keys
    && Section(d, s.groups, s.members, g) != []
    && Section(d, s'.groups, s'.members, g) == AllAddressed(ids, Section(d, s.groups, s.members, g)[1..])
  }

  lemma UpdateStep(d: Directory, s: Server, g: LdapGroup, t: Group, choice: Choice)
    requires AcceptedServer(d, s) && g in d.ldap && Target(d, s.groups, g) == Some(t)
    requires HeadOps(d, g, Some(t)) != []
    ensures var s' := Perform(s, Section(d, s.groups, s.members, g)[0], choice);
      SectionStepped(d, s, s', g, map[])
  {
    var s' := Perform(s, Section(d, s.groups, s.members, g)[0], choice);
    var t' := t.(name := g.name, externalId := ExternalId(d, g));
    UpdateListing(d, s, g, t);
    assert MappingAccepted(d, s.groups, s.members, g);
    assert s'.groups == Renamed(s.groups, t.id, g.name, ExternalId(d, g));
    assert Target(d, s'.groups, g) == Some(t');
    assert MappingAccepted(d, s'.groups, s'.members, g);
    OthersKeptIfListing(d, s, s', g);
    assert Used(d, s'.groups, t.id);
    forall x | x in s'.groups
      ensures x.id in s'.members && RealId(d, x.id) && (x in s.groups || x.id == t.id)
    {
      RenamedElements(s.groups, t.id, g.name, ExternalId(d, g), x);
    }
    AcceptedAfter(d, s, s', Some(g));
    assert HeadOps(d, g, Some(t')) == [];
    AddressedNothing(Section(d, s.groups, s.members, g)[1..]);
  }

  lemma OthersKeptIfListing(d: Directory, s: Server, s': Server, g: LdapGroup)
    requires AcceptedServer(d, s) && SameElsewhere(d, s.groups, s'.groups, g)
    requires forall id :: id in s.members ==> id in s'.members && s'.members[id] == s.members[id]
    ensures OthersKept(d, s, s', Some(g))
  {
  }

  lemma AddressedNothing(ops: seq<Operation>)
    ensures AllAddressed(map[], ops) == ops
  {
  }

  lemma CreateStep(d: Directory, s: Server, g: LdapGroup, choice: Choice)
    requires AcceptedServer(d, s) && g in d.ldap && Target(d, s.groups, g).None? && Fresh(d, s, choice.id)
    ensures var s' := Perform(s, Section(d, s.groups, s.members, g)[0], choice);
      SectionStepped(d, s, s', g, map[ExternalId(d, g) := choice.id])
  {
    var op := Section(d, s.groups, s.members, g)[0];
    var s' := Perform(s, op, choice);
    var created := Group(choice.id, g.name, ExternalId(d, g), false);
    CreateListing(d, s, g, choice);
    InsertedAt(s.groups, choice.at, created);
    assert s'.groups == Inserted(s.groups, choice.at, created);
    assert Target(d, s'.groups, g) == Some(created);
    assert MappingAccepted(d, s'.groups, s'.members, g);
    OthersKeptIfListing(d, s, s', g);
    assert Used(d, s'.groups, choice.id);
    assert Consistent(d, s');
    AcceptedAfter(d, s, s', Some(g));
    var ids := map[ExternalId(d, g) := choice.id];
    var wanted := Desired(d, g.pk);
    assert HeadOps(d, g, Some(created)) == [];
    assert Section(d, s.groups, s.members, g)[1..] == MemberOps(ExternalId(d, g), wanted, {});
    AddressedMemberOps(ids, ExternalId(d, g), wanted, {});
  }

  lemma MemberPerform(s: Server, op: Operation, choice: Choice)
    requires op.AddUser? || op.RemoveUser?
    requires op.id in s.members
    ensures Perform(s, op, choice) == s.(members := s.members[op.id := MembersAfter(op, s.members[op.id])])
  {
  }

  /** Changing the members of the group that carries `g` changes nothing for the others. */
  lemma MemberChange(d: Directory, s: Server, s': Server, g: LdapGroup, t: Group, now: set<string>)
    requires AcceptedServer(d, s) && g in d.ldap && Target(d, s.groups, g) == Some(t)
    requires s' == s.(members := s.members[t.id := now])
    ensures OthersKept(d, s, s', Some(g)) && Settled(d, s, s', Some(g))
    ensures AcceptedServer(d, s') && s.members.Keys <= s'.members.Keys
  {
  }

  lemma SectionMemberStep(d: Directory, s: Server, g: LdapGroup, t: Group, choice: Choice)
    requires AcceptedServer(d, s) && g in d.ldap && Target(d, s.groups, g) == Some(t)
    requires HeadOps(d, g, Some(t)) == [] && Section(d, s.groups, s.members, g) != []
    ensures var s' := Perform(s, Section(d, s.groups, s.members, g)[0], choice);
      SectionStepped(d, s, s', g, map[])
  {
    var ops := Section(d, s.groups, s.members, g);
    var s' := Perform(s, ops[0], choice);
    assert MappingAccepted(d, s.groups, s.members, g);
    var wanted, current := Desired(d, g.pk), s.members[t.id];
    assert ops == MemberOps(t.id, wanted, current);
    MemberStep(t.id, wanted, current);
    MemberPerform(s, ops[0], choice);
    MemberChange(d, s, s', g, t, MembersAfter(ops[0], current));
    AddressedNothing(ops[1..]);
  }

  function StepIds(op: Operation, choice: Choice): map<string, string> {
    Recorded(map[], op, choice)
  }

  lemma SectionStep(d: Directory, s: Server, g: LdapGroup, choice: Choice)
    requires AcceptedServer(d, s) && g in d.ldap && Section(d, s.groups, s.members, g) != []
    requires Section(d, s.groups, s.members, g)[0].Create? ==> Fresh(d, s, choice.id)
    ensures var op := Section(d, s.groups, s.members, g)[0];
      && SectionStepped(d, s, Perform(s, op, choice), g, StepIds(op, choice))
      && (op.Create? ==> op.externalId == ExternalId(d, g))
  {
    var target := Target(d, s.groups, g);
    var ops := Section(d, s.groups, s.members, g);
    if target.None? {
      CreateStep(d, s, g, choice);
    } else if HeadOps(d, g, target) != [] {
      UpdateStep(d, s, g, target.value, choice);
    } else {
      SectionMemberStep(d, s, g, target.value, choice);
      MemberStep(target.value.id, Desired(d, g.pk), MembersOf(s.members, target.value.id));
    }
  }

  // ----- what a section's operation leaves of the stale groups' operations -----

  lemma StaleChunkKept(d: Directory, s: Server, s': Server, g: Option<LdapGroup>, x: Group, x': Group,
      ids: map<string, string>)
    requires AcceptedServer(d, s) && OthersKept(d, s, s', g) && Settled(d, s, s', g)
    requires x in s.groups && x'.id == x.id && x.id !in ids
    requires Used(d, s.groups, x.id) || (x' == x && MembersOf(s'.members, x.id) == MembersOf(s.members, x.id))
    ensures StaleChunk(d, s'.groups, s'.members, x') == AllAddressed(ids, StaleChunk(d, s.groups, s.members, x))
  {
    UsedKept(d, s, s', g, x.id);
  }

  lemma StaleAfterSection(d: Directory, s: Server, g: LdapGroup, choice: Choice)
    requires AcceptedServer(d, s) && g in d.ldap && Section(d, s.groups, s.members, g) != []
    requires Section(d, s.groups, s.members, g)[0].Create? ==> Fresh(d, s, choice.id)
    ensures var op := Section(d, s.groups, s.members, g)[0];
      var s' := Perform(s, op, choice);
      Flatten(StaleChunks(d, s'.groups, s'.members, s'.groups))
      == AllAddressed(StepIds(op, choice), Flatten(StaleChunks(d, s.groups, s.members, s.groups)))
  {
    SectionStep(d, s, g, choice);
    if Target(d, s.groups, g).None? {
      StaleAfterCreate(d, s, g, choice);
    } else {
      StaleAfterOther(d, s, g, choice);
    }
  }

  /** An operation on an existing group changes that group and nothing else. */
  lemma PerformAt(s: Server, op: Operation, choice: Choice)
    requires !op.Create?
    ensures var s' := Perform(s, op, choice);
      && |s'.groups| == |s.groups|
      && (forall i :: 0 <= i < |s.groups| ==> s'.groups[i].id == s.groups[i].id)
      && (forall i :: 0 <= i < |s.groups| && s.groups[i].id != op.id ==> s'.groups[i] == s.groups[i])
      && (forall id :: id != op.id ==> MembersOf(s'.members, id) == MembersOf(s.members, id))
  {
  }

  lemma StaleAfterOther(d: Directory, s: Server, g: LdapGroup, choice: Choice)
    requires AcceptedServer(d, s) && g in d.ldap && Section(d, s.groups, s.members, g) != []
    requires Target(d, s.groups, g).Some?
    ensures var op := Section(d, s.groups, s.members, g)[0];
      var s' := Perform(s, op, choice);
      Flatten(StaleChunks(d, s'.groups, s'.members, s'.groups))
      == AllAddressed(StepIds(op, choice), Flatten(StaleChunks(d, s.groups, s.members, s.groups)))
  {
    var op := Section(d, s.groups, s.members, g)[0];
    var s' := Perform(s, op, choice);
    var t := Target(d, s.groups, g).value;
    SectionOpIds(d, s, g, t);
    SectionStep(d, s, g, choice);
    PerformAt(s, op, choice);
    assert Used(d, s.groups, t.id);
    forall i | 0 <= i < |s.groups|
      ensures StaleChunk(d, s'.groups, s'.members, s'.groups[i])
           == AllAddressed(StepIds(op, choice), StaleChunk(d, s.groups, s.members, s.groups[i]))
    {
      StaleChunkKept(d, s, s', Some(g), s.groups[i], s'.groups[i], StepIds(op, choice));
    }
    FlattenMap(StaleChunks(d, s.groups, s.members, s.groups), StaleChunks(d, s'.groups, s'.members, s'.groups),
      StepIds(op, choice));
  }

  lemma SectionOpIds(d: Directory, s: Server, g: LdapGroup, t: Group)
    requires AcceptedServer(d, s) && g in d.ldap && Section(d, s.groups, s.members, g) != []
    requires Target(d, s.groups, g) == Some(t)
    ensures var op := Section(d, s.groups, s.members, g)[0];
      !op.Create? && op.id == t.id && t.id in s.members
  {
  }

  lemma StaleChunkAfterCreate(d: Directory, s: Server, g: LdapGroup, choice: Choice, x: Group)
    requires AcceptedServer(d, s) && g in d.ldap && Target(d, s.groups, g).None? && Fresh(d, s, choice.id)
    requires x in s.groups
    ensures var op := Create(g.name, ExternalId(d, g));
      var s' := Perform(s, op, choice);
      StaleChunk(d, s'.groups, s'.members, x)
        == AllAddressed(StepIds(op, choice), StaleChunk(d, s.groups, s.members, x))
  {
    CreateStep(d, s, g, choice);
    var op := Section(d, s.groups, s.members, g)[0];
    StaleChunkKept(d, s, Perform(s, op, choice), Some(g), x, x, StepIds(op, choice));
  }

  lemma CreatedIsNotStale(d: Directory, s: Server, g: LdapGroup, choice: Choice)
    requires AcceptedServer(d, s) && g in d.ldap && Target(d, s.groups, g).None? && Fresh(d, s, choice.id)
    ensures var s' := Perform(s, Create(g.name, ExternalId(d, g)), choice);
      StaleChunk(d, s'.groups, s'.members, Group(choice.id, g.name, ExternalId(d, g), false)) == []
  {
  }

  lemma StaleAfterCreate(d: Directory, s: Server, g: LdapGroup, choice: Choice)
    requires AcceptedServer(d, s) && g in d.ldap && Target(d, s.groups, g).None? && Fresh(d, s, choice.id)
    ensures var op := Create(g.name, ExternalId(d, g));
      var s' := Perform(s, op, choice);
      Flatten(StaleChunks(d, s'.groups, s'.members, s'.groups))
      == AllAddressed(StepIds(op, choice), Flatten(StaleChunks(d, s.groups, s.members, s.groups)))
  {
    var op := Create(g.name, ExternalId(d, g));
    var ids, s' := StepIds(op, choice), Perform(s, op, choice);
    var created := Group(choice.id, g.name, ExternalId(d, g), false);
    var k := if choice.at <= |s.groups| then choice.at else |s.groups|;
    InsertedAt(s.groups, choice.at, created);
    var chunks, chunks' := StaleChunks(d, s.groups, s.members, s.groups),
      StaleChunks(d, s'.groups, s'.members, s'.groups);
    assert chunks'[k] == [] by {
      CreatedIsNotStale(d, s, g, choice);
    }
    forall i | 0 <= i < |s.groups|
      ensures StaleChunk(d, s'.groups, s'.members, s.groups[i]) == AllAddressed(ids, chunks[i])
    {
      StaleChunkAfterCreate(d, s, g, choice, s.groups[i]);
    }
    FlattenSkipMap(chunks, chunks', k, ids);
  }

  lemma FlattenSkipMap(chunks: seq<seq<Operation>>, chunks': seq<seq<Operation>>, k: nat, ids: map<string, string>)
    requires k < |chunks'| == |chunks| + 1 && chunks'[k] == []
    requires forall i :: 0 <= i < k ==> chunks'[i] == AllAddressed(ids, chunks[i])
    requires forall i :: k < i < |chunks'| ==> chunks'[i] == AllAddressed(ids, chunks[i - 1])
    ensures Flatten(chunks') == AllAddressed(ids, Flatten(chunks))
  {
    FlattenSkip(chunks', k);
    FlattenMap(chunks, chunks'[..k] + chunks'[k + 1..], ids);
  }

  lemma FlattenSkip(chunks: seq<seq<Operation>>, k: nat)
    requires k < |chunks| && chunks[k] == []
    ensures Flatten(chunks) == Flatten(chunks[..k] + chunks[k + 1..])
  {
    var tail := chunks[k..];
    assert chunks == chunks[..k] + tail && tail[1..] == chunks[k + 1..];
    FlattenConcat(chunks[..k], tail);
    FlattenConcat(chunks[..k], chunks[k + 1..]);
    assert Flatten(tail) == Flatten(tail[1..]);
  }

  // ----- one operation that empties a stale group -----

  lemma StaleStep(d: Directory, s: Server, i: nat, choice: Choice)
    requires AcceptedServer(d, s) && i < |s.groups|
    requires StaleChunk(d, s.groups, s.members, s.groups[i]) != []
    ensures var op := StaleChunk(d, s.groups, s.members, s.groups[i])[0];
      var s' := Perform(s, op, choice);
      && op.RemoveUser?
      && AcceptedServer(d, s') && OthersKept(d, s, s', None) && s'.groups == s.groups
      && (forall j :: 0 <= j < |s.groups| && j != i ==>
            StaleChunk(d, s'.groups, s'.members, s.groups[j]) == StaleChunk(d, s.groups, s.members, s.groups[j]))
      && StaleChunk(d, s'.groups, s'.members, s.groups[i]) == StaleChunk(d, s.groups, s.members, s.groups[i])[1..]
  {
    var x := s.groups[i];
    var members := s.members[x.id];
    if members != {} {
      RemovesFirst(x.id, members);
      var op := RemoveUser(x.id, Least(members));
      assert StaleChunk(d, s.groups, s.members, x)[0] == op;
      var s' := Perform(s, op, choice);
      MemberPerform(s, op, choice);
      forall h | h in d.ldap && Target(d, s.groups, h).Some?
        ensures Target(d, s.groups, h).value.id != x.id && Target(d, s.groups, h).value.id in s.members
      {
        assert MappingAccepted(d, s.groups, s.members, h);
        assert !Used(d, s.groups, x.id);
      }
      AcceptedAfter(d, s, s', None);
    }
  }

  // ----- one operation of the plan -----

  ghost predicate PlanStepped(d: Directory, s: Server, s': Server, choice: Choice)
    requires Plan(d, s) != []
  {
    var op := Plan(d, s)[0];
    && AcceptedServer(d, s')
    && Plan(d, s') == AllAddressed(StepIds(op, choice), Plan(d, s)[1..])
    && (forall h :: h in d.ldap && Target(d, s.groups, h).Some? ==> Target(d, s'.groups, h).Some?)
    && (op.Create? ==> exists g :: g in d.ldap && op.externalId == ExternalId(d, g)
                         && Target(d, s.groups, g).None? && Target(d, s'.groups, g).Some?)
    && Spared(d, s, s')
  }

  /** Groups nothing maps to keep their record; outside this source's prefix, their members too. */
  ghost predicate Spared(d: Directory, s: Server, s': Server) {
    forall x :: x in s.groups && !Used(d, s.groups, x.id) ==>
      && x in s'.groups && !Used(d, s'.groups, x.id)
      && (!Stale(d, s.groups, x) ==> MembersOf(s'.members, x.id) == MembersOf(s.members, x.id))
  }

  /** The first operation, done by the server, is exactly what drops out of the plan. */
  lemma PlanStep(d: Directory, s: Server, choice: Choice)
    requires AcceptedServer(d, s) && Plan(d, s) != []
    requires Plan(d, s)[0].Create? ==> Fresh(d, s, choice.id)
    ensures PlanStepped(d, s, Perform(s, Plan(d, s)[0], choice), choice)
  {
    var ldap := SortedGroups(d.ldap);
    SortedGroupsIsAll(d.ldap);
    var sections := SectionChunks(d, s.groups, s.members, ldap);
    if Flatten(sections) != [] {
      PlanStepInSection(d, s, choice);
    } else {
      PlanStepInStale(d, s, choice);
    }
  }

  lemma SectionsStep(d: Directory, s: Server, choice: Choice) returns (g: LdapGroup)
    requires AcceptedServer(d, s)
    requires Flatten(SectionChunks(d, s.groups, s.members, SortedGroups(d.ldap))) != []
    requires Plan(d, s)[0].Create? ==> Fresh(d, s, choice.id)
    ensures var op := Plan(d, s)[0];
      var s' := Perform(s, op, choice);
      && g in d.ldap && Section(d, s.groups, s.members, g) != [] && Section(d, s.groups, s.members, g)[0] == op
      && SectionStepped(d, s, s', g, StepIds(op, choice))
      && (op.Create? ==> op.externalId == ExternalId(d, g))
      && Flatten(SectionChunks(d, s'.groups, s'.members, SortedGroups(d.ldap)))
         == AllAddressed(StepIds(op, choice), Flatten(SectionChunks(d, s.groups, s.members, SortedGroups(d.ldap)))[1..])
  {
    var ldap := SortedGroups(d.ldap);
    SortedGroupsIsAll(d.ldap);
    var sections := SectionChunks(d, s.groups, s.members, ldap);
    var i := FlattenFirst(sections);
    g := ldap[i];
    var op := sections[i][0];
    assert Plan(d, s)[0] == op;
    var s', ids := Perform(s, op, choice), StepIds(op, choice);
    SectionStep(d, s, g, choice);
    var sections' := SectionChunks(d, s'.groups, s'.members, ldap);
    forall j | 0 <= j < |ldap| && j != i ensures sections'[j] == AllAddressed(ids, sections[j]) {
      OtherSection(d, s, s', g, ldap[j], op, choice);
    }
    FlattenStep(sections, sections', i, ids);
  }

  lemma OtherSection(d: Directory, s: Server, s': Server, g: LdapGroup, h: LdapGroup, op: Operation, choice: Choice)
    requires AcceptedServer(d, s) && OthersKept(d, s, s', Some(g)) && g in d.ldap && h in d.ldap && g != h
    requires op.Create? ==> op.externalId == ExternalId(d, g)
    ensures Section(d, s'.groups, s'.members, h)
         == AllAddressed(StepIds(op, choice), Section(d, s.groups, s.members, h))
  {
    ExternalIdsDistinct(d, g, h);
    SectionKept(d, s, s', Some(g), h, StepIds(op, choice));
  }

  lemma PlanStepInSection(d: Directory, s: Server, choice: Choice)
    requires AcceptedServer(d, s)
    requires Flatten(SectionChunks(d, s.groups, s.members, SortedGroups(d.ldap))) != []
    requires Plan(d, s)[0].Create? ==> Fresh(d, s, choice.id)
    ensures PlanStepped(d, s, Perform(s, Plan(d, s)[0], choice), choice)
  {
    var g := SectionsStep(d, s, choice);
    var op := Plan(d, s)[0];
    var ids := StepIds(op, choice);
    StaleAfterSection(d, s, g, choice);
    PlanTail(ids, Flatten(SectionChunks(d, s.groups, s.members, SortedGroups(d.ldap))),
      Flatten(StaleChunks(d, s.groups, s.members, s.groups)));
    TargetsPersist(d, s, Perform(s, op, choice), g);
    SparedInSection(d, s, g, choice);
    if op.Create? && Target(d, s.groups, g).Some? {
      SectionOpIds(d, s, g, Target(d, s.groups, g).value);
    }
  }

  lemma SparedInSection(d: Directory, s: Server, g: LdapGroup, choice: Choice)
    requires AcceptedServer(d, s) && g in d.ldap && Section(d, s.groups, s.members, g) != []
    requires Section(d, s.groups, s.members, g)[0].Create? ==> Fresh(d, s, choice.id)
    ensures Spared(d, s, Perform(s, Section(d, s.groups, s.members, g)[0], choice))
  {
    var op := Section(d, s.groups, s.members, g)[0];
    var s' := Perform(s, op, choice);
    SectionStep(d, s, g, choice);
    if Target(d, s.groups, g).Some? {
      SectionOpIds(d, s, g, Target(d, s.groups, g).value);
    }
    forall x | x in s.groups && !Used(d, s.groups, x.id)
      ensures x in s'.groups && !Used(d, s'.groups, x.id) && MembersOf(s'.members, x.id) == MembersOf(s.members, x.id)
    {
      UsedKept(d, s, s', Some(g), x.id);
      PerformElsewhere(s, op, choice, x);
    }
  }

  lemma PerformElsewhere(s: Server, op: Operation, choice: Choice, x: Group)
    requires x in s.groups
    requires if op.Create? then choice.id != x.id else op.id != x.id
    ensures var s' := Perform(s, op, choice);
      x in s'.groups && MembersOf(s'.members, x.id) == MembersOf(s.members, x.id)
  {
    if op.Create? {
      InsertedAt(s.groups, choice.at, Group(choice.id, op.name, op.externalId, false));
    } else {
      PerformAt(s, op, choice);
      var i :| 0 <= i < |s.groups| && s.groups[i] == x;
      assert Perform(s, op, choice).groups[i] == x;
    }
  }

  lemma PlanTail(ids: map<string, string>, a: seq<Operation>, b: seq<Operation>)
    requires a != []
    ensures AllAddressed(ids, (a + b)[1..]) == AllAddressed(ids, a[1..]) + AllAddressed(ids, b)
  {
    assert (a + b)[1..] == a[1..] + b;
  }

  lemma TargetsPersist(d: Directory, s: Server, s': Server, g: LdapGroup)
    requires OthersKept(d, s, s', Some(g)) && Settled(d, s, s', Some(g))
    ensures forall h :: h in d.ldap && Target(d, s.groups, h).Some? ==> Target(d, s'.groups, h).Some?
    ensures Target(d, s'.groups, g).Some?
  {
  }

  lemma StaleSpares(d: Directory, s: Server, i: nat, choice: Choice)
    requires AcceptedServer(d, s) && i < |s.groups|
    requires StaleChunk(d, s.groups, s.members, s.groups[i]) != []
    ensures Spared(d, s, Perform(s, StaleChunk(d, s.groups, s.members, s.groups[i])[0], choice))
  {
    var op := StaleChunk(d, s.groups, s.members, s.groups[i])[0];
    var s' := Perform(s, op, choice);
    StaleStep(d, s, i, choice);
    PerformAt(s, op, choice);
    forall x | x in s.groups && !Used(d, s.groups, x.id)
      ensures !Used(d, s'.groups, x.id)
      ensures !Stale(d, s.groups, x) ==> MembersOf(s'.members, x.id) == MembersOf(s.members, x.id)
    {
      UsedKept(d, s, s', None, x.id);
    }
  }

  lemma PlanStepInStale(d: Directory, s: Server, choice: Choice)
    requires AcceptedServer(d, s) && Plan(d, s) != []
    requires Flatten(SectionChunks(d, s.groups, s.members, SortedGroups(d.ldap))) == []
    ensures PlanStepped(d, s, Perform(s, Plan(d, s)[0], choice), choice)
  {
    var ldap := SortedGroups(d.ldap);
    var sections := SectionChunks(d, s.groups, s.members, ldap);
    var stale := StaleChunks(d, s.groups, s.members, s.groups);
    assert Plan(d, s) == Flatten(stale);
    var i := FlattenFirst(stale);
    var op := stale[i][0];
    var s' := Perform(s, op, choice);
    StaleSpares(d, s, i, choice);
    StaleStep(d, s, i, choice);
    var sections' := SectionChunks(d, s'.groups, s'.members, ldap);
    forall j | 0 <= j < |ldap| ensures sections'[j] == AllAddressed(map[], sections[j]) {
      SectionKept(d, s, s', None, ldap[j], map[]);
    }
    FlattenMap(sections, sections', map[]);
    var stale' := StaleChunks(d, s'.groups, s'.members, s'.groups);
    forall j | 0 <= j < |stale| && j != i ensures stale'[j] == AllAddressed(map[], stale[j]) {
      AddressedNothing(stale[j]);
    }
    AddressedNothing(stale[i][1..]);
    FlattenStep(stale, stale', i, map[]);
  }
}
