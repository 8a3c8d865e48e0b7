/**
 The Outline side of the reconciler as state: what each API call does to the
 listing and the memberships, and how little of it one LDAP group can notice of
 what is done for another.
*/
module OutlineServer {
  import opened Wrappers
  import opened StringOrder
  import opened OutlinePlan

  datatype Server = Server(groups: seq<Group>, members: Memberships)

  /** What the server decides when it creates a group: its id and its place in the listing. */
  datatype Choice = Choice(id: string, at: nat)

  function Renamed(groups: seq<Group>, id: string, name: string, externalId: string): (r: seq<Group>)
    ensures |r| == |groups|
  {
    seq(|groups|, i requires 0 <= i < |groups| =>
      if groups[i].id == id then groups[i].(name := name, externalId := externalId) else groups[i])
  }

  lemma RenamedElements(groups: seq<Group>, id: string, name: string, externalId: string, x: Group)
    requires x in Renamed(groups, id, name, externalId)
    ensures x in groups || x.id == id
    ensures exists y :: y in groups && y.id == x.id
  {
    var i :| 0 <= i < |groups| && Renamed(groups, id, name, externalId)[i] == x;
    assert groups[i] in groups && groups[i].id == x.id;
  }

  function Inserted(groups: seq<Group>, at: nat, g: Group): seq<Group> {
    var k := if at <= |groups| then at else |groups|;
    groups[..k] + [g] + groups[k..]
  }

  /** One accepted API call. */
  function Perform(s: Server, op: Operation, choice: Choice): Server {
    match op
    case Create(name, externalId) =>
      Server(Inserted(s.groups, choice.at, Group(choice.id, name, externalId, false)), s.members[choice.id := {}])
    case Update(id, name, externalId) =>
      s.(groups := Renamed(s.groups, id, name, externalId))
    case AddUser(id, userId) =>
      if id in s.members then s.(members := s.members[id := s.members[id] + {userId}]) else s
    case RemoveUser(id, userId) =>
      if id in s.members then s.(members := s.members[id := s.members[id] - {userId}]) else s
  }

  /** `body["id"] = created.get(body["id"], body["id"])` */
  function Resolve(created: map<string, string>, id: string): string {
    if id in created then created[id] else id
  }

  function Addressed(created: map<string, string>, op: Operation): Operation {
    match op
    case Create(_, _) => op
    case Update(id, name, externalId) => Update(Resolve(created, id), name, externalId)
    case AddUser(id, userId) => AddUser(Resolve(created, id), userId)
    case RemoveUser(id, userId) => RemoveUser(Resolve(created, id), userId)
  }

  function AllAddressed(created: map<string, string>, ops: seq<Operation>): (r: seq<Operation>)
    ensures |r| == |ops|
  {
    seq(|ops|, i requires 0 <= i < |ops| => Addressed(created, ops[i]))
  }

  function Recorded(created: map<string, string>, op: Operation, choice: Choice): map<string, string> {
    if op.Create? then created[op.externalId := choice.id] else created
  }

  ghost predicate IdsDistinct(groups: seq<Group>) {
    forall i, j :: 0 <= i < j < |groups| ==> groups[i].id != groups[j].id
  }

  /** A real id is never one of the external ids this tool writes. */
  ghost predicate RealId(d: Directory, id: string) {
    forall g :: g in d.ldap ==> id != ExternalId(d, g)
  }

  ghost predicate Consistent(d: Directory, s: Server) {
    && IdsDistinct(s.groups)
    && (forall g :: g in s.groups ==> g.id in s.members && RealId(d, g.id))
  }

  ghost predicate Fresh(d: Directory, s: Server, id: string) {
    RealId(d, id) && id !in s.members && forall g :: g in s.groups ==> g.id != id
  }

  ghost predicate AcceptedServer(d: Directory, s: Server) {
    Consistent(d, s) && Accepted(d, s.groups, s.members)
  }

  function Plan(d: Directory, s: Server): seq<Operation> {
    PlanOps(d, s.groups, s.members)
  }

  // ----- lookups -----

  lemma {:induction false} ByNameFinds(groups: seq<Group>, g: Group)
    requires g in groups
    requires forall i, j :: 0 <= i < j < |groups| ==> groups[i].name != groups[j].name
    ensures ByName(groups, g.name) == Some(g)
  {
  }

  lemma {:induction false} ByExternalIdFinds(groups: seq<Group>, g: Group)
    requires g in groups && g.externalId != ""
    requires forall i, j :: 0 <= i < j < |groups| && groups[i].externalId != "" ==>
      groups[i].externalId != groups[j].externalId
    ensures ByExternalId(groups, g.externalId) == Some(g)
  {
  }

  lemma ExternalIdsDistinct(d: Directory, g: LdapGroup, h: LdapGroup)
    requires DirectoryValid(d) && g in d.ldap && h in d.ldap && g != h
    ensures ExternalId(d, g) != ExternalId(d, h) && g.name != h.name && g.pk != h.pk
  {
    assert g.pk == ExternalId(d, g)[|Prefix(d.sourceId)|..];
    assert h.pk == ExternalId(d, h)[|Prefix(d.sourceId)|..];
  }

  /** Two listings look the same from every LDAP group other than `g`. */
  ghost predicate SameElsewhere(d: Directory, before: seq<Group>, after: seq<Group>, g: LdapGroup) {
    forall h :: h in d.ldap && h != g ==>
      && ByExternalId(after, ExternalId(d, h)) == ByExternalId(before, ExternalId(d, h))
      && ByName(after, h.name) == ByName(before, h.name)
  }

  /** `g` is carried by `t`: it has its external id and its name. */
  ghost predicate Carries(d: Directory, groups: seq<Group>, g: LdapGroup, t: Group) {
    ByExternalId(groups, ExternalId(d, g)) == Some(t) && ByName(groups, g.name) == Some(t)
  }

  ghost predicate NamesDistinct(groups: seq<Group>) {
    forall i, j :: 0 <= i < j < |groups| ==> groups[i].name != groups[j].name
  }

  ghost predicate ExternalIdsOwned(groups: seq<Group>) {
    forall i, j :: 0 <= i < j < |groups| && groups[i].externalId != "" ==> groups[i].externalId != groups[j].externalId
  }

  lemma SameByName(before: seq<Group>, after: seq<Group>, name: string)
    requires NamesDistinct(before) && NamesDistinct(after)
    requires forall x: Group :: x.name == name ==> (x in before <==> x in after)
    ensures ByName(after, name) == ByName(before, name)
  {
  }

  lemma SameByExternalId(before: seq<Group>, after: seq<Group>, externalId: string)
    requires ExternalIdsOwned(before) && ExternalIdsOwned(after) && externalId != ""
    requires forall x: Group :: x.externalId == externalId ==> (x in before <==> x in after)
    ensures ByExternalId(after, externalId) == ByExternalId(before, externalId)
  {
  }

  /** `after` is `before` with `gone` (if anything) replaced by `now`. */
  ghost predicate Replaces(before: seq<Group>, after: seq<Group>, gone: Option<Group>, now: Group) {
    && now in after
    && (forall x :: x in after ==> x == now || x in before)
    && (forall x :: x in before ==> gone == Some(x) || x in after)
    && (gone.Some? ==> gone.value in before)
  }

  lemma LookupsElsewhere(d: Directory, s: Server, after: seq<Group>, g: LdapGroup, now: Group)
    requires AcceptedServer(d, s) && g in d.ldap
    requires NamesDistinct(after) && ExternalIdsOwned(after)
    requires Replaces(s.groups, after, Target(d, s.groups, g), now)
    requires now.name == g.name && now.externalId == ExternalId(d, g)
    ensures SameElsewhere(d, s.groups, after, g) && Carries(d, after, g, now)
  {
    ByNameFinds(after, now);
    ByExternalIdFinds(after, now);
    forall h | h in d.ldap && h != g
      ensures ByExternalId(after, ExternalId(d, h)) == ByExternalId(s.groups, ExternalId(d, h))
      ensures ByName(after, h.name) == ByName(s.groups, h.name)
    {
      ExternalIdsDistinct(d, g, h);
      if Target(d, s.groups, g).Some? {
        LookupsAvoid(d, s, g, Target(d, s.groups, g).value, h);
      }
      SameByName(s.groups, after, h.name);
      SameByExternalId(s.groups, after, ExternalId(d, h));
    }
  }

  /** The group that carries `g` is no other LDAP group's, by external id or by name. */
  lemma LookupsAvoid(d: Directory, s: Server, g: LdapGroup, t: Group, h: LdapGroup)
    requires AcceptedServer(d, s) && g in d.ldap && h in d.ldap && g != h && Target(d, s.groups, g) == Some(t)
    ensures t.name != h.name && t.externalId != ExternalId(d, h)
  {
    ExternalIdsDistinct(d, g, h);
    assert MappingAccepted(d, s.groups, s.members, g);
    assert MappingAccepted(d, s.groups, s.members, h);
    if t.name == h.name {
      ByNameFinds(s.groups, t);
    }
  }

  /** No group but the target has the name or the external id that `g` is about to take. */
  lemma NothingInTheWay(d: Directory, s: Server, g: LdapGroup, x: Group)
    requires AcceptedServer(d, s) && g in d.ldap && x in s.groups
    requires x.name == g.name || x.externalId == ExternalId(d, g)
    ensures Target(d, s.groups, g) == Some(x)
  {
    assert MappingAccepted(d, s.groups, s.members, g);
    if x.name == g.name {
      ByNameFinds(s.groups, x);
      var owned := ByExternalId(s.groups, ExternalId(d, g));
      if owned.Some? {
        assert owned.value.id == x.id;
      }
    } else {
      ByExternalIdFinds(s.groups, x);
    }
  }

  lemma OthersOutOfTheWay(d: Directory, s: Server, g: LdapGroup, t: Group, k: nat)
    requires AcceptedServer(d, s) && g in d.ldap && Target(d, s.groups, g) == Some(t)
    requires k < |s.groups| && s.groups[k] == t
    ensures forall i :: 0 <= i < |s.groups| && i != k ==>
      s.groups[i].id != t.id && s.groups[i].name != g.name && s.groups[i].externalId != ExternalId(d, g)
  {
  }

  lemma RenamedIsValid(d: Directory, s: Server, g: LdapGroup, t: Group, k: nat)
    requires AcceptedServer(d, s) && g in d.ldap && Target(d, s.groups, g) == Some(t)
    requires k < |s.groups| && s.groups[k] == t
    ensures var after := Renamed(s.groups, t.id, g.name, ExternalId(d, g));
      && after == s.groups[k := t.(name := g.name, externalId := ExternalId(d, g))]
      && GroupsValid(after) && IdsDistinct(after)
  {
    OthersOutOfTheWay(d, s, g, t, k);
    assert Renamed(s.groups, t.id, g.name, ExternalId(d, g))
        == s.groups[k := t.(name := g.name, externalId := ExternalId(d, g))];
  }

  lemma UpdateListing(d: Directory, s: Server, g: LdapGroup, t: Group)
    requires AcceptedServer(d, s) && g in d.ldap && Target(d, s.groups, g) == Some(t)
    ensures var after := Renamed(s.groups, t.id, g.name, ExternalId(d, g));
      && GroupsValid(after) && IdsDistinct(after)
      && SameElsewhere(d, s.groups, after, g)
      && Carries(d, after, g, t.(name := g.name, externalId := ExternalId(d, g)))
  {
    var before, after := s.groups, Renamed(s.groups, t.id, g.name, ExternalId(d, g));
    var t' := t.(name := g.name, externalId := ExternalId(d, g));
    var k :| 0 <= k < |before| && before[k] == t;
    RenamedIsValid(d, s, g, t, k);
    OneReplaced(before, k, t');
    LookupsElsewhere(d, s, after, g, t');
  }

  lemma OneReplaced(before: seq<Group>, k: nat, now: Group)
    requires k < |before|
    ensures Replaces(before, before[k := now], Some(before[k]), now)
  {
    var after := before[k := now];
    assert after[k] == now;
    forall x | x in before && x != before[k] ensures x in after {
      var i :| 0 <= i < |before| && before[i] == x;
      assert after[i] == x;
    }
  }

  lemma CreateListing(d: Directory, s: Server, g: LdapGroup, choice: Choice)
    requires AcceptedServer(d, s) && g in d.ldap && Target(d, s.groups, g).None? && Fresh(d, s, choice.id)
    ensures var created := Group(choice.id, g.name, ExternalId(d, g), false);
      var after := Inserted(s.groups, choice.at, created);
      && GroupsValid(after) && IdsDistinct(after)
      && SameElsewhere(d, s.groups, after, g)
      && Carries(d, after, g, created)
  {
    var before, created := s.groups, Group(choice.id, g.name, ExternalId(d, g), false);
    var after := Inserted(before, choice.at, created);
    forall x | x in before ensures x.name != g.name && x.externalId != ExternalId(d, g) && x.id != choice.id {
      if x.name == g.name || x.externalId == ExternalId(d, g) {
        NothingInTheWay(d, s, g, x);
      }
    }
    InsertedAt(before, choice.at, created);
    InsertedValid(before, choice.at, created);
    LookupsElsewhere(d, s, after, g, created);
  }

  lemma InsertedValid(groups: seq<Group>, at: nat, g: Group)
    requires GroupsValid(groups) && IdsDistinct(groups) && g.name != ""
    requires forall x :: x in groups ==> x.name != g.name && x.externalId != g.externalId && x.id != g.id
    ensures GroupsValid(Inserted(groups, at, g)) && IdsDistinct(Inserted(groups, at, g))
  {
    InsertedAt(groups, at, g);
    var after := Inserted(groups, at, g);
    var k := if at <= |groups| then at else |groups|;
    forall i, j | 0 <= i < j < |after|
      ensures after[i].name != after[j].name && after[i].id != after[j].id
      ensures after[i].externalId != "" ==> after[i].externalId != after[j].externalId
    {
      var x := if i < k then i else i - 1;
      var y := if j < k then j else j - 1;
      if i == k {
        assert after[j] == groups[y] && groups[y] in groups;
      } else if j == k {
        assert after[i] == groups[x] && groups[x] in groups;
      } else {
        assert after[i] == groups[x] && after[j] == groups[y];
      }
    }
  }

  lemma InsertedAt(groups: seq<Group>, at: nat, g: Group)
    ensures var k, after := if at <= |groups| then at else |groups|, Inserted(groups, at, g);
      && |after| == |groups| + 1 && after[k] == g
      && (forall i :: 0 <= i < k ==> after[i] == groups[i])
      && (forall i :: k < i < |after| ==> after[i] == groups[i - 1])
      && Replaces(groups, after, None, g)
  {
  }

  // ----- what one operation leaves of the plan -----

  /** Every LDAP group but `g` sees the same groups and the same members. */
  ghost predicate OthersKept(d: Directory, s: Server, s': Server, g: Option<LdapGroup>) {
    forall h :: h in d.ldap && g != Some(h) ==>
      && Target(d, s'.groups, h) == Target(d, s.groups, h)
      && ByExternalId(s'.groups, ExternalId(d, h)) == ByExternalId(s.groups, ExternalId(d, h))
      && ByName(s'.groups, h.name) == ByName(s.groups, h.name)
      && (Target(d, s.groups, h).Some? ==>
            var id := Target(d, s.groups, h).value.id;
            id in s'.members && MembersOf(s'.members, id) == MembersOf(s.members, id))
  }

  /** `g`, if any, is still carried by the same group, or by one the server just made. */
  ghost predicate Settled(d: Directory, s: Server, s': Server, g: Option<LdapGroup>) {
    g.Some? ==>
      && g.value in d.ldap
      && Target(d, s'.groups, g.value).Some?
      && MappingAccepted(d, s'.groups, s'.members, g.value)
      && var before, after := Target(d, s.groups, g.value), Target(d, s'.groups, g.value).value.id;
      if before.Some? then after == before.value.id else after !in s.members
  }

  lemma UsedKept(d: Directory, s: Server, s': Server, g: Option<LdapGroup>, id: string)
    requires AcceptedServer(d, s) && OthersKept(d, s, s', g) && Settled(d, s, s', g)
    requires id in s.members
    ensures Used(d, s'.groups, id) <==> Used(d, s.groups, id)
  {
  }

  lemma StaleAfter(d: Directory, s: Server, s': Server, g: Option<LdapGroup>)
    requires AcceptedServer(d, s) && OthersKept(d, s, s', g) && Settled(d, s, s', g)
    requires s.members.Keys <= s'.members.Keys
    requires forall x :: x in s'.groups ==> x in s.groups || Used(d, s'.groups, x.id)
    ensures forall x :: x in s'.groups && Stale(d, s'.groups, x) ==> !x.externalGroup && x.id in s'.members
  {
  }

  lemma AcceptedAfter(d: Directory, s: Server, s': Server, g: Option<LdapGroup>)
    requires AcceptedServer(d, s) && Consistent(d, s') && GroupsValid(s'.groups)
    requires OthersKept(d, s, s', g) && Settled(d, s, s', g)
    requires s.members.Keys <= s'.members.Keys
    requires forall x :: x in s'.groups ==> x in s.groups || Used(d, s'.groups, x.id)
    ensures AcceptedServer(d, s')
  {
    forall h | h in d.ldap ensures MappingAccepted(d, s'.groups, s'.members, h) {
      assert MappingAccepted(d, s.groups, s.members, h);
    }
    forall h, k | h in d.ldap && k in d.ldap && h != k &&
                  Target(d, s'.groups, h).Some? && Target(d, s'.groups, k).Some?
      ensures Target(d, s'.groups, h).value.id != Target(d, s'.groups, k).value.id
    {
      assert MappingAccepted(d, s.groups, s.members, h);
      assert MappingAccepted(d, s.groups, s.members, k);
    }
    StaleAfter(d, s, s', g);
  }

  lemma SectionKept(d: Directory, s: Server, s': Server, g: Option<LdapGroup>, h: LdapGroup, ids: map<string, string>)
    requires AcceptedServer(d, s) && OthersKept(d, s, s', g) && h in d.ldap && g != Some(h)
    requires forall id :: id in ids ==>
      id != ExternalId(d, h) && g.Some? && id == ExternalId(d, g.value) && g.value in d.ldap
    ensures Section(d, s'.groups, s'.members, h) == AllAddressed(ids, Section(d, s.groups, s.members, h))
  {
    var ops := Section(d, s.groups, s.members, h);
    assert Section(d, s'.groups, s'.members, h) == ops;
    var target := Target(d, s.groups, h);
    var id := if target.Some? then target.value.id else ExternalId(d, h);
    assert id !in ids by {
      if target.Some? {
        assert target.value in s.groups;
      }
    }
    var wanted := Desired(d, h.pk);
    var current := if target.Some? then MembersOf(s.members, id) else {};
    assert ops == HeadOps(d, h, target) + MemberOps(id, wanted, current);
    AddressedMemberOps(ids, id, wanted, current);
    assert AllAddressed(ids, HeadOps(d, h, target)) == HeadOps(d, h, target);
    AddressedConcat(ids, HeadOps(d, h, target), MemberOps(id, wanted, current));
  }

  lemma AddressedConcat(ids: map<string, string>, a: seq<Operation>, b: seq<Operation>)
    ensures AllAddressed(ids, a + b) == AllAddressed(ids, a) + AllAddressed(ids, b)
  {
  }

  lemma AddressedMemberOps(ids: map<string, string>, id: string, wanted: set<string>, current: set<string>)
    ensures AllAddressed(ids, MemberOps(id, wanted, current)) == MemberOps(Resolve(ids, id), wanted, current)
  {
  }

  lemma AddsFirst(id: string, users: set<string>)
    requires users != {}
    ensures Adds(id, Sorted(users)) == [AddUser(id, Least(users))] + Adds(id, Sorted(users - {Least(users)}))
  {
    SortedFirst(users);
    AddsCons(id, Least(users), Sorted(users - {Least(users)}));
  }

  lemma AddsCons(id: string, u: string, rest: seq<string>)
    ensures Adds(id, [u] + rest) == [AddUser(id, u)] + Adds(id, rest)
    ensures Removes(id, [u] + rest) == [RemoveUser(id, u)] + Removes(id, rest)
  {
  }

  lemma RemovesFirst(id: string, users: set<string>)
    requires users != {}
    ensures Removes(id, Sorted(users)) == [RemoveUser(id, Least(users))] + Removes(id, Sorted(users - {Least(users)}))
  {
    SortedFirst(users);
    AddsCons(id, Least(users), Sorted(users - {Least(users)}));
  }

  /** The membership an operation of `MemberOps` leaves. */
  function MembersAfter(op: Operation, current: set<string>): set<string> {
    match op
    case AddUser(_, u) => current + {u}
    case RemoveUser(_, u) => current - {u}
    case _ => current
  }

  lemma AddStep(id: string, wanted: set<string>, current: set<string>)
    requires wanted - current != {}
    ensures var u := Least(wanted - current);
      MemberOps(id, wanted, current) == [AddUser(id, u)] + MemberOps(id, wanted, current + {u})
  {
    var missing, extra := wanted - current, current - wanted;
    var u := Least(missing);
    AddsFirst(id, missing);
    assert wanted - (current + {u}) == missing - {u};
    assert (current + {u}) - wanted == extra;
    Associate([AddUser(id, u)], Adds(id, Sorted(missing - {u})), Removes(id, Sorted(extra)));
  }

  lemma Associate(a: seq<Operation>, b: seq<Operation>, c: seq<Operation>)
    ensures (a + b) + c == a + (b + c)
  {
  }

  lemma RemoveStep(id: string, wanted: set<string>, current: set<string>)
    requires wanted <= current && current - wanted != {}
    ensures var u := Least(current - wanted);
      MemberOps(id, wanted, current) == [RemoveUser(id, u)] + MemberOps(id, wanted, current - {u})
  {
    var extra := current - wanted;
    var u := Least(extra);
    RemovesFirst(id, extra);
    assert (current - {u}) - wanted == extra - {u};
    assert wanted - current == {} && wanted - (current - {u}) == {};
    OnlyRemoves(id, wanted, current);
    OnlyRemoves(id, wanted, current - {u});
  }

  lemma OnlyRemoves(id: string, wanted: set<string>, current: set<string>)
    requires wanted - current == {}
    ensures MemberOps(id, wanted, current) == Removes(id, Sorted(current - wanted))
  {
    assert Adds(id, Sorted({})) == [];
  }

  /** The first membership operation, once done, is exactly what drops out of the list. */
  lemma MemberStep(id: string, wanted: set<string>, current: set<string>)
    requires MemberOps(id, wanted, current) != []
    ensures var ops := MemberOps(id, wanted, current);
      && (ops[0].AddUser? || ops[0].RemoveUser?) && ops[0].id == id
      && MemberOps(id, wanted, MembersAfter(ops[0], current)) == ops[1..]
  {
    if wanted == current {
      NoMemberOps(id, wanted, current);
    } else if wanted - current != {} {
      AddStep(id, wanted, current);
    } else {
      RemoveStep(id, wanted, current);
    }
  }

  lemma NoMemberOps(id: string, wanted: set<string>, current: set<string>)
    requires wanted == current
    ensures MemberOps(id, wanted, current) == []
  {
    assert wanted - current == {} && current - wanted == {};
  }
}
