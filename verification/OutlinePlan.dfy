/**
 The Outline group reconciler (nix/docker-compose/outline-group-sync/sync.py):
 the snapshot it plans from, what an accepted snapshot is, and the operations
 planned for it. `plan_sync` itself, with its loops, is in OutlineSync.dfy.
*/
module OutlinePlan {
  import opened Wrappers
  import opened StringOrder

  datatype LdapGroup = LdapGroup(pk: string, name: string)

  // Addresses are already stripped and case-folded; "" is a missing address.
  datatype AuthentikUser = AuthentikUser(address: string, active: bool, internal: bool, groups: seq<string>)

  datatype OutlineUser = OutlineUser(id: string, address: string, suspended: bool, guest: bool)

  // externalId is "" where the API returns null or the empty string.
  datatype Group = Group(id: string, name: string, externalId: string, externalGroup: bool)

  type Memberships = map<string, set<string>>

  /** What does not change while a plan is applied: the LDAP side and the people. */
  datatype Directory = Directory(
    sourceId: string, ldap: seq<LdapGroup>, people: seq<AuthentikUser>, accounts: seq<OutlineUser>)

  datatype Operation =
    | Create(name: string, externalId: string)
    | Update(id: string, name: string, externalId: string)
    | AddUser(id: string, userId: string)
    | RemoveUser(id: string, userId: string)

  function Prefix(sourceId: string): string {
    "krg-ldap:" + sourceId + ":"
  }

  function ExternalId(d: Directory, g: LdapGroup): string {
    Prefix(d.sourceId) + g.pk
  }

  predicate StartsWith(s: string, prefix: string) {
    prefix <= s
  }

  function ByName(groups: seq<Group>, name: string): (r: Option<Group>)
    ensures r.Some? ==> r.value in groups && r.value.name == name
    ensures r.None? ==> forall g :: g in groups ==> g.name != name
  {
    if groups == [] then None
    else if groups[0].name == name then Some(groups[0])
    else ByName(groups[1..], name)
  }

  function ByExternalId(groups: seq<Group>, externalId: string): (r: Option<Group>)
    ensures r.Some? ==> r.value in groups && r.value.externalId == externalId
    ensures r.None? ==> forall g :: g in groups ==> g.externalId != externalId
  {
    if groups == [] then None
    else if groups[0].externalId == externalId then Some(groups[0])
    else ByExternalId(groups[1..], externalId)
  }

  /** The Outline group that will carry `g`: the one it owns, else the one with its name. */
  function Target(d: Directory, groups: seq<Group>, g: LdapGroup): Option<Group> {
    var owned := ByExternalId(groups, ExternalId(d, g));
    if owned.Some? then owned else ByName(groups, g.name)
  }

  predicate Used(d: Directory, groups: seq<Group>, id: string) {
    exists g :: g in d.ldap && Target(d, groups, g).Some? && Target(d, groups, g).value.id == id
  }

  predicate Stale(d: Directory, groups: seq<Group>, group: Group) {
    StartsWith(group.externalId, Prefix(d.sourceId)) && !Used(d, groups, group.id)
  }

  /** An account is entitled to a group through the one person with its address. */
  predicate Entitled(d: Directory, account: OutlineUser, pk: string) {
    && !account.suspended && !account.guest
    && exists p :: p in d.people && p.address == account.address && p.active && p.internal && pk in p.groups
  }

  function Desired(d: Directory, pk: string): set<string> {
    set account | account in d.accounts && Entitled(d, account, pk) :: account.id
  }

  // ----- what plan_sync accepts -----

  ghost predicate DirectoryValid(d: Directory) {
    && (forall i :: 0 <= i < |d.ldap| ==> d.ldap[i].pk != "" && d.ldap[i].name != "")
    && (forall i, j :: 0 <= i < j < |d.ldap| ==> d.ldap[i].pk != d.ldap[j].pk && d.ldap[i].name != d.ldap[j].name)
    && (forall i, j :: 0 <= i < j < |d.people| && d.people[i].address != "" ==>
      d.people[i].address != d.people[j].address)
    && (forall i :: 0 <= i < |d.accounts| ==> d.accounts[i].address != "")
    && (forall i, j :: 0 <= i < j < |d.accounts| ==> d.accounts[i].address != d.accounts[j].address)
  }

  ghost predicate GroupsValid(groups: seq<Group>) {
    && (forall i :: 0 <= i < |groups| ==> groups[i].name != "")
    && (forall i, j :: 0 <= i < j < |groups| ==> groups[i].name != groups[j].name)
    && (forall i, j :: 0 <= i < j < |groups| && groups[i].externalId != "" ==>
      groups[i].externalId != groups[j].externalId)
  }

  ghost predicate MappingAccepted(d: Directory, groups: seq<Group>, members: Memberships, g: LdapGroup) {
    var owned, named := ByExternalId(groups, ExternalId(d, g)), ByName(groups, g.name);
    var target := Target(d, groups, g);
    && (owned.Some? && named.Some? ==> owned.value.id == named.value.id)
    && (target.Some? ==>
          && !target.value.externalGroup
          && target.value.externalId in {"", ExternalId(d, g)}
          && target.value.id in members)
  }

  ghost predicate TargetsDistinct(d: Directory, groups: seq<Group>) {
    forall g, h :: g in d.ldap && h in d.ldap && g != h &&
                   Target(d, groups, g).Some? && Target(d, groups, h).Some? ==>
      Target(d, groups, g).value.id != Target(d, groups, h).value.id
  }

  ghost predicate StaleAccepted(d: Directory, groups: seq<Group>, members: Memberships) {
    forall group :: group in groups && Stale(d, groups, group) ==>
      !group.externalGroup && group.id in members
  }

  ghost predicate Accepted(d: Directory, groups: seq<Group>, members: Memberships) {
    && DirectoryValid(d)
    && GroupsValid(groups)
    && (forall g :: g in d.ldap ==> MappingAccepted(d, groups, members, g))
    && TargetsDistinct(d, groups)
    && StaleAccepted(d, groups, members)
  }

  // ----- what plan_sync returns -----

  function MembersOf(members: Memberships, id: string): set<string> {
    if id in members then members[id] else {}
  }

  function Adds(id: string, users: seq<string>): (r: seq<Operation>)
    ensures |r| == |users| && forall i :: 0 <= i < |r| ==> r[i] == AddUser(id, users[i])
  {
    seq(|users|, i requires 0 <= i < |users| => AddUser(id, users[i]))
  }

  function Removes(id: string, users: seq<string>): (r: seq<Operation>)
    ensures |r| == |users| && forall i :: 0 <= i < |r| ==> r[i] == RemoveUser(id, users[i])
  {
    seq(|users|, i requires 0 <= i < |users| => RemoveUser(id, users[i]))
  }

  function MemberOps(id: string, wanted: set<string>, current: set<string>): seq<Operation> {
    Adds(id, Sorted(wanted - current)) + Removes(id, Sorted(current - wanted))
  }

  function HeadOps(d: Directory, g: LdapGroup, target: Option<Group>): seq<Operation> {
    match target
    case None => [Create(g.name, ExternalId(d, g))]
    case Some(t) =>
      if t.externalId != ExternalId(d, g) || t.name != g.name
      then [Update(t.id, g.name, ExternalId(d, g))] else []
  }

  /** The operations for one LDAP group; a group yet to be created is addressed by its external id. */
  function Section(d: Directory, groups: seq<Group>, members: Memberships, g: LdapGroup): seq<Operation> {
    var target := Target(d, groups, g);
    var id := if target.Some? then target.value.id else ExternalId(d, g);
    var current := if target.Some? then MembersOf(members, id) else {};
    HeadOps(d, g, target) + MemberOps(id, Desired(d, g.pk), current)
  }

  /** What is planned for one group of the listing when the LDAP side no longer has it. */
  function StaleChunk(d: Directory, groups: seq<Group>, members: Memberships, group: Group): seq<Operation> {
    if Stale(d, groups, group) then Removes(group.id, Sorted(MembersOf(members, group.id))) else []
  }

  function Flatten(chunks: seq<seq<Operation>>): seq<Operation> {
    if chunks == [] then [] else chunks[0] + Flatten(chunks[1..])
  }

  function LdapByPk(ldap: seq<LdapGroup>, pk: string): (r: LdapGroup)
    requires exists g :: g in ldap && g.pk == pk
    ensures r in ldap && r.pk == pk
  {
    if ldap[0].pk == pk then ldap[0] else LdapByPk(ldap[1..], pk)
  }

  /** `sorted(desired_groups.items())`: the LDAP groups by ascending pk. */
  function SortedGroups(ldap: seq<LdapGroup>): (r: seq<LdapGroup>)
    ensures forall g :: g in r ==> g in ldap
  {
    var pks := Sorted(set g | g in ldap :: g.pk);
    seq(|pks|, i requires 0 <= i < |pks| => assert pks[i] in pks; LdapByPk(ldap, pks[i]))
  }

  function SectionChunks(d: Directory, groups: seq<Group>, members: Memberships, ldap: seq<LdapGroup>)
    : seq<seq<Operation>> {
    seq(|ldap|, i requires 0 <= i < |ldap| => Section(d, groups, members, ldap[i]))
  }

  function StaleChunks(d: Directory, groups: seq<Group>, members: Memberships, rest: seq<Group>): seq<seq<Operation>> {
    seq(|rest|, i requires 0 <= i < |rest| => StaleChunk(d, groups, members, rest[i]))
  }

  function PlanOps(d: Directory, groups: seq<Group>, members: Memberships): seq<Operation> {
    Flatten(SectionChunks(d, groups, members, SortedGroups(d.ldap))) + Flatten(StaleChunks(d, groups, members, groups))
  }

  lemma SortedGroupsIsAll(ldap: seq<LdapGroup>)
    requires forall i, j :: 0 <= i < j < |ldap| ==> ldap[i].pk != ldap[j].pk
    ensures forall g :: g in ldap ==> g in SortedGroups(ldap)
    ensures forall i, j :: 0 <= i < j < |SortedGroups(ldap)| ==> SortedGroups(ldap)[i] != SortedGroups(ldap)[j]
  {
    var pks := Sorted(set g | g in ldap :: g.pk);
    var r := SortedGroups(ldap);
    forall g | g in ldap ensures g in r {
      assert g.pk in pks;
      var i :| 0 <= i < |pks| && pks[i] == g.pk;
      assert r[i].pk == g.pk && r[i] in ldap;
      assert r[i] == g;
    }
    forall i, j | 0 <= i < j < |r| ensures r[i] != r[j] {
      assert r[i].pk == pks[i] && r[j].pk == pks[j];
    }
  }
}
