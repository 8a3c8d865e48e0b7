/**
 `plan_sync`, `apply_plan` and `reconcile` (nix/docker-compose/outline-group-sync/sync.py),
 loop by loop, against the snapshot relation of OutlinePlan and the runs of OutlineConvergence.
*/
module OutlineSync {
  import opened Wrappers
  import opened StringOrder
  import opened OutlinePlan
  import opened OutlineServer
  import opened OutlineResume
  import opened OutlineConvergence

  // What the run refused; the messages are not modelled.
  datatype SyncError = SyncError

  /** Distinct keys; blank ones are refused, or (as in `[u for u in rows if key(u)]`) left out. */
  ghost predicate Indexable<T>(rows: seq<T>, key: T -> string, skipBlank: bool) {
    && (skipBlank || forall i :: 0 <= i < |rows| ==> key(rows[i]) != "")
    && (forall i, j :: 0 <= i < j < |rows| && key(rows[i]) != "" ==> key(rows[i]) != key(rows[j]))
  }

  ghost predicate Indexes<T>(index: map<string, T>, rows: seq<T>, key: T -> string) {
    && (forall i :: 0 <= i < |rows| && key(rows[i]) != "" ==> key(rows[i]) in index && index[key(rows[i])] == rows[i])
    && (forall v :: v in index ==> v != "" && index[v] in rows && key(index[v]) == v)
  }

  method IndexUnique<T>(rows: seq<T>, key: T -> string, skipBlank: bool) returns (r: Result<map<string, T>, SyncError>)
    ensures r.Success? <==> Indexable(rows, key, skipBlank)
    ensures r.Success? ==> Indexes(r.value, rows, key)
  {
    var index: map<string, T> := map[];
    for i := 0 to |rows|
      invariant Indexable(rows[..i], key, skipBlank)
      invariant Indexes(index, rows[..i], key)
    {
      var value := key(rows[i]);
      if skipBlank && value == "" {
        continue;
      }
      if value == "" || value in index {
        return Failure(SyncError);
      }
      index := index[value := rows[i]];
    }
    assert rows[..|rows|] == rows;
    return Success(index);
  }

  // ----- who belongs to which group -----

  ghost predicate IndexedByAddress(people: map<string, AuthentikUser>, rows: seq<AuthentikUser>) {
    && (forall p :: p in rows && p.address != "" ==> p.address in people && people[p.address] == p)
    && (forall a :: a in people ==> people[a] in rows && people[a].address == a)
  }

  /** `Desired`, counting only the first `n` accounts. */
  ghost function DesiredSoFar(d: Directory, n: nat, pk: string): set<string>
    requires n <= |d.accounts|
  {
    Desired(d.(accounts := d.accounts[..n]), pk)
  }

  lemma OneMoreAccount(d: Directory, n: nat, pk: string)
    requires n < |d.accounts|
    ensures DesiredSoFar(d, n + 1, pk)
         == DesiredSoFar(d, n, pk) + (if Entitled(d, d.accounts[n], pk) then {d.accounts[n].id} else {})
  {
  }

  predicate Counts(user: OutlineUser, ak: AuthentikUser) {
    ak.active && ak.internal && !user.suspended && !user.guest
  }

  lemma EntitledThrough(d: Directory, people: map<string, AuthentikUser>, user: OutlineUser, pk: string)
    requires IndexedByAddress(people, d.people) && user.address != ""
    ensures Entitled(d, user, pk)
       <==> user.address in people && Counts(user, people[user.address]) && pk in people[user.address].groups
  {
  }

  /** The inner loop: put one account into each managed group of its person. */
  method Grant(desired: map<string, set<string>>, groups: seq<string>, id: string) returns (r: map<string, set<string>>)
    ensures r.Keys == desired.Keys
    ensures forall pk :: pk in desired ==> r[pk] == desired[pk] + (if pk in groups then {id} else {})
  {
    r := desired;
    for j := 0 to |groups|
      invariant r.Keys == desired.Keys
      invariant forall pk :: pk in desired ==> r[pk] == desired[pk] + (if pk in groups[..j] then {id} else {})
    {
      if groups[j] in r {
        r := r[groups[j] := r[groups[j]] + {id}];
      }
    }
    assert groups[..|groups|] == groups;
  }

  ghost predicate Granted(d: Directory, desired: map<string, set<string>>, i: nat)
    requires i <= |d.accounts|
  {
    forall pk :: pk in desired ==> desired[pk] == DesiredSoFar(d, i, pk)
  }

  /** The managed groups an account is put into. */
  function GroupsOf(people: map<string, AuthentikUser>, user: OutlineUser): seq<string> {
    if user.address in people && Counts(user, people[user.address]) then people[user.address].groups else []
  }

  lemma OneMoreGranted(
    d: Directory, people: map<string, AuthentikUser>, i: nat, desired: map<string, set<string>>,
    next: map<string, set<string>>)
    requires IndexedByAddress(people, d.people) && i < |d.accounts| && d.accounts[i].address != ""
    requires Granted(d, desired, i) && next.Keys == desired.Keys
    requires var user := d.accounts[i];
      forall pk :: pk in next ==> next[pk] == desired[pk] + (if pk in GroupsOf(people, user) then {user.id} else {})
    ensures Granted(d, next, i + 1)
  {
    forall pk | pk in next ensures next[pk] == DesiredSoFar(d, i + 1, pk) {
      OneMoreAccount(d, i, pk);
      EntitledThrough(d, people, d.accounts[i], pk);
    }
  }

  method DesiredMembers(d: Directory, people: map<string, AuthentikUser>, pks: set<string>)
    returns (desired: map<string, set<string>>)
    requires IndexedByAddress(people, d.people) && forall u :: u in d.accounts ==> u.address != ""
    ensures desired.Keys == pks
    ensures forall pk :: pk in pks ==> desired[pk] == Desired(d, pk)
  {
    desired := map pk | pk in pks :: {};
    for i := 0 to |d.accounts|
      invariant desired.Keys == pks && Granted(d, desired, i)
    {
      ghost var before := desired;
      var user := d.accounts[i];
      if user.address in people && Counts(user, people[user.address]) {
        desired := Grant(desired, people[user.address].groups, user.id);
      }
      OneMoreGranted(d, people, i, before, desired);
    }
    assert d.accounts[..|d.accounts|] == d.accounts;
  }

  // ----- plan_sync -----

  /** The dictionaries `plan_sync` looks groups up in. */
  datatype Lookups = Lookups(byName: map<string, Group>, byExternal: map<string, Group>)

  ghost predicate LooksUp(l: Lookups, groups: seq<Group>) {
    && (forall n :: ByName(groups, n) == if n in l.byName then Some(l.byName[n]) else None)
    && (forall e :: e != "" ==> ByExternalId(groups, e) == if e in l.byExternal then Some(l.byExternal[e]) else None)
  }

  method IndexGroups(groups: seq<Group>) returns (r: Result<Lookups, SyncError>)
    ensures r.Success? <==> GroupsValid(groups)
    ensures r.Success? ==> LooksUp(r.value, groups)
  {
    var byName := IndexUnique(groups, (g: Group) => g.name, false);
    if byName.Failure? {
      return Failure(SyncError);
    }
    var byExternal := IndexUnique(groups, (g: Group) => g.externalId, true);
    if byExternal.Failure? {
      return Failure(SyncError);
    }
    NamesLookUp(groups, byName.value);
    ExternalIdsLookUp(groups, byExternal.value);
    return Success(Lookups(byName.value, byExternal.value));
  }

  lemma NamesLookUp(groups: seq<Group>, index: map<string, Group>)
    requires Indexable(groups, (g: Group) => g.name, false) && Indexes(index, groups, (g: Group) => g.name)
    ensures forall n :: ByName(groups, n) == if n in index then Some(index[n]) else None
  {
  }

  lemma ExternalIdsLookUp(groups: seq<Group>, index: map<string, Group>)
    requires Indexable(groups, (g: Group) => g.externalId, true) && Indexes(index, groups, (g: Group) => g.externalId)
    ensures forall e :: e != "" ==> ByExternalId(groups, e) == if e in index then Some(index[e]) else None
  {
  }

  method ValidateDirectory(d: Directory) returns (r: Result<map<string, AuthentikUser>, SyncError>)
    ensures r.Success? <==> DirectoryValid(d)
    ensures r.Success? ==> IndexedByAddress(r.value, d.people)
  {
    var byPk := IndexUnique(d.ldap, (g: LdapGroup) => g.pk, false);
    if byPk.Failure? {
      return Failure(SyncError);
    }
    var byName := IndexUnique(d.ldap, (g: LdapGroup) => g.name, false);
    if byName.Failure? {
      return Failure(SyncError);
    }
    var people := IndexUnique(d.people, (p: AuthentikUser) => p.address, true);
    if people.Failure? {
      return Failure(SyncError);
    }
    var accounts := IndexUnique(d.accounts, (u: OutlineUser) => u.address, false);
    if accounts.Failure? {
      return Failure(SyncError);
    }
    return Success(people.value);
  }

  /** The group a plan will use for `source`, unless its name or its owner is in the way. */
  method FindTarget(d: Directory, groups: seq<Group>, l: Lookups, source: LdapGroup)
    returns (r: Result<Option<Group>, SyncError>)
    requires LooksUp(l, groups)
    ensures r.Success? <==> TargetAccepted(d, groups, source)
    ensures r.Success? ==> r.value == Target(d, groups, source)
  {
    var externalId := ExternalId(d, source);
    assert |externalId| > 0;
    var owned := if externalId in l.byExternal then Some(l.byExternal[externalId]) else None;
    var sameName := if source.name in l.byName then Some(l.byName[source.name]) else None;
    assert owned == ByExternalId(groups, externalId);
    if owned.Some? && sameName.Some? && owned.value.id != sameName.value.id {
      return Failure(SyncError);
    }
    var target := if owned.Some? then owned else sameName;
    if target.Some? && (target.value.externalGroup || target.value.externalId !in {"", externalId}) {
      return Failure(SyncError);
    }
    return Success(target);
  }

  ghost predicate TargetAccepted(d: Directory, groups: seq<Group>, g: LdapGroup) {
    var owned, named := ByExternalId(groups, ExternalId(d, g)), ByName(groups, g.name);
    var target := Target(d, groups, g);
    && (owned.Some? && named.Some? ==> owned.value.id == named.value.id)
    && (target.Some? ==> !target.value.externalGroup && target.value.externalId in {"", ExternalId(d, g)})
  }

  /** The body of the loop over the LDAP groups: one group's operations and the group they are for. */
  method PlanGroup(d: Directory, groups: seq<Group>, members: Memberships, l: Lookups, source: LdapGroup,
      wanted: set<string>)
    returns (r: Result<(seq<Operation>, Option<string>), SyncError>)
    requires LooksUp(l, groups) && wanted == Desired(d, source.pk)
    ensures r.Success? <==> MappingAccepted(d, groups, members, source)
    ensures r.Success? ==>
      && r.value.0 == Section(d, groups, members, source)
      && var target := Target(d, groups, source);
      r.value.1 == if target.Some? then Some(target.value.id) else None
  {
    var target := FindTarget(d, groups, l, source);
    if target.Failure? || (target.value.Some? && target.value.value.id !in members) {
      return Failure(SyncError);
    }
    var ops: seq<Operation>;
    match target.value
    case Some(t) =>
      ops := if t.externalId != ExternalId(d, source) || t.name != source.name
        then [Update(t.id, source.name, ExternalId(d, source))] else [];
      ops := ops + MemberOps(t.id, wanted, members[t.id]);
      return Success((ops, Some(t.id)));
    case None =>
      // The symbolic id is resolved by apply_plan once the group is created.
      ops := [Create(source.name, ExternalId(d, source))];
      ops := ops + MemberOps(ExternalId(d, source), wanted, {});
      return Success((ops, None));
  }

  lemma FlattenSnoc(chunks: seq<seq<Operation>>, k: nat)
    requires k < |chunks|
    ensures Flatten(chunks[..k + 1]) == Flatten(chunks[..k]) + chunks[k]
  {
    assert chunks[..k + 1] == chunks[..k] + [chunks[k]];
    FlattenConcat(chunks[..k], [chunks[k]]);
  }

  ghost predicate AcceptedUpTo(d: Directory, groups: seq<Group>, members: Memberships, ldap: seq<LdapGroup>,
      used: set<string>) {
    && (forall g :: g in ldap ==> MappingAccepted(d, groups, members, g))
    && (forall i, j :: 0 <= i < j < |ldap| && Target(d, groups, ldap[i]).Some? && Target(d, groups, ldap[j]).Some? ==>
          Target(d, groups, ldap[i]).value.id != Target(d, groups, ldap[j]).value.id)
    && (forall g :: g in ldap && Target(d, groups, g).Some? ==> Target(d, groups, g).value.id in used)
    && (forall id :: id in used ==>
      exists g :: g in ldap && Target(d, groups, g).Some? && Target(d, groups, g).value.id == id)
  }

  lemma OneMoreAccepted(d: Directory, groups: seq<Group>, members: Memberships, ldap: seq<LdapGroup>, i: nat,
      used: set<string>)
    requires i < |ldap| && AcceptedUpTo(d, groups, members, ldap[..i], used)
    requires MappingAccepted(d, groups, members, ldap[i])
    requires Target(d, groups, ldap[i]).Some? ==> Target(d, groups, ldap[i]).value.id !in used
    ensures var target := Target(d, groups, ldap[i]);
      AcceptedUpTo(d, groups, members, ldap[..i + 1], if target.Some? then used + {target.value.id} else used)
  {
    assert ldap[..i + 1] == ldap[..i] + [ldap[i]];
  }

  lemma TargetsAllDistinct(d: Directory, groups: seq<Group>, members: Memberships, used: set<string>)
    requires DirectoryValid(d) && AcceptedUpTo(d, groups, members, SortedGroups(d.ldap), used)
    ensures TargetsDistinct(d, groups)
  {
    var ldap := SortedGroups(d.ldap);
    SortedGroupsIsAll(d.ldap);
    forall g, h | g in d.ldap && h in d.ldap && g != h && Target(d, groups, g).Some? && Target(d, groups, h).Some?
      ensures Target(d, groups, g).value.id != Target(d, groups, h).value.id
    {
      assert g in ldap && h in ldap;
    }
  }

  lemma AcceptedAll(d: Directory, groups: seq<Group>, members: Memberships, used: set<string>)
    requires DirectoryValid(d) && AcceptedUpTo(d, groups, members, SortedGroups(d.ldap), used)
    ensures forall g :: g in d.ldap ==> MappingAccepted(d, groups, members, g)
    ensures forall id :: id in used <==> Used(d, groups, id)
  {
    SortedGroupsIsAll(d.ldap);
  }

  lemma SharedTarget(d: Directory, groups: seq<Group>, ldap: seq<LdapGroup>, i: nat, id: string)
    requires DirectoryValid(d) && ldap == SortedGroups(d.ldap) && i < |ldap|
    requires Target(d, groups, ldap[i]).Some? && Target(d, groups, ldap[i]).value.id == id
    requires exists g :: g in ldap[..i] && Target(d, groups, g).Some? && Target(d, groups, g).value.id == id
    ensures !TargetsDistinct(d, groups)
  {
  }

  ghost predicate AllMapped(d: Directory, groups: seq<Group>, members: Memberships) {
    (forall g :: g in d.ldap ==> MappingAccepted(d, groups, members, g)) && TargetsDistinct(d, groups)
  }

  /** Where the loop over the LDAP groups is after `i` of them. */
  ghost predicate PlannedUpTo(
    d: Directory, groups: seq<Group>, members: Memberships, i: nat, operations: seq<Operation>, used: set<string>)
  {
    var ldap := SortedGroups(d.ldap);
    && i <= |ldap|
    && operations == Flatten(SectionChunks(d, groups, members, ldap)[..i])
    && AcceptedUpTo(d, groups, members, ldap[..i], used)
  }

  lemma NothingPlanned(d: Directory, groups: seq<Group>, members: Memberships)
    ensures PlannedUpTo(d, groups, members, 0, [], {})
  {
  }

  lemma OneMorePlanned(
    d: Directory, groups: seq<Group>, members: Memberships, i: nat, operations: seq<Operation>, used: set<string>)
    requires PlannedUpTo(d, groups, members, i, operations, used) && i < |SortedGroups(d.ldap)|
    requires var g := SortedGroups(d.ldap)[i];
      && MappingAccepted(d, groups, members, g)
      && (Target(d, groups, g).Some? ==> Target(d, groups, g).value.id !in used)
    ensures var g := SortedGroups(d.ldap)[i];
      var target := Target(d, groups, g);
      PlannedUpTo(d, groups, members, i + 1, operations + Section(d, groups, members, g),
                  if target.Some? then used + {target.value.id} else used)
  {
    var ldap := SortedGroups(d.ldap);
    OneMoreAccepted(d, groups, members, ldap, i, used);
    FlattenSnoc(SectionChunks(d, groups, members, ldap), i);
  }

  lemma AllPlanned(d: Directory, groups: seq<Group>, members: Memberships, operations: seq<Operation>,
      used: set<string>)
    requires DirectoryValid(d) && PlannedUpTo(d, groups, members, |SortedGroups(d.ldap)|, operations, used)
    ensures AllMapped(d, groups, members)
    ensures operations == Flatten(SectionChunks(d, groups, members, SortedGroups(d.ldap)))
    ensures forall id :: id in used <==> Used(d, groups, id)
  {
    var ldap := SortedGroups(d.ldap);
    var chunks := SectionChunks(d, groups, members, ldap);
    assert chunks[..|ldap|] == chunks && ldap[..|ldap|] == ldap;
    TargetsAllDistinct(d, groups, members, used);
    AcceptedAll(d, groups, members, used);
  }

  /** One turn of the loop: refuse a target that is taken, or go on. */
  method PlanNext(
    d: Directory, groups: seq<Group>, members: Memberships, l: Lookups, wanted: set<string>,
    i: nat, operations: seq<Operation>, used: set<string>)
    returns (r: Result<(seq<Operation>, set<string>), SyncError>)
    requires DirectoryValid(d) && LooksUp(l, groups) && i < |SortedGroups(d.ldap)|
    requires wanted == Desired(d, SortedGroups(d.ldap)[i].pk)
    requires PlannedUpTo(d, groups, members, i, operations, used)
    ensures r.Failure? ==> !AllMapped(d, groups, members)
    ensures r.Success? ==> PlannedUpTo(d, groups, members, i + 1, r.value.0, r.value.1)
  {
    var ldap := SortedGroups(d.ldap);
    var source := ldap[i];
    assert source in ldap;
    var part := PlanGroup(d, groups, members, l, source, wanted);
    if part.Failure? {
      return Failure(SyncError);
    }
    var target := part.value.1;
    if target.Some? && target.value in used {
      SharedTarget(d, groups, ldap, i, target.value);
      return Failure(SyncError);
    }
    OneMorePlanned(d, groups, members, i, operations, used);
    return Success((operations + part.value.0, if target.Some? then used + {target.value} else used));
  }

  /** The loop over the LDAP groups in order of pk. */
  method PlanGroups(
    d: Directory, groups: seq<Group>, members: Memberships, l: Lookups, desired: map<string, set<string>>)
    returns (r: Result<(seq<Operation>, set<string>), SyncError>)
    requires DirectoryValid(d) && LooksUp(l, groups)
    requires forall g :: g in d.ldap ==> g.pk in desired && desired[g.pk] == Desired(d, g.pk)
    ensures r.Success? <==> AllMapped(d, groups, members)
    ensures r.Success? ==>
      && r.value.0 == Flatten(SectionChunks(d, groups, members, SortedGroups(d.ldap)))
      && forall id :: id in r.value.1 <==> Used(d, groups, id)
  {
    var ldap := SortedGroups(d.ldap);
    var operations: seq<Operation>, used: set<string> := [], {};
    NothingPlanned(d, groups, members);
    for i := 0 to |ldap|
      invariant PlannedUpTo(d, groups, members, i, operations, used)
    {
      assert ldap[i] in ldap;
      var next := PlanNext(d, groups, members, l, desired[ldap[i].pk], i, operations, used);
      if next.Failure? {
        return Failure(SyncError);
      }
      operations, used := next.value.0, next.value.1;
    }
    AllPlanned(d, groups, members, operations, used);
    return Success((operations, used));
  }

  /** The loop over the listing that empties what LDAP no longer has. */
  method PlanStale(d: Directory, groups: seq<Group>, members: Memberships, used: set<string>)
    returns (r: Result<seq<Operation>, SyncError>)
    requires forall id :: id in used <==> Used(d, groups, id)
    ensures r.Success? <==> StaleAccepted(d, groups, members)
    ensures r.Success? ==> r.value == Flatten(StaleChunks(d, groups, members, groups))
  {
    ghost var chunks := StaleChunks(d, groups, members, groups);
    var operations: seq<Operation> := [];
    for i := 0 to |groups|
      invariant operations == Flatten(chunks[..i])
      invariant forall k :: 0 <= k < i && Stale(d, groups, groups[k]) ==>
        !groups[k].externalGroup && groups[k].id in members
    {
      var group := groups[i];
      FlattenSnoc(chunks, i);
      if StartsWith(group.externalId, Prefix(d.sourceId)) && group.id !in used {
        assert Stale(d, groups, group);
        if group.externalGroup || group.id !in members {
          return Failure(SyncError);
        }
        operations := operations + Removes(group.id, Sorted(members[group.id]));
      }
    }
    assert chunks[..|groups|] == chunks;
    return Success(operations);
  }

  /** `plan_sync`: accepts exactly the accepted snapshots, and returns exactly their plan. */
  method PlanSync(d: Directory, groups: seq<Group>, members: Memberships) returns (r: Result<seq<Operation>, SyncError>)
    ensures r.Success? <==> Accepted(d, groups, members)
    ensures r.Success? ==> r.value == PlanOps(d, groups, members)
  {
    var people := ValidateDirectory(d);
    if people.Failure? {
      return Failure(SyncError);
    }
    var l := IndexGroups(groups);
    if l.Failure? {
      return Failure(SyncError);
    }
    var desired := DesiredMembers(d, people.value, set g | g in d.ldap :: g.pk);
    var mapped := PlanGroups(d, groups, members, l.value, desired);
    if mapped.Failure? {
      return Failure(SyncError);
    }
    var stale := PlanStale(d, groups, members, mapped.value.1);
    if stale.Failure? {
      return Failure(SyncError);
    }
    return Success(mapped.value.0 + stale.value);
  }

  // ----- apply_plan and reconcile -----

  /** One API call as it turns out: a failed call may or may not have taken effect. */
  datatype Outcome = Outcome(ok: bool, effect: bool, choice: Choice)

  function Choices(outcomes: nat -> Outcome): nat -> Choice {
    (n: nat) => outcomes(n).choice
  }

  class OutlineApi {
    var server: Server

    constructor (s: Server)
      ensures server == s
    {
      server := s;
    }

    /** `API.outline`: answers, or raises with the call done or not done. */
    method Call(op: Operation, outcome: Outcome) returns (ok: bool)
      modifies this
      ensures ok == outcome.ok
      ensures server == if outcome.ok || outcome.effect then Perform(old(server), op, outcome.choice) else old(server)
    {
      if outcome.ok || outcome.effect {
        server := Perform(server, op, outcome.choice);
      }
      ok := outcome.ok;
    }

    /**
     `apply_plan`: whatever call fails, and whether or not the failing one took effect, the
     server is where the first `k` operations leave it.
    */
    method ApplyPlan(operations: seq<Operation>, outcomes: nat -> Outcome) returns (ok: bool, ghost k: nat)
      modifies this
      ensures k <= |operations| && (ok ==> k == |operations|)
      ensures server == Run(Progress(old(server), map[]), operations, Choices(outcomes), k).server
    {
      var created: map<string, string> := map[];
      for i := 0 to |operations|
        invariant Run(Progress(old(server), map[]), operations, Choices(outcomes), i) == Progress(server, created)
      {
        var done := Call(Addressed(created, operations[i]), outcomes(i));
        if !done {
          return false, if outcomes(i).effect then i + 1 else i;
        }
        created := Recorded(created, operations[i], outcomes(i).choice);
      }
      return true, |operations|;
    }

    /** The memberships of the groups that can matter, which is all of them or nothing. */
    method ReadMemberships(d: Directory, membershipsRead: string -> bool) returns (r: Option<Memberships>)
      ensures r.Some? <==> AllRead(d, server.groups, membershipsRead)
      ensures r.Some? ==> r.value == Gathered(d, server)
    {
      var listing := server.groups;
      var memberships: Memberships := map[];
      for i := 0 to |listing|
        invariant forall j :: 0 <= j < i && Relevant(d, listing[j]) && listing[j].id in server.members ==>
          listing[j].id in memberships
        invariant forall id :: id in memberships ==> id in server.members && memberships[id] == server.members[id]
        invariant forall id :: id in memberships ==>
          exists j :: 0 <= j < i && listing[j].id == id && Relevant(d, listing[j])
        invariant AllRead(d, listing[..i], membershipsRead)
      {
        if Relevant(d, listing[i]) {
          if !membershipsRead(listing[i].id) {
            return None;
          }
          if listing[i].id in server.members {
            memberships := memberships[listing[i].id := server.members[listing[i].id]];
          }
        }
      }
      assert listing[..|listing|] == listing;
      return Some(memberships);
    }

    /**
     `reconcile`. `directory` is what the Authentik and users.list reads gave (None when one
     failed or was refused), `membershipsRead(id)` whether that group's membership read
     succeeded, `steady` whether the sync status was healthy and the same before and after.
    */
    method Reconcile(directory: Option<Directory>, groupsRead: bool, membershipsRead: string -> bool, steady: bool,
                     apply: bool, outcomes: nat -> Outcome)
      returns (r: Result<seq<Operation>, SyncError>, ghost k: nat)
      modifies this
      ensures directory.None? ==> r.Failure? && server == old(server)
      ensures directory.Some? && !AllRead(directory.value, old(server).groups, membershipsRead) ==>
        r.Failure? && server == old(server)
      // Nothing is written unless every read succeeded and the whole snapshot was accepted.
      ensures server != old(server) ==> apply && groupsRead && steady
      ensures directory.Some? && Consistent(directory.value, old(server)) ==>
        var d, s := directory.value, old(server);
        && (!(Accepted(d, s.groups, Gathered(d, s)) && apply) ==> server == s)
        && (Accepted(d, s.groups, Gathered(d, s)) ==>
              && k <= |PlanOps(d, s.groups, Gathered(d, s))|
              && server == Run(Progress(s, map[]), PlanOps(d, s.groups, Gathered(d, s)), Choices(outcomes), k).server)
        && (r.Success? ==> r.value == PlanOps(d, s.groups, Gathered(d, s)) && Accepted(d, s.groups, Gathered(d, s)))
        && (r.Success? && apply && FreshRun(d, Progress(s, map[]), r.value, Choices(outcomes), |r.value|) ==>
              Converged(d, server))
    {
      k := 0;
      if directory.None? || !groupsRead {
        return Failure(SyncError), 0;
      }
      var d := directory.value;
      var memberships := ReadMemberships(d, membershipsRead);
      if memberships.None? {
        return Failure(SyncError), 0;
      }
      if !steady {
        return Failure(SyncError), 0;
      }
      var plan := PlanSync(d, server.groups, memberships.value);
      if plan.Failure? {
        return Failure(SyncError), 0;
      }
      if apply {
        var ok;
        ok, k := ApplyPlan(plan.value, outcomes);
        if !ok {
          return Failure(SyncError), k;
        }
        if Consistent(d, old(server))
          && FreshRun(d, Progress(old(server), map[]), plan.value, Choices(outcomes), |plan.value|) {
          FullRunConverges(d, old(server), Choices(outcomes));
        }
      }
      return plan, k;
    }
  }
}
