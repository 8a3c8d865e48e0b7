/**
 Several LDAP sources on one Outline server: which groups carry one source's prefix, and exactly when
 reconciling one source leaves the groups of another alone.
*/
module OutlineSources {
  import opened Wrappers
  import opened StringOrder
  import opened OutlinePlan
  import opened OutlineServer
  import opened OutlineConvergence

  /** One prefix extends the other: the one source id, followed by a colon, begins the other one's. */
  predicate Nested(a: string, b: string) {
    Prefix(a) <= Prefix(b) || Prefix(b) <= Prefix(a)
  }

  ghost predicate NothingShared(a: string, b: string) {
    forall e :: !(StartsWith(e, Prefix(a)) && StartsWith(e, Prefix(b)))
  }

  /** No external id carries both prefixes exactly when neither extends the other. */
  lemma PrefixesApartIff(a: string, b: string)
    ensures NothingShared(a, b) <==> !Nested(a, b)
  {
    if Nested(a, b) {
      var e := if Prefix(a) <= Prefix(b) then Prefix(b) else Prefix(a);
      assert StartsWith(e, Prefix(a)) && StartsWith(e, Prefix(b));
    }
    if e :| StartsWith(e, Prefix(a)) && StartsWith(e, Prefix(b)) {
      var p, q := Prefix(a), Prefix(b);
      assert e[..|p|] == p && e[..|q|] == q;
      if |p| <= |q| {
        assert q[..|p|] == p;
      } else {
        assert p[..|q|] == q;
      }
    }
  }

  /** Source ids without ':' (Authentik's are UUIDs) are never nested. */
  lemma ColonFreeApart(a: string, b: string)
    requires a != b && ':' !in a && ':' !in b
    ensures !Nested(a, b)
  {
    if |a| <= |b| {
      var i := PrefixesDiffer(a, b);
    } else {
      var i := PrefixesDiffer(b, a);
    }
  }

  lemma PrefixesDiffer(a: string, b: string) returns (i: nat)
    requires a != b && ':' !in a && ':' !in b && |a| <= |b|
    ensures i < |Prefix(a)| && i < |Prefix(b)| && Prefix(a)[i] != Prefix(b)[i]
  {
    if j :| 0 <= j < |a| && a[j] != b[j] {
      i := 9 + j;
    } else {
      assert |a| == |b| ==> a == b;
      i := 9 + |a|;
      assert Prefix(b)[i] == b[|a|] && b[|a|] in b;
    }
  }

  // ----- whole runs -----

  /** `k` operations of an accepted plan. */
  ghost predicate RunOf(d: Directory, s: Server, choices: nat -> Choice, k: nat) {
    && Consistent(d, s) && Accepted(d, s.groups, Gathered(d, s))
    && k <= |PlanOps(d, s.groups, Gathered(d, s))|
    && FreshRun(d, Progress(s, map[]), PlanOps(d, s.groups, Gathered(d, s)), choices, k)
  }

  function ServerAfter(d: Directory, s: Server, choices: nat -> Choice, k: nat): Server
    requires k <= |PlanOps(d, s.groups, Gathered(d, s))|
  {
    Run(Progress(s, map[]), PlanOps(d, s.groups, Gathered(d, s)), choices, k).server
  }

  /** `x` has the record and the members it had. */
  ghost predicate Untouched(s: Server, s': Server, x: Group) {
    x in s'.groups && MembersOf(s'.members, x.id) == MembersOf(s.members, x.id)
  }

  lemma ForeignGroupUnused(d: Directory, s: Server, x: Group)
    requires Consistent(d, s) && Accepted(d, s.groups, Gathered(d, s)) && x in s.groups
    requires x.externalId != "" && !StartsWith(x.externalId, Prefix(d.sourceId))
    ensures !Used(d, s.groups, x.id)
  {
    forall h | h in d.ldap && Target(d, s.groups, h).Some?
      ensures Target(d, s.groups, h).value.id != x.id
    {
      assert MappingAccepted(d, s.groups, Gathered(d, s), h);
      assert Prefix(d.sourceId) <= ExternalId(d, h);
      assert Target(d, s.groups, h).value != x;
    }
  }

  /** Another source's groups keep record and members when the two prefixes are apart. */
  lemma OtherSourcesUntouched(d: Directory, s: Server, choices: nat -> Choice, k: nat, x: Group, other: string)
    requires RunOf(d, s, choices, k) && x in s.groups && StartsWith(x.externalId, Prefix(other))
    requires !Nested(d.sourceId, other)
    ensures Untouched(s, ServerAfter(d, s, choices, k), x)
  {
    PrefixesApartIff(d.sourceId, other);
    ForeignGroupUnused(d, s, x);
    UnmappedGroupsSurvive(d, s, choices, k, x);
  }

  /** Every run for source `a` leaves every group under the prefix of `other` as it was. */
  ghost predicate Spares(a: string, other: string) {
    forall d, s, choices, k, x :: SparesIn(a, other, d, s, choices, k, x)
  }

  ghost predicate SparesIn(
    a: string, other: string, d: Directory, s: Server, choices: nat -> Choice, k: nat, x: Group)
  {
    d.sourceId == a && RunOf(d, s, choices, k) && x in s.groups && StartsWith(x.externalId, Prefix(other)) ==>
      Untouched(s, ServerAfter(d, s, choices, k), x)
  }

  lemma SparesWhenApart(
    a: string, other: string, d: Directory, s: Server, choices: nat -> Choice, k: nat, x: Group)
    requires !Nested(a, other)
    ensures SparesIn(a, other, d, s, choices, k, x)
  {
    if d.sourceId == a && RunOf(d, s, choices, k) && x in s.groups && StartsWith(x.externalId, Prefix(other)) {
      OtherSourcesUntouched(d, s, choices, k, x, other);
    }
  }

  /** Source `a` spares the groups of `other` in every run exactly when neither prefix extends the other. */
  lemma SparesIff(a: string, other: string)
    ensures Spares(a, other) <==> !Nested(a, other)
  {
    if !Nested(a, other) {
      forall d, s, choices, k, x ensures SparesIn(a, other, d, s, choices, k, x) {
        SparesWhenApart(a, other, d, s, choices, k, x);
      }
    } else {
      var d, s, x := NestedExample(a, other);
      var choices := (n: nat) => Choice("", 0);
      assert !SparesIn(a, other, d, s, choices, 1, x);
    }
  }

  /** One stale group with one member, under both prefixes: source `a` takes the member away. */
  lemma NestedExample(a: string, other: string) returns (d: Directory, s: Server, x: Group)
    requires Nested(a, other)
    ensures d.sourceId == a && x in s.groups && StartsWith(x.externalId, Prefix(other))
    ensures PlanOps(d, s.groups, Gathered(d, s)) == [RemoveUser(x.id, "u")]
    ensures forall choices :: RunOf(d, s, choices, 1) && !Untouched(s, ServerAfter(d, s, choices, 1), x)
  {
    var longer := if Prefix(a) <= Prefix(other) then Prefix(other) else Prefix(a);
    d, x := Directory(a, [], [], []), Group("o", "Team", longer + "g", false);
    s := Server([x], map["o" := {"u"}]);
    StaleExample(d, s, x);
    forall choices ensures RunOf(d, s, choices, 1) && !Untouched(s, ServerAfter(d, s, choices, 1), x) {
      RemovedInOneStep(d, s, x, choices);
    }
  }

  lemma StaleExample(d: Directory, s: Server, x: Group)
    requires d.ldap == [] && d.people == [] && d.accounts == []
    requires x.id == "o" && x.name == "Team" && !x.externalGroup && StartsWith(x.externalId, Prefix(d.sourceId))
    requires s == Server([x], map["o" := {"u"}])
    ensures Consistent(d, s) && Accepted(d, s.groups, Gathered(d, s))
    ensures PlanOps(d, s.groups, Gathered(d, s)) == [RemoveUser("o", "u")]
  {
    assert Stale(d, s.groups, x);
    GatheredSuffices(d, s);
    SortedFirst({"u"});
    assert {"u"} - {Least({"u"})} == {};
    var chunks := StaleChunks(d, s.groups, s.members, s.groups);
    assert chunks[0] == [RemoveUser("o", "u")];
    assert Flatten(chunks) == [RemoveUser("o", "u")] + Flatten(chunks[1..]);
    assert SortedGroups(d.ldap) == [];
  }

  lemma RemovedInOneStep(d: Directory, s: Server, x: Group, choices: nat -> Choice)
    requires x.id == "o" && s == Server([x], map["o" := {"u"}])
    requires Consistent(d, s) && Accepted(d, s.groups, Gathered(d, s))
    requires PlanOps(d, s.groups, Gathered(d, s)) == [RemoveUser("o", "u")]
    ensures RunOf(d, s, choices, 1) && !Untouched(s, ServerAfter(d, s, choices, 1), x)
  {
    var p, ops := Progress(s, map[]), PlanOps(d, s.groups, Gathered(d, s));
    assert FreshAt(d, p, ops, choices, 0);
    assert Run(p, ops, choices, 0) == p;
    assert Run(p, ops, choices, 1) == Advance(p, RemoveUser("o", "u"), choices(0));
    assert {"u"} - {"u"} == {};
    assert Addressed(map[], RemoveUser("o", "u")) == RemoveUser("o", "u");
    assert MembersOf(ServerAfter(d, s, choices, 1).members, "o") == {};
  }

  /** With a ':' in a source id: source "a" takes the groups of source "a:b" for its own. */
  lemma ColonsMixSources()
    ensures !Spares("a", "a:b")
  {
    assert Prefix("a") <= Prefix("a:b");
    SparesIff("a", "a:b");
  }
}
