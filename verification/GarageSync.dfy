/**
 `do_sync_keys` of ansible/synology/roles/synology_garage/files/apply_garage.py: read, refuse or
 plan, then import keys, write env files and change grants, in that order.
*/
module GarageSync {
  import opened Wrappers
  import opened Garage

  // One call or write as it turns out; a failing one may still have taken effect.
  datatype Fault = Fault(ok: bool, effect: bool)

  predicate Took(f: Fault) {
    f.ok || f.effect
  }

  /** `bucket_id_by_alias` */
  method IndexAliases(buckets: seq<Bucket>) returns (index: map<string, string>)
    ensures forall a :: ByAlias(buckets, a) == if a in index then Some(index[a]) else None
  {
    index := map[];
    for n := 0 to |buckets|
      invariant forall a :: ByAlias(buckets[..n], a) == if a in index then Some(index[a]) else None
    {
      ghost var before := index;
      var b := buckets[n];
      assert buckets[..n + 1][..n] == buckets[..n];
      for m := 0 to |b.aliases|
        invariant forall a :: if a in b.aliases[..m] then a in index && index[a] == b.id
                              else (a in index <==> a in before) && (a in before ==> index[a] == before[a])
      {
        index := index[b.aliases[m] := b.id];
      }
      assert b.aliases[..|b.aliases|] == b.aliases;
    }
    assert buckets[..|buckets|] == buckets;
  }

  /** `key_id_by_name`; a name twice is refused. */
  method IndexKeys(keys: seq<Key>) returns (index: Option<map<string, string>>)
    ensures index.Some? <==> forall i, j :: 0 <= i < j < |keys| ==> keys[i].name != keys[j].name
    ensures index.Some? ==>
      && (forall k :: k in keys ==> k.name in index.value && index.value[k.name] == k.id)
      && (forall n :: n in index.value ==> Key(n, index.value[n]) in keys)
  {
    var m: map<string, string> := map[];
    for i := 0 to |keys|
      invariant forall a, b :: 0 <= a < b < i ==> keys[a].name != keys[b].name
      invariant forall a :: 0 <= a < i ==> keys[a].name in m && m[keys[a].name] == keys[a].id
      invariant forall n :: n in m ==> exists a :: 0 <= a < i && keys[a] == Key(n, m[n])
    {
      if keys[i].name in m {
        return None;
      }
      m := m[keys[i].name := keys[i].id];
    }
    return Some(m);
  }

  lemma OpsOfNext(s: State, pairs: seq<Pair>, m: nat, ids: map<string, string>)
    requires m < |pairs|
    ensures OpsOf(s, pairs[..m + 1], ids) == OpsOf(s, pairs[..m], ids) + OpsFor(pairs[m], Current(s, pairs[m], ids))
  {
    assert pairs[..m + 1][..m] == pairs[..m];
  }

  lemma OpsOfLast(s: State, init: seq<Pair>, last: Pair, ids: map<string, string>)
    ensures OpsOf(s, init + [last], ids) == OpsOf(s, init, ids) + OpsFor(last, Current(s, last, ids))
  {
    assert (init + [last])[..|init|] == init;
  }

  lemma OpsAssociate(a: seq<GrantOp>, b: seq<GrantOp>, c: seq<GrantOp>)
    ensures (a + b) + c == a + (b + c)
  {
  }

  lemma {:induction false} OpsOfConcat(s: State, a: seq<Pair>, b: seq<Pair>, ids: map<string, string>)
    ensures OpsOf(s, a + b, ids) == OpsOf(s, a, ids) + OpsOf(s, b, ids)
  {
    if b == [] {
      assert a + b == a;
    } else {
      var init, last := b[..|b| - 1], b[|b| - 1];
      OpsOfConcat(s, a, init, ids);
      assert a + b == (a + init) + [last] && b == init + [last];
      OpsOfLast(s, a + init, last, ids);
      OpsOfLast(s, init, last, ids);
      OpsAssociate(OpsOf(s, a, ids), OpsOf(s, init, ids), OpsFor(last, Current(s, last, ids)));
    }
  }

  lemma WrittenNext(env: map<string, Cred>, names: seq<string>, m: nat, creds: map<string, Cred>)
    requires m < |names| && names[m] in creds
    ensures Written(env, names[..m + 1], creds) == Written(env, names[..m], creds)[names[m] := creds[names[m]]]
  {
    assert names[..m + 1] == names[..m] + [names[m]];
  }

  class Box {
    var state: State

    constructor (s: State)
      ensures state == s
    {
      state := s;
    }

    /** The aliases and key ids that were read are those of `state`. */
    ghost predicate Indexed(aliases: map<string, string>, keyIds: map<string, string>)
      reads this
    {
      && (forall a :: ByAlias(state.buckets, a) == if a in aliases then Some(aliases[a]) else None)
      && (forall k :: k in state.keys ==> k.name in keyIds && keyIds[k.name] == k.id)
      && (forall n :: n in keyIds ==> Key(n, keyIds[n]) in state.keys)
    }

    lemma KnownIffPresent(aliases: map<string, string>, keyIds: map<string, string>, name: string)
      requires Indexed(aliases, keyIds)
      ensures name in keyIds <==> HasKey(state, name)
    {
    }

    /** The diff of one pair, given by its key and bucket name; None when its GetBucketInfo fails. */
    method PlanPair(name: string, b: BucketSpec, creds: map<string, Cred>, aliases: map<string, string>,
                    keyIds: map<string, string>, readable: bool)
      returns (r: Option<seq<GrantOp>>)
      requires Indexed(aliases, keyIds) && b.name in aliases
      requires name in creds && (name in keyIds ==> keyIds[name] == creds[name].id)
      ensures r.Some? ==> var p := PairOf(state, name, b); r.value == OpsFor(p, Current(state, p, Ids(creds)))
      ensures readable ==> r.Some?
    {
      KnownIffPresent(aliases, keyIds, name);
      var bucketId := aliases[b.name];
      assert bucketId == ByAliasOr(state.buckets, b.name);
      var p := Pair(name, bucketId, b.want);
      if name !in keyIds {
        return Some(OpsFor(p, NONE));
      }
      if !readable {
        return None;
      }
      return Some(OpsFor(p, Get(state.grants, Grant(bucketId, keyIds[name]))));
    }

    /** The diff of one key's pairs. */
    method PlanKey(k: KeySpec, creds: map<string, Cred>, aliases: map<string, string>, keyIds: map<string, string>,
                   readable: nat -> bool, from: nat)
      returns (r: Option<seq<GrantOp>>)
      requires Indexed(aliases, keyIds) && k.name in creds && (k.name in keyIds ==> keyIds[k.name] == creds[k.name].id)
      requires forall b :: b in k.buckets ==> b.name in aliases
      ensures r.Some? ==> r.value == OpsOf(state, PairsOf(state, k.name, k.buckets), Ids(creds))
      ensures (forall n: nat :: readable(n)) ==> r.Some?
    {
      var ops: seq<GrantOp> := [];
      for m := 0 to |k.buckets|
        invariant ops == OpsOf(state, PairsOf(state, k.name, k.buckets)[..m], Ids(creds))
      {
        assert k.buckets[m] in k.buckets;
        var more := PlanPair(k.name, k.buckets[m], creds, aliases, keyIds, readable(from + m));
        if more.None? {
          return None;
        }
        OpsOfNext(state, PairsOf(state, k.name, k.buckets), m, Ids(creds));
        ops := ops + more.value;
      }
      assert PairsOf(state, k.name, k.buckets)[..|k.buckets|] == PairsOf(state, k.name, k.buckets);
      return Some(ops);
    }

    /** The diff of every declared pair; `readable(n)` is whether the n-th GetBucketInfo answered. */
    method PlanGrants(specs: seq<KeySpec>, creds: map<string, Cred>, aliases: map<string, string>,
                      keyIds: map<string, string>, readable: nat -> bool)
      returns (r: Option<seq<GrantOp>>)
      requires Ready(state, specs, creds) && Indexed(aliases, keyIds)
      ensures r.Some? ==> r.value == GrantOps(state, specs, creds)
      ensures (forall n: nat :: readable(n)) ==> r.Some?
    {
      var ops: seq<GrantOp>, nth: nat := [], 0;
      for n := 0 to |specs|
        invariant ops == OpsOf(state, Pairs(state, specs[..n]), Ids(creds))
      {
        var k := specs[n];
        assert k in specs;
        assert specs[..n + 1][..n] == specs[..n];
        var more := PlanKey(k, creds, aliases, keyIds, readable, nth);
        if more.None? {
          return None;
        }
        OpsOfConcat(state, Pairs(state, specs[..n]), PairsOf(state, k.name, k.buckets), Ids(creds));
        ops, nth := ops + more.value, nth + |k.buckets|;
      }
      assert specs[..|specs|] == specs;
      return Some(ops);
    }

    method Import(names: seq<string>, creds: map<string, Cred>, faults: nat -> Fault) returns (ok: bool, ghost i: nat)
      requires forall n :: n in names ==> n in creds
      modifies this
      ensures i <= |names| && (ok ==> i == |names|)
      ensures (forall n: nat :: faults(n).ok) ==> ok
      ensures forall n :: n in names[..i] ==> n in creds
      ensures state == old(state).(keys := old(state).keys + Imports(names[..i], creds))
    {
      assert forall m: nat :: m <= |names| ==> forall n :: n in names[..m] ==> n in names;
      for m := 0 to |names|
        invariant state == old(state).(keys := old(state).keys + Imports(names[..m], creds))
      {
        assert names[m] in names;
        assert Imports(names[..m + 1], creds) == Imports(names[..m], creds) + [Key(names[m], creds[names[m]].id)];
        if Took(faults(m)) {
          state := state.(keys := state.keys + [Key(names[m], creds[names[m]].id)]);
        }
        if !faults(m).ok {
          return false, if faults(m).effect then m + 1 else m;
        }
      }
      return true, |names|;
    }

    method WriteEnv(names: seq<string>, creds: map<string, Cred>, faults: nat -> Fault) returns (ok: bool, ghost e: nat)
      requires forall n :: n in names ==> n in creds
      modifies this
      ensures e <= |names| && (ok ==> e == |names|)
      ensures (forall n: nat :: faults(n).ok) ==> ok
      ensures state == old(state).(env := Written(old(state).env, names[..e], creds))
    {
      for m := 0 to |names|
        invariant state == old(state).(env := Written(old(state).env, names[..m], creds))
      {
        assert names[m] in names;
        WrittenNext(old(state).env, names, m, creds);
        if Took(faults(m)) {
          state := state.(env := state.env[names[m] := creds[names[m]]]);
        }
        if !faults(m).ok {
          return false, if faults(m).effect then m + 1 else m;
        }
      }
      return true, |names|;
    }

    method ChangeGrants(ops: seq<GrantOp>, ids: map<string, string>, faults: nat -> Fault)
      returns (ok: bool, ghost g: nat)
      modifies this
      ensures g <= |ops| && (ok ==> g == |ops|)
      ensures (forall n: nat :: faults(n).ok) ==> ok
      ensures state == old(state).(grants := AllDone(old(state).grants, ops[..g], ids))
    {
      for m := 0 to |ops|
        invariant state == old(state).(grants := AllDone(old(state).grants, ops[..m], ids))
      {
        assert ops[..m + 1][..m] == ops[..m];
        if Took(faults(m)) {
          state := state.(grants := Done(state.grants, ops[m], IdOf(ids, ops[m].keyName)));
        }
        if !faults(m).ok {
          return false, if faults(m).effect then m + 1 else m;
        }
      }
      return true, |ops|;
    }

    /** The refusals, before anything is planned: the indexes come back exactly when there is none. */
    method Check(specs: seq<KeySpec>, creds: map<string, Cred>)
      returns (found: Option<(map<string, string>, map<string, string>)>)
      ensures found.Some? <==> Ready(state, specs, creds)
      ensures found.Some? ==> Indexed(found.value.0, found.value.1)
    {
      if !(forall k | k in specs :: k.name in creds && creds[k.name].id != "" && creds[k.name].secret != "") {
        return None;
      }
      var aliases := IndexAliases(state.buckets);
      if !(forall k | k in specs :: forall b | b in k.buckets :: b.name in aliases) {
        return None;
      }
      var keyIds := IndexKeys(state.keys);
      if keyIds.None? {
        return None;
      }
      if exists k | k in specs :: k.name in keyIds.value && keyIds.value[k.name] != creds[k.name].id {
        return None;
      }
      return Some((aliases, keyIds.value));
    }

    /**
     `do_sync_keys`, with the outcomes of the reads, imports, file writes and grant calls. Refuses
     whatever is not Ready; else it ends in some Partial state, the full one when it reports Changed.
    */
    method SyncKeys(specs: seq<KeySpec>, creds: map<string, Cred>, check: bool, readable: nat -> bool,
                    imports: nat -> Fault, writes: nat -> Fault, grants: nat -> Fault)
      returns (r: Report, ghost i: nat, ghost e: nat, ghost g: nat)
      modifies this
      ensures !Ready(old(state), specs, creds) ==> r == Fail && state == old(state)
      ensures r == NoChange || r == WouldChange || check ==> state == old(state)
      ensures Ready(old(state), specs, creds) ==>
        var s := old(state);
        && i <= |ToImport(s, specs)| && e <= |ToWrite(s, specs, creds)| && g <= |GrantOps(s, specs, creds)|
        && (g > 0 ==> i == |ToImport(s, specs)|)
        && state == Partial(s, specs, creds, i, e, g)
        && (r == Changed ==>
          i == |ToImport(s, specs)| && e == |ToWrite(s, specs, creds)| && g == |GrantOps(s, specs, creds)|)
        && (r == NoChange ==> NothingToDo(s, specs, creds))
        && (r == Changed || r == WouldChange ==> !NothingToDo(s, specs, creds))
        && ((forall n: nat :: readable(n)) && (forall n: nat :: imports(n).ok && writes(n).ok && grants(n).ok) ==>
          r != Fail)
    {
      i, e, g := 0, 0, 0;
      StartPartial(state, specs, creds);
      var found := Check(specs, creds);
      if found.None? {
        return Fail, 0, 0, 0;
      }
      ToImportNamed(state, specs);
      ToWriteNamed(state, specs, creds);
      var toImport, toWrite := ToImport(state, specs), ToWrite(state, specs, creds);
      var ops := PlanGrants(specs, creds, found.value.0, found.value.1, readable);
      if ops.None? {
        return Fail, 0, 0, 0;
      }
      if toImport == [] && toWrite == [] && ops.value == [] {
        return NoChange, 0, 0, 0;
      }
      if check {
        return WouldChange, 0, 0, 0;
      }
      r, i, e, g := Execute(toImport, toWrite, ops.value, creds, imports, writes, grants);
    }

    /** The writes, in order, stopping at the first failure. */
    method Execute(toImport: seq<string>, toWrite: seq<string>, ops: seq<GrantOp>, creds: map<string, Cred>,
                   imports: nat -> Fault, writes: nat -> Fault, grants: nat -> Fault)
      returns (r: Report, ghost i: nat, ghost e: nat, ghost g: nat)
      requires (forall n :: n in toImport ==> n in creds) && (forall n :: n in toWrite ==> n in creds)
      modifies this
      ensures i <= |toImport| && e <= |toWrite| && g <= |ops| && (g > 0 ==> i == |toImport|)
      ensures forall n :: n in toImport[..i] ==> n in creds
      ensures state == State(old(state).buckets, old(state).keys + Imports(toImport[..i], creds),
        AllDone(old(state).grants, ops[..g], Ids(creds)), Written(old(state).env, toWrite[..e], creds))
      ensures r == Changed || r == Fail
      ensures r == Changed ==> i == |toImport| && e == |toWrite| && g == |ops|
      ensures (forall n: nat :: imports(n).ok && writes(n).ok && grants(n).ok) ==> r == Changed
    {
      e, g := 0, 0;
      assert Written(state.env, toWrite[..0], creds) == state.env && ops[..0] == [];
      var ok;
      ok, i := Import(toImport, creds, imports);
      if !ok {
        return Fail, i, 0, 0;
      }
      ok, e := WriteEnv(toWrite, creds, writes);
      if !ok {
        return Fail, i, e, 0;
      }
      ok, g := ChangeGrants(ops, Ids(creds), grants);
      return if ok then Changed else Fail, i, e, g;
    }
  }

  lemma StartPartial(s: State, specs: seq<KeySpec>, creds: map<string, Cred>)
    ensures CredsComplete(specs, creds) ==> Partial(s, specs, creds, 0, 0, 0) == s
  {
  }

  /**
   One run after another, each cut off anywhere: the second starts from a state it may sync, and if it
   succeeds the end is the state one undisturbed run from the start would have reached.
  */
  lemma RerunReachesSameState(s: State, specs: seq<KeySpec>, creds: map<string, Cred>, i: nat, e: nat, g: nat)
    requires Syncable(s, specs, creds)
    requires i <= |ToImport(s, specs)| && e <= |ToWrite(s, specs, creds)| && g <= |GrantOps(s, specs, creds)|
    requires g > 0 ==> i == |ToImport(s, specs)|
    ensures var mid := Partial(s, specs, creds, i, e, g);
      && Syncable(mid, specs, creds)
      && var again := Full(mid, specs, creds);
      var once := Full(s, specs, creds);
      Synced(again, specs, creds) && SameView(again, once)
  {
    StillSyncable(s, specs, creds, i, e, g);
    var mid := Partial(s, specs, creds, i, e, g);
    PartialFramed(s, specs, creds, i, e, g);
    RerunFrom(s, mid, specs, creds);
  }

  lemma RerunFrom(s: State, mid: State, specs: seq<KeySpec>, creds: map<string, Cred>)
    requires Syncable(s, specs, creds) && Syncable(mid, specs, creds) && Framed(s, mid, specs, creds)
    ensures var again := Full(mid, specs, creds);
      var once := Full(s, specs, creds);
      Synced(again, specs, creds) && SameView(again, once)
  {
    FullIsSynced(s, specs, creds);
    FullIsSynced(mid, specs, creds);
    var again := Full(mid, specs, creds);
    var once := Full(s, specs, creds);
    PartialFramed(s, specs, creds, |ToImport(s, specs)|, |ToWrite(s, specs, creds)|, |GrantOps(s, specs, creds)|);
    PartialFramed(mid, specs, creds, |ToImport(mid, specs)|, |ToWrite(mid, specs, creds)|,
      |GrantOps(mid, specs, creds)|);
    FramedTransitive(s, mid, again, specs, creds);
    SyncedIsUnique(s, again, once, specs, creds);
  }
}
