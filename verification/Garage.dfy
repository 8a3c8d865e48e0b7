/**
 `sync-keys` of ansible/synology/roles/synology_garage/files/apply_garage.py: importing keys,
 rendering their env files and converging per-bucket grants, when any admin call or file write
 may fail.
*/
module Garage {
  import opened Wrappers

  datatype Perms = Perms(read: bool, write: bool, owner: bool)

  const NONE := Perms(false, false, false)

  function Or(a: Perms, b: Perms): Perms {
    Perms(a.read || b.read, a.write || b.write, a.owner || b.owner)
  }

  /** `a` without `b`: what to allow (wanted, not current), what to deny (current, not wanted). */
  function Minus(a: Perms, b: Perms): Perms {
    Perms(a.read && !b.read, a.write && !b.write, a.owner && !b.owner)
  }

  datatype Key = Key(name: string, id: string)
  datatype Bucket = Bucket(id: string, aliases: seq<string>)
  datatype Cred = Cred(id: string, secret: string)

  // One bucket of one key: the permissions the spec gives it there.
  datatype BucketSpec = BucketSpec(name: string, want: Perms)
  datatype KeySpec = KeySpec(name: string, buckets: seq<BucketSpec>)

  datatype Grant = Grant(bucket: string, key: string)
  type Grants = map<Grant, Perms>

  /** Garage, and the env files on the NAS. */
  datatype State = State(buckets: seq<Bucket>, keys: seq<Key>, grants: Grants, env: map<string, Cred>)

  datatype GrantOp = GrantOp(keyName: string, bucket: string, allow: bool, flags: Perms)

  /** A declared pair, with the bucket's alias resolved. */
  datatype Pair = Pair(keyName: string, bucket: string, want: Perms)

  datatype Report = NoChange | WouldChange | Changed | Fail

  function Get(gs: Grants, g: Grant): Perms {
    if g in gs then gs[g] else NONE
  }

  /** `bucket_id_by_alias`: a later bucket wins. */
  function ByAlias(buckets: seq<Bucket>, alias: string): Option<string> {
    if buckets == [] then None
    else
      var last := buckets[|buckets| - 1];
      if alias in last.aliases then Some(last.id) else ByAlias(buckets[..|buckets| - 1], alias)
  }

  predicate HasKey(s: State, name: string) {
    exists k :: k in s.keys && k.name == name
  }

  // ----- what may be synced, and what synced means -----

  ghost predicate CredsComplete(specs: seq<KeySpec>, creds: map<string, Cred>) {
    forall k :: k in specs ==> k.name in creds && creds[k.name].id != "" && creds[k.name].secret != ""
  }

  /** What the run insists on: credentials, buckets that exist, key names unique, no rotated id. */
  ghost predicate Ready(s: State, specs: seq<KeySpec>, creds: map<string, Cred>) {
    && CredsComplete(specs, creds)
    && (forall k, b :: k in specs && b in k.buckets ==> ByAlias(s.buckets, b.name).Some?)
    && (forall i, j :: 0 <= i < j < |s.keys| ==> s.keys[i].name != s.keys[j].name)
    && (forall k, x :: k in specs && x in s.keys && x.name == k.name ==> x.id == creds[k.name].id)
  }

  /** Key names and ids distinct, and no two names of one key's buckets mean the same bucket. */
  ghost predicate Unambiguous(s: State, specs: seq<KeySpec>, creds: map<string, Cred>) {
    && (forall i, j :: 0 <= i < j < |specs| ==> specs[i].name != specs[j].name)
    && (forall j, k :: j in specs && k in specs && j.name != k.name && j.name in creds && k.name in creds ==>
          creds[j.name].id != creds[k.name].id)
    && (forall k, x :: k in specs && k.name in creds && x in s.keys && x.id == creds[k.name].id ==> x.name == k.name)
    && (forall k, i, j :: k in specs && 0 <= i < j < |k.buckets| ==>
          ByAlias(s.buckets, k.buckets[i].name) != ByAlias(s.buckets, k.buckets[j].name))
  }

  /** A key that is not there has no grants. */
  ghost predicate GrantsOfKeys(s: State) {
    forall g :: g in s.grants && s.grants[g] != NONE ==> exists k :: k in s.keys && k.id == g.key
  }

  ghost predicate Declared(s: State, specs: seq<KeySpec>, creds: map<string, Cred>, g: Grant) {
    exists k, b :: k in specs && b in k.buckets && k.name in creds
      && g == Grant(ByAliasOr(s.buckets, b.name), creds[k.name].id)
  }

  function ByAliasOr(buckets: seq<Bucket>, alias: string): string {
    var id := ByAlias(buckets, alias);
    if id.Some? then id.value else ""
  }

  /** Every declared key is there with its env file, and has exactly the declared permissions. */
  ghost predicate Synced(s: State, specs: seq<KeySpec>, creds: map<string, Cred>) {
    && (forall k :: k in specs ==>
          && k.name in creds && Key(k.name, creds[k.name].id) in s.keys
          && k.name in s.env && s.env[k.name] == creds[k.name])
    && (forall k, b :: k in specs && b in k.buckets ==>
          Get(s.grants, Grant(ByAliasOr(s.buckets, b.name), creds[k.name].id)) == b.want)
  }

  /** Only what is declared may differ, and declared keys and env files only appear. */
  ghost predicate Framed(s: State, s': State, specs: seq<KeySpec>, creds: map<string, Cred>) {
    && s'.buckets == s.buckets
    && s.keys <= s'.keys
    && (forall i :: |s.keys| <= i < |s'.keys| ==> NewKey(s, specs, creds, s'.keys[i]))
    && (forall g :: !Declared(s, specs, creds, g) ==> Get(s'.grants, g) == Get(s.grants, g))
    && (forall n :: n in s.env ==> n in s'.env && (s'.env[n] == s.env[n] || Rendered(specs, creds, n, s'.env[n])))
    && (forall n :: n in s'.env && n !in s.env ==> Rendered(specs, creds, n, s'.env[n]))
  }

  /** `x` is a declared key that `s` lacks, under the id of its credential. */
  ghost predicate NewKey(s: State, specs: seq<KeySpec>, creds: map<string, Cred>, x: Key) {
    x.name in creds && x.id == creds[x.name].id && !HasKey(s, x.name) && exists k :: k in specs && k.name == x.name
  }

  /** `c` is what a declared key's env file is rendered from. */
  ghost predicate Rendered(specs: seq<KeySpec>, creds: map<string, Cred>, n: string, c: Cred) {
    n in creds && c == creds[n] && exists k :: k in specs && k.name == n
  }

  /** The two states have the same keys, permissions and env files. */
  ghost predicate SameView(a: State, b: State) {
    && (forall k :: k in a.keys <==> k in b.keys)
    && (forall g :: Get(a.grants, g) == Get(b.grants, g))
    && a.env == b.env
  }

  // ----- grants -----

  /** The grant a pair is about. */
  function GrantOf(p: Pair, ids: map<string, string>): Grant {
    Grant(p.bucket, IdOf(ids, p.keyName))
  }

  function OpsFor(p: Pair, current: Perms): seq<GrantOp> {
    var allow, deny := Minus(p.want, current), Minus(current, p.want);
    (if allow != NONE then [GrantOp(p.keyName, p.bucket, true, allow)] else [])
    + (if deny != NONE then [GrantOp(p.keyName, p.bucket, false, deny)] else [])
  }

  function IdOf(ids: map<string, string>, name: string): string {
    if name in ids then ids[name] else ""
  }

  function Done(gs: Grants, op: GrantOp, keyId: string): Grants {
    var g := Grant(op.bucket, keyId);
    gs[g := if op.allow then Or(Get(gs, g), op.flags) else Minus(Get(gs, g), op.flags)]
  }

  function AllDone(gs: Grants, ops: seq<GrantOp>, ids: map<string, string>): Grants
  {
    if ops == [] then gs
    else
      var last := ops[|ops| - 1];
      Done(AllDone(gs, ops[..|ops| - 1], ids), last, IdOf(ids, last.keyName))
  }

  lemma {:induction false} AllDoneConcat(gs: Grants, a: seq<GrantOp>, b: seq<GrantOp>, ids: map<string, string>)
    ensures AllDone(gs, a + b, ids) == AllDone(AllDone(gs, a, ids), b, ids)
  {
    if b == [] {
      assert a + b == a;
    } else {
      var init := b[..|b| - 1];
      assert (a + b)[..|a + b| - 1] == a + init;
      AllDoneConcat(gs, a, init, ids);
    }
  }

  /** Allow what is missing, deny what is too much: exactly the wanted permissions, and nothing else moves. */
  lemma OpsForReach(gs: Grants, p: Pair, ids: map<string, string>)
    ensures var g, ops := GrantOf(p, ids), OpsFor(p, Get(gs, GrantOf(p, ids)));
      var gs' := AllDone(gs, ops, ids);
      Get(gs', g) == p.want && forall h :: h != g ==> Get(gs', h) == Get(gs, h)
  {
    var g := GrantOf(p, ids);
    var current := Get(gs, g);
    var allow, deny := Minus(p.want, current), Minus(current, p.want);
    var ops := OpsFor(p, current);
    var a, b := GrantOp(p.keyName, p.bucket, true, allow), GrantOp(p.keyName, p.bucket, false, deny);
    var id := IdOf(ids, p.keyName);
    assert AllDone(gs, [], ids) == gs;
    assert [a][..0] == [] && [b][..0] == [] && [a, b][..1] == [a];
    assert AllDone(gs, [a], ids) == Done(gs, a, id) && AllDone(gs, [b], ids) == Done(gs, b, id);
    assert AllDone(gs, [a, b], ids) == Done(Done(gs, a, id), b, id);
    assert ops == if allow != NONE then if deny != NONE then [a, b] else [a] else if deny != NONE then [b] else [];
  }

  // ----- the plan of a run -----

  function Ids(creds: map<string, Cred>): map<string, string> {
    map n | n in creds :: creds[n].id
  }

  function ToImport(s: State, specs: seq<KeySpec>): seq<string> {
    if specs == [] then []
    else (if HasKey(s, specs[0].name) then [] else [specs[0].name]) + ToImport(s, specs[1..])
  }

  function ToWrite(s: State, specs: seq<KeySpec>, creds: map<string, Cred>): seq<string>
    requires forall k :: k in specs ==> k.name in creds
  {
    if specs == [] then []
    else
      var n := specs[0].name;
      (if n in s.env && s.env[n] == creds[n] then [] else [n]) + ToWrite(s, specs[1..], creds)
  }

  function PairsOf(s: State, name: string, buckets: seq<BucketSpec>): (r: seq<Pair>)
    ensures |r| == |buckets|
  {
    seq(|buckets|, i requires 0 <= i < |buckets| => PairOf(s, name, buckets[i]))
  }

  function PairOf(s: State, name: string, b: BucketSpec): Pair {
    Pair(name, ByAliasOr(s.buckets, b.name), b.want)
  }

  function Pairs(s: State, specs: seq<KeySpec>): seq<Pair> {
    if specs == [] then []
    else Pairs(s, specs[..|specs| - 1]) + PairsOf(s, specs[|specs| - 1].name, specs[|specs| - 1].buckets)
  }

  /** What the diff takes for the current permissions: none for a key yet to be imported. */
  function Current(s: State, p: Pair, ids: map<string, string>): Perms
  {
    if HasKey(s, p.keyName) then Get(s.grants, GrantOf(p, ids)) else NONE
  }

  function OpsOf(s: State, pairs: seq<Pair>, ids: map<string, string>): seq<GrantOp>
  {
    if pairs == [] then []
    else
      var last := pairs[|pairs| - 1];
      OpsOf(s, pairs[..|pairs| - 1], ids) + OpsFor(last, Current(s, last, ids))
  }

  lemma {:induction false} OpsOfNamed(s: State, pairs: seq<Pair>, ids: map<string, string>)
    ensures forall op :: op in OpsOf(s, pairs, ids) ==>
      exists p :: p in pairs && op.keyName == p.keyName && op.bucket == p.bucket
  {
    if pairs != [] {
      OpsOfNamed(s, pairs[..|pairs| - 1], ids);
      assert pairs[|pairs| - 1] in pairs;
    }
  }

  lemma {:induction false} PairsNamed(s: State, specs: seq<KeySpec>)
    ensures forall p :: p in Pairs(s, specs) <==>
      exists k, b :: k in specs && b in k.buckets && p == Pair(k.name, ByAliasOr(s.buckets, b.name), b.want)
  {
    if specs != [] {
      var init, last := specs[..|specs| - 1], specs[|specs| - 1];
      PairsNamed(s, init);
      var more := PairsOf(s, last.name, last.buckets);
      assert specs == init + [last];
      forall p ensures p in more <==>
        exists b :: b in last.buckets && p == Pair(last.name, ByAliasOr(s.buckets, b.name), b.want) {
        if b :| b in last.buckets && p == Pair(last.name, ByAliasOr(s.buckets, b.name), b.want) {
          var i :| 0 <= i < |last.buckets| && last.buckets[i] == b;
          assert more[i] == p;
        }
      }
    }
  }

  ghost predicate GrantsDistinct(pairs: seq<Pair>, ids: map<string, string>)
  {
    forall i, j :: 0 <= i < j < |pairs| ==>
      GrantOf(pairs[i], ids) != GrantOf(pairs[j], ids)
  }

  /** All planned operations done: every pair has exactly what it wants, and nothing else moved. */
  lemma {:induction false} OpsReach(s: State, pairs: seq<Pair>, ids: map<string, string>)
    requires GrantsDistinct(pairs, ids)
    requires forall p :: p in pairs ==> Current(s, p, ids) == Get(s.grants, GrantOf(p, ids))
    ensures var gs := AllDone(s.grants, OpsOf(s, pairs, ids), ids);
      && (forall p :: p in pairs ==> Get(gs, GrantOf(p, ids)) == p.want)
      && (forall g :: (forall p :: p in pairs ==> g != GrantOf(p, ids)) ==> Get(gs, g) == Get(s.grants, g))
  {
    if pairs != [] {
      var init, last := pairs[..|pairs| - 1], pairs[|pairs| - 1];
      assert pairs == init + [last];
      OpsReach(s, init, ids);
      var gs := AllDone(s.grants, OpsOf(s, init, ids), ids);
      var g := GrantOf(last, ids);
      forall p | p in init ensures g != GrantOf(p, ids) {
        var i :| 0 <= i < |init| && init[i] == p;
        assert pairs[i] == p;
      }
      OpsForReach(gs, last, ids);
      AllDoneConcat(s.grants, OpsOf(s, init, ids), OpsFor(last, Current(s, last, ids)), ids);
    }
  }

  /** Any operations move only the grants they are about. */
  lemma {:induction false} AllDoneFrame(gs: Grants, ops: seq<GrantOp>, ids: map<string, string>, g: Grant)
    requires forall op :: op in ops ==> g != Grant(op.bucket, IdOf(ids, op.keyName))
    ensures Get(AllDone(gs, ops, ids), g) == Get(gs, g)
  {
    if ops != [] {
      AllDoneFrame(gs, ops[..|ops| - 1], ids, g);
      assert ops[|ops| - 1] in ops;
    }
  }

  // ----- a run, cut off anywhere -----

  function Imports(names: seq<string>, creds: map<string, Cred>): seq<Key>
    requires forall n :: n in names ==> n in creds
  {
    seq(|names|, i requires 0 <= i < |names| => assert names[i] in names; Key(names[i], creds[names[i]].id))
  }

  function Written(env: map<string, Cred>, names: seq<string>, creds: map<string, Cred>): map<string, Cred> {
    env + map n | n in names && n in creds :: creds[n]
  }

  /** After `i` imports, `e` env files and `g` grant operations. */
  function Partial(s: State, specs: seq<KeySpec>, creds: map<string, Cred>, i: nat, e: nat, g: nat): State
    requires CredsComplete(specs, creds)
    requires i <= |ToImport(s, specs)| && e <= |ToWrite(s, specs, creds)| && g <= |GrantOps(s, specs, creds)|
  {
    ToImportNamed(s, specs);
    assert forall n :: n in ToImport(s, specs)[..i] ==> n in ToImport(s, specs);
    State(s.buckets, s.keys + Imports(ToImport(s, specs)[..i], creds),
      AllDone(s.grants, GrantOps(s, specs, creds)[..g], Ids(creds)),
      Written(s.env, ToWrite(s, specs, creds)[..e], creds))
  }

  /** After all of it. */
  function Full(s: State, specs: seq<KeySpec>, creds: map<string, Cred>): State
    requires CredsComplete(specs, creds)
  {
    Partial(s, specs, creds, |ToImport(s, specs)|, |ToWrite(s, specs, creds)|, |GrantOps(s, specs, creds)|)
  }

  function GrantOps(s: State, specs: seq<KeySpec>, creds: map<string, Cred>): (r: seq<GrantOp>)
    requires CredsComplete(specs, creds)
  {
    OpsOf(s, Pairs(s, specs), Ids(creds))
  }

  lemma {:induction false} ToImportNamed(s: State, specs: seq<KeySpec>)
    ensures forall n :: n in ToImport(s, specs) <==> !HasKey(s, n) && exists k :: k in specs && k.name == n
  {
    if specs != [] {
      ToImportNamed(s, specs[1..]);
      assert specs == [specs[0]] + specs[1..];
    }
  }

  lemma {:induction false} ToWriteNamed(s: State, specs: seq<KeySpec>, creds: map<string, Cred>)
    requires forall k :: k in specs ==> k.name in creds
    ensures forall n :: n in ToWrite(s, specs, creds) <==>
      (exists k :: k in specs && k.name == n) && !(n in s.env && s.env[n] == creds[n])
  {
    if specs != [] {
      ToWriteNamed(s, specs[1..], creds);
      assert specs == [specs[0]] + specs[1..];
    }
  }

  /** Wherever a run is cut off, only declared things have changed. */
  lemma PartialFramed(s: State, specs: seq<KeySpec>, creds: map<string, Cred>, i: nat, e: nat, g: nat)
    requires CredsComplete(specs, creds)
    requires i <= |ToImport(s, specs)| && e <= |ToWrite(s, specs, creds)| && g <= |GrantOps(s, specs, creds)|
    ensures Framed(s, Partial(s, specs, creds, i, e, g), specs, creds)
  {
    var s' := Partial(s, specs, creds, i, e, g);
    ImportsAreNew(s, specs, creds, i);
    forall h | !Declared(s, specs, creds, h) ensures Get(s'.grants, h) == Get(s.grants, h) {
      UndeclaredRests(s, specs, creds, g, h);
    }
    assert forall n :: n in ToWrite(s, specs, creds)[..e] ==> n in ToWrite(s, specs, creds);
    ToWriteNamed(s, specs, creds);
    WrittenFramed(s.env, ToWrite(s, specs, creds)[..e], specs, creds);
  }

  lemma ImportsAreNew(s: State, specs: seq<KeySpec>, creds: map<string, Cred>, i: nat)
    requires CredsComplete(specs, creds) && i <= |ToImport(s, specs)|
    ensures forall n :: n in ToImport(s, specs)[..i] ==> n in creds
    ensures var keys := s.keys + Imports(ToImport(s, specs)[..i], creds);
      s.keys <= keys && forall k :: |s.keys| <= k < |keys| ==> NewKey(s, specs, creds, keys[k])
  {
    ToImportNamed(s, specs);
    var names := ToImport(s, specs)[..i];
    assert forall n :: n in names ==> n in ToImport(s, specs);
    var keys := s.keys + Imports(names, creds);
    forall k | |s.keys| <= k < |keys| ensures NewKey(s, specs, creds, keys[k]) {
      assert names[k - |s.keys|] in names;
    }
  }

  lemma WrittenFramed(env: map<string, Cred>, names: seq<string>, specs: seq<KeySpec>, creds: map<string, Cred>)
    requires forall n :: n in names ==> n in creds && exists k :: k in specs && k.name == n
    ensures var env' := Written(env, names, creds);
      && (forall n :: n in env ==> n in env' && (env'[n] == env[n] || Rendered(specs, creds, n, env'[n])))
      && (forall n :: n in env' && n !in env ==> Rendered(specs, creds, n, env'[n]))
  {
  }

  lemma UndeclaredRests(s: State, specs: seq<KeySpec>, creds: map<string, Cred>, g: nat, h: Grant)
    requires CredsComplete(specs, creds) && g <= |GrantOps(s, specs, creds)| && !Declared(s, specs, creds, h)
    ensures Get(AllDone(s.grants, GrantOps(s, specs, creds)[..g], Ids(creds)), h) == Get(s.grants, h)
  {
    var ops := GrantOps(s, specs, creds);
    PairsNamed(s, specs);
    OpsOfNamed(s, Pairs(s, specs), Ids(creds));
    forall op | op in ops[..g] ensures h != Grant(op.bucket, IdOf(Ids(creds), op.keyName)) {
      assert op in ops;
      var p :| p in Pairs(s, specs) && op.keyName == p.keyName && op.bucket == p.bucket;
      var k, b :| k in specs && b in k.buckets && p == Pair(k.name, ByAliasOr(s.buckets, b.name), b.want);
    }
    AllDoneFrame(s.grants, ops[..g], Ids(creds), h);
  }

  /** The conditions under which a run converges. */
  ghost predicate Syncable(s: State, specs: seq<KeySpec>, creds: map<string, Cred>) {
    Ready(s, specs, creds) && Unambiguous(s, specs, creds) && GrantsOfKeys(s)
  }

  lemma {:induction false} PairsDistinct(s: State, specs: seq<KeySpec>, all: seq<KeySpec>, creds: map<string, Cred>)
    requires Syncable(s, all, creds) && specs <= all
    ensures GrantsDistinct(Pairs(s, specs), Ids(creds))
  {
    PairsNamed(s, specs);
    if specs != [] {
      var init, last := specs[..|specs| - 1], specs[|specs| - 1];
      PairsDistinct(s, init, all, creds);
      PairsNamed(s, init);
      var a, b := Pairs(s, init), PairsOf(s, last.name, last.buckets);
      var pairs, ids := Pairs(s, specs), Ids(creds);
      assert all[|specs| - 1] == last && last in all;
      forall i, j | 0 <= i < j < |pairs|
        ensures GrantOf(pairs[i], ids) != GrantOf(pairs[j], ids)
      {
        if j < |a| {
          assert pairs[i] == a[i] && pairs[j] == a[j];
        } else if i >= |a| {
          LastPairsDistinct(s, last, all, creds, i - |a|, j - |a|);
        } else {
          assert pairs[i] == a[i] && a[i] in a && pairs[j] == b[j - |a|];
          var k, x :| k in init && x in k.buckets && a[i] == Pair(k.name, ByAliasOr(s.buckets, x.name), x.want);
          var n :| 0 <= n < |init| && init[n] == k;
          assert all[n] == k;
        }
      }
    }
  }

  lemma LastPairsDistinct(s: State, k: KeySpec, specs: seq<KeySpec>, creds: map<string, Cred>, i: nat, j: nat)
    requires Syncable(s, specs, creds) && k in specs && i < j < |k.buckets|
    ensures PairsOf(s, k.name, k.buckets)[i].bucket != PairsOf(s, k.name, k.buckets)[j].bucket
  {
    assert k.buckets[i] in k.buckets && k.buckets[j] in k.buckets;
  }

  lemma CurrentIsTrue(s: State, specs: seq<KeySpec>, creds: map<string, Cred>, p: Pair)
    requires Syncable(s, specs, creds) && p in Pairs(s, specs)
    ensures Current(s, p, Ids(creds)) == Get(s.grants, GrantOf(p, Ids(creds)))
  {
  }

  /** A run that is not cut off makes everything declared exactly as declared. */
  lemma FullIsSynced(s: State, specs: seq<KeySpec>, creds: map<string, Cred>)
    requires Syncable(s, specs, creds)
    ensures Synced(Full(s, specs, creds), specs, creds)
  {
    FullKeys(s, specs, creds);
    FullGrants(s, specs, creds);
    FullPartial(s, specs, creds);
  }

  lemma FullPartial(s: State, specs: seq<KeySpec>, creds: map<string, Cred>)
    requires CredsComplete(specs, creds)
    ensures forall n :: n in ToImport(s, specs) ==> n in creds
    ensures Full(s, specs, creds)
         == State(s.buckets, s.keys + Imports(ToImport(s, specs), creds),
              AllDone(s.grants, GrantOps(s, specs, creds), Ids(creds)), Written(s.env, ToWrite(s, specs, creds), creds))
  {
    ToImportNamed(s, specs);
    var a, b, c := ToImport(s, specs), ToWrite(s, specs, creds), GrantOps(s, specs, creds);
    assert a[..|a|] == a && b[..|b|] == b && c[..|c|] == c;
  }

  lemma FullKeys(s: State, specs: seq<KeySpec>, creds: map<string, Cred>)
    requires Syncable(s, specs, creds)
    ensures var names := ToImport(s, specs);
      && (forall n :: n in names ==> n in creds)
      && var env := Written(s.env, ToWrite(s, specs, creds), creds);
      forall k :: k in specs ==>
        Key(k.name, creds[k.name].id) in s.keys + Imports(names, creds) && k.name in env && env[k.name] == creds[k.name]
  {
    ToImportNamed(s, specs);
    ToWriteNamed(s, specs, creds);
    var names := ToImport(s, specs);
    forall k | k in specs ensures Key(k.name, creds[k.name].id) in s.keys + Imports(names, creds) {
      if HasKey(s, k.name) {
        var x :| x in s.keys && x.name == k.name;
        assert x == Key(k.name, creds[k.name].id);
      } else {
        var i :| 0 <= i < |names| && names[i] == k.name;
        assert Imports(names, creds)[i] == Key(k.name, creds[k.name].id);
      }
    }
  }

  lemma FullGrants(s: State, specs: seq<KeySpec>, creds: map<string, Cred>)
    requires Syncable(s, specs, creds)
    ensures var gs := AllDone(s.grants, GrantOps(s, specs, creds), Ids(creds));
      forall k, b :: k in specs && b in k.buckets ==>
        Get(gs, Grant(ByAliasOr(s.buckets, b.name), creds[k.name].id)) == b.want
  {
    PairsNamed(s, specs);
    PairsDistinct(s, specs, specs, creds);
    forall p | p in Pairs(s, specs)
      ensures Current(s, p, Ids(creds)) == Get(s.grants, GrantOf(p, Ids(creds)))
    {
      CurrentIsTrue(s, specs, creds, p);
    }
    OpsReach(s, Pairs(s, specs), Ids(creds));
    forall k, b | k in specs && b in k.buckets
      ensures Pair(k.name, ByAliasOr(s.buckets, b.name), b.want) in Pairs(s, specs)
    {
    }
  }

  // ----- rerunning -----

  lemma {:induction false} ToImportDistinct(s: State, specs: seq<KeySpec>)
    requires forall i, j :: 0 <= i < j < |specs| ==> specs[i].name != specs[j].name
    ensures var r := ToImport(s, specs); forall i, j :: 0 <= i < j < |r| ==> r[i] != r[j]
  {
    if specs != [] {
      ToImportDistinct(s, specs[1..]);
      ToImportNamed(s, specs[1..]);
      var r := ToImport(s, specs);
      if !HasKey(s, specs[0].name) {
        forall j | 0 < j < |r| ensures r[j] != r[0] {
          assert r[j] in ToImport(s, specs[1..]);
        }
      }
    }
  }

  /** Grant operations only run once every import is done; cut off anywhere, the run can be repeated. */
  lemma StillSyncable(s: State, specs: seq<KeySpec>, creds: map<string, Cred>, i: nat, e: nat, g: nat)
    requires Syncable(s, specs, creds)
    requires i <= |ToImport(s, specs)| && e <= |ToWrite(s, specs, creds)| && g <= |GrantOps(s, specs, creds)|
    requires g > 0 ==> i == |ToImport(s, specs)|
    ensures Syncable(Partial(s, specs, creds, i, e, g), specs, creds)
  {
    KeysStillFine(s, specs, creds, i);
    var s' := Partial(s, specs, creds, i, e, g);
    forall h | h in s'.grants && s'.grants[h] != NONE ensures exists k :: k in s'.keys && k.id == h.key {
      if Get(s.grants, h) != NONE {
        var k :| k in s.keys && k.id == h.key;
        assert k in s'.keys;
      } else {
        GrantedIsImported(s, specs, creds, i, g, h);
      }
    }
  }

  lemma GrantedIsImported(s: State, specs: seq<KeySpec>, creds: map<string, Cred>, i: nat, g: nat, h: Grant)
    requires Syncable(s, specs, creds) && i <= |ToImport(s, specs)| && g <= |GrantOps(s, specs, creds)|
    requires g > 0 ==> i == |ToImport(s, specs)|
    requires Get(s.grants, h) == NONE
    requires Get(AllDone(s.grants, GrantOps(s, specs, creds)[..g], Ids(creds)), h) != NONE
    ensures forall n :: n in ToImport(s, specs)[..i] ==> n in creds
    ensures exists k :: k in s.keys + Imports(ToImport(s, specs)[..i], creds) && k.id == h.key
  {
    ToImportNamed(s, specs);
    assert forall n :: n in ToImport(s, specs)[..i] ==> n in ToImport(s, specs);
    if !Declared(s, specs, creds, h) {
      UndeclaredRests(s, specs, creds, g, h);
    }
    assert g > 0;
    assert ToImport(s, specs)[..i] == ToImport(s, specs);
    var k, b :| k in specs && b in k.buckets && k.name in creds &&
      h == Grant(ByAliasOr(s.buckets, b.name), creds[k.name].id);
    FullKeys(s, specs, creds);
    assert Key(k.name, creds[k.name].id).id == h.key;
  }

  lemma KeysStillFine(s: State, specs: seq<KeySpec>, creds: map<string, Cred>, i: nat)
    requires Syncable(s, specs, creds) && i <= |ToImport(s, specs)|
    ensures forall n :: n in ToImport(s, specs)[..i] ==> n in creds
    ensures var keys := s.keys + Imports(ToImport(s, specs)[..i], creds);
      && (forall a, b :: 0 <= a < b < |keys| ==> keys[a].name != keys[b].name)
      && (forall k, x :: k in specs && x in keys && x.name == k.name ==> x.id == creds[k.name].id)
      && (forall k, x :: k in specs && k.name in creds && x in keys && x.id == creds[k.name].id ==> x.name == k.name)
  {
    ToImportNamed(s, specs);
    ToImportDistinct(s, specs);
    var names := ToImport(s, specs)[..i];
    assert forall n :: n in names ==> n in ToImport(s, specs);
    var more := Imports(names, creds);
    var keys := s.keys + more;
    forall x | x in more ensures x.name in names && x.id == creds[x.name].id {
    }
    forall a, b | 0 <= a < b < |keys| ensures keys[a].name != keys[b].name {
      if a < |s.keys| <= b {
        assert keys[a] in s.keys && more[b - |s.keys|] in more;
      }
    }
  }

  lemma {:induction false} NoOpsOf(s: State, pairs: seq<Pair>, ids: map<string, string>)
    requires forall p :: p in pairs ==> Current(s, p, ids) == p.want
    ensures OpsOf(s, pairs, ids) == []
  {
    if pairs != [] {
      NoOpsOf(s, pairs[..|pairs| - 1], ids);
      assert pairs[|pairs| - 1] in pairs;
    }
  }

  predicate NothingToDo(s: State, specs: seq<KeySpec>, creds: map<string, Cred>)
    requires CredsComplete(specs, creds)
  {
    ToImport(s, specs) == [] && ToWrite(s, specs, creds) == [] && GrantOps(s, specs, creds) == []
  }

  /** A run has nothing to do exactly when everything is already as declared. */
  lemma NothingToDoIffSynced(s: State, specs: seq<KeySpec>, creds: map<string, Cred>)
    requires Syncable(s, specs, creds)
    ensures NothingToDo(s, specs, creds) <==> Synced(s, specs, creds)
  {
    if NothingToDo(s, specs, creds) {
      FullIsSynced(s, specs, creds);
      FullPartial(s, specs, creds);
      assert s.keys + Imports([], creds) == s.keys;
      assert Written(s.env, [], creds) == s.env;
    }
    if Synced(s, specs, creds) {
      SyncedLeavesNothing(s, specs, creds);
    }
  }

  lemma SyncedLeavesNothing(s: State, specs: seq<KeySpec>, creds: map<string, Cred>)
    requires Syncable(s, specs, creds) && Synced(s, specs, creds)
    ensures NothingToDo(s, specs, creds)
  {
    SyncedNoKeys(s, specs, creds);
    SyncedNoGrants(s, specs, creds);
  }

  lemma SyncedNoKeys(s: State, specs: seq<KeySpec>, creds: map<string, Cred>)
    requires CredsComplete(specs, creds) && Synced(s, specs, creds)
    ensures ToImport(s, specs) == [] && ToWrite(s, specs, creds) == []
  {
    ToImportNamed(s, specs);
    ToWriteNamed(s, specs, creds);
    assert forall n :: n !in ToImport(s, specs);
    assert forall n :: n !in ToWrite(s, specs, creds);
    assert forall xs: seq<string> :: xs == [] || xs[0] in xs;
  }

  lemma SyncedNoGrants(s: State, specs: seq<KeySpec>, creds: map<string, Cred>)
    requires Syncable(s, specs, creds) && Synced(s, specs, creds)
    ensures GrantOps(s, specs, creds) == []
  {
    PairsNamed(s, specs);
    forall p | p in Pairs(s, specs) ensures Current(s, p, Ids(creds)) == p.want {
      CurrentIsTrue(s, specs, creds, p);
    }
    NoOpsOf(s, Pairs(s, specs), Ids(creds));
  }

  /** However often runs failed in between, runs that succeed end in the same state. */
  lemma SyncedIsUnique(s: State, a: State, b: State, specs: seq<KeySpec>, creds: map<string, Cred>)
    requires Framed(s, a, specs, creds) && Synced(a, specs, creds)
    requires Framed(s, b, specs, creds) && Synced(b, specs, creds)
    ensures SameView(a, b)
  {
    SyncedKeys(s, a, b, specs, creds);
    SyncedKeys(s, b, a, specs, creds);
    forall g ensures Get(a.grants, g) == Get(b.grants, g) {
      if Declared(s, specs, creds, g) {
        var k, x :| k in specs && x in k.buckets && k.name in creds &&
          g == Grant(ByAliasOr(s.buckets, x.name), creds[k.name].id);
      }
    }
    forall n ensures n in a.env ==> n in b.env && a.env[n] == b.env[n] {
      SyncedEnv(s, a, b, specs, creds, n);
    }
    forall n ensures n in b.env ==> n in a.env {
      SyncedEnv(s, b, a, specs, creds, n);
    }
  }

  lemma SyncedEnv(s: State, a: State, b: State, specs: seq<KeySpec>, creds: map<string, Cred>, n: string)
    requires Framed(s, a, specs, creds) && Synced(a, specs, creds)
    requires Framed(s, b, specs, creds) && Synced(b, specs, creds)
    ensures n in a.env ==> n in b.env && a.env[n] == b.env[n]
  {
  }

  lemma SyncedKeys(s: State, a: State, b: State, specs: seq<KeySpec>, creds: map<string, Cred>)
    requires Framed(s, a, specs, creds) && Framed(s, b, specs, creds) && Synced(b, specs, creds)
    ensures forall k :: k in a.keys ==> k in b.keys
  {
  }

  lemma FramedTransitive(a: State, b: State, c: State, specs: seq<KeySpec>, creds: map<string, Cred>)
    requires Framed(a, b, specs, creds) && Framed(b, c, specs, creds)
    ensures Framed(a, c, specs, creds)
  {
  }
}
