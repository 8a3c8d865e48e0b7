/**
 `_diff_lists` of ansible/synology/roles/synology_app_portal/files/apply_app_portal.py: a list of
 entries is compared with DSM's, missing ones created, differing ones updated, others deleted.
*/
module AppPortal {
  import opened Ascii
  import opened JsonValues
  import opened Wrappers

  // ----- which entry is which -----

  /** `_list_key`; None where the key is false, which leaves the entry out of the comparison. */
  function ListKey(e: Json): Option<Json> {
    var fe := Get(e, "frontend");
    if FrontKeyed(e) then Some(Str("fe:" + Lower(Text(Get(fe, "fqdn"))) + ":" + Text(Get(fe, "port"))))
    else if Truthy(Get(e, "id")) then Some(Get(e, "id"))
    else if Truthy(Get(e, "alias")) then Some(Get(e, "alias"))
    else if Truthy(Get(e, "name")) then Some(Get(e, "name"))
    else None
  }

  predicate FrontKeyed(e: Json) {
    Get(e, "frontend").Obj? && Truthy(Get(Get(e, "frontend"), "fqdn"))
  }

  /** A frontend whose host and port are both written out. */
  predicate Pinned(e: Json) {
    && FrontKeyed(e) && Scalar(Get(Get(e, "frontend"), "fqdn"))
    && "port" in Get(e, "frontend").fields && Scalar(Get(Get(e, "frontend"), "port"))
  }

  lemma PinnedKeyStays(sent: Json, kept: Json)
    requires Pinned(sent) && Extends(sent, kept)
    ensures Pinned(kept) && ListKey(kept) == ListKey(sent)
  {
    assert Extends(sent.fields["frontend"], kept.fields["frontend"]);
    var a, b := sent.fields["frontend"].fields, kept.fields["frontend"].fields;
    assert Extends(a["fqdn"], b["fqdn"]) && Extends(a["port"], b["port"]);
  }

  /** DSM keeps what it is sent; of new fields at the top it adds only some of `adds`, further down any. */
  ghost predicate KeptAs(sent: Json, kept: Json, adds: set<string>) {
    Extends(sent, kept) && (sent.Obj? ==> kept.fields.Keys <= sent.fields.Keys + adds)
  }

  ghost predicate KeyStays(sent: Json, adds: set<string>) {
    forall kept :: KeptAs(sent, kept, adds) ==> SameKey(sent, kept)
  }

  predicate SameKey(a: Json, b: Json) {
    ListKey(a) == ListKey(b)
  }

  /** `sent` with one field set anew is a way to keep it. */
  lemma OneFieldMore(sent: Json, field: string, value: Json, adds: set<string>)
    requires sent.Obj? && (field in adds || field in sent.fields)
    requires field in sent.fields ==> Extends(sent.fields[field], value)
    ensures KeptAs(sent, Obj(sent.fields[field := value]), adds)
  {
    var kept := Obj(sent.fields[field := value]);
    forall k | k in sent.fields ensures Extends(sent.fields[k], kept.fields[k]) {
      ExtendsReflexive(sent.fields[k]);
    }
  }

  /** A frontend's key survives whatever DSM adds exactly when the port is written out. */
  lemma KeyStaysIffPort(sent: Json, adds: set<string>)
    requires FrontKeyed(sent)
    requires Scalar(Get(Get(sent, "frontend"), "fqdn")) && Scalar(Get(Get(sent, "frontend"), "port"))
    ensures KeyStays(sent, adds) <==> "port" in Get(sent, "frontend").fields
  {
    var fe := Get(sent, "frontend");
    if "port" in fe.fields {
      forall kept | KeptAs(sent, kept, adds) ensures SameKey(sent, kept) {
        PinnedKeyStays(sent, kept);
      }
    } else {
      var filled := Obj(fe.fields["port" := Str("443")]);
      var kept := Obj(sent.fields["frontend" := filled]);
      OneFieldMore(fe, "port", Str("443"), {"port"});
      OneFieldMore(sent, "frontend", filled, adds);
      var head := "fe:" + Lower(Text(Get(fe, "fqdn"))) + ":";
      assert ListKey(sent) == Some(Str(head + "None")) && ListKey(kept) == Some(Str(head + "443"));
      assert |head + "None"| != |head + "443"|;
      assert !SameKey(sent, kept);
    }
  }

  // An entry without a frontend's host is known by its id, else its alias, else its name.

  /** DSM cannot put anything true here: the field is there already, or it is not one DSM adds. */
  predicate Fixed(e: Json, field: string, adds: set<string>) {
    (e.Obj? && field in e.fields) || field !in adds
  }

  /** DSM cannot give the entry a frontend's host. */
  predicate NoHost(e: Json, adds: set<string>) {
    Fixed(e, "frontend", adds) && (Get(e, "frontend").Obj? ==> "fqdn" in Get(e, "frontend").fields)
  }

  /** The fields `_list_key` looks at hold no lists or objects, but for the frontend. */
  predicate PlainKeys(e: Json) {
    && e.Obj? && !FrontKeyed(e)
    && (Get(e, "frontend").Obj? ==> Scalar(Get(Get(e, "frontend"), "fqdn"))) && !Get(e, "frontend").List?
    && Scalar(Get(e, "id")) && Scalar(Get(e, "alias")) && Scalar(Get(e, "name"))
  }

  /** Everything consulted before the field that gives the key is fixed. */
  predicate KeyFixed(e: Json, adds: set<string>) {
    && NoHost(e, adds)
    && (Truthy(Get(e, "id")) || (Fixed(e, "id", adds) && (Truthy(Get(e, "alias")) || Fixed(e, "alias", adds))))
  }

  lemma FixedField(sent: Json, kept: Json, field: string, adds: set<string>)
    requires sent.Obj? && KeptAs(sent, kept, adds) && Scalar(Get(sent, field)) && Fixed(sent, field, adds)
    ensures Get(kept, field) == Get(sent, field)
  {
    if field in sent.fields {
      assert Extends(sent.fields[field], kept.fields[field]);
    }
  }

  lemma StillNoHost(sent: Json, kept: Json, adds: set<string>)
    requires PlainKeys(sent) && NoHost(sent, adds) && KeptAs(sent, kept, adds)
    ensures !FrontKeyed(kept)
  {
    if "frontend" in sent.fields {
      assert Extends(sent.fields["frontend"], kept.fields["frontend"]);
      if sent.fields["frontend"].Obj? {
        assert Extends(sent.fields["frontend"].fields["fqdn"], kept.fields["frontend"].fields["fqdn"]);
      }
    }
  }

  lemma FixedKeyStays(sent: Json, kept: Json, adds: set<string>)
    requires PlainKeys(sent) && ListKey(sent).Some? && KeyFixed(sent, adds) && KeptAs(sent, kept, adds)
    ensures SameKey(sent, kept)
  {
    StillNoHost(sent, kept, adds);
    FixedField(sent, kept, "id", adds);
    if !Truthy(Get(sent, "id")) {
      FixedField(sent, kept, "alias", adds);
      if !Truthy(Get(sent, "alias")) {
        FixedField(sent, kept, "name", adds);
      }
    }
  }

  /** A field that comes first and is DSM's to fill changes the key. */
  lemma UnfixedKeyMoves(sent: Json, field: string, adds: set<string>)
    requires PlainKeys(sent) && ListKey(sent).Some? && !Fixed(sent, field, adds)
    requires field == "id" || (field == "alias" && !Truthy(Get(sent, "id")))
    requires !Truthy(Get(sent, field))
    requires field == "alias" ==> !Truthy(Get(sent, "alias"))
    ensures !KeyStays(sent, adds)
  {
    var v := if ListKey(sent) == Some(Num(1)) then Num(2) else Num(1);
    var kept := Obj(sent.fields[field := v]);
    OneFieldMore(sent, field, v, adds);
    assert Get(kept, "frontend") == Get(sent, "frontend");
    assert ListKey(kept) == Some(v);
    assert !SameKey(sent, kept);
  }

  function HostKey(host: string, port: string): Json {
    Str("fe:" + host + ":" + port)
  }

  lemma HostMovesKey(sent: Json, adds: set<string>)
    requires PlainKeys(sent) && ListKey(sent).Some? && !NoHost(sent, adds)
    ensures !KeyStays(sent, adds)
  {
    var before := if Get(sent, "frontend").Obj? then Get(sent, "frontend") else Obj(map[]);
    var port := Text(Get(before, "port"));
    var host := if ListKey(sent) == Some(HostKey("a", port)) then "b" else "a";
    var fe := Obj(before.fields["fqdn" := Str(host)]);
    var kept := Obj(sent.fields["frontend" := fe]);
    OneFieldMore(before, "fqdn", Str(host), {"fqdn"});
    OneFieldMore(sent, "frontend", fe, adds);
    assert Lower(host) == host && Get(fe, "port") == Get(before, "port");
    assert ListKey(kept) == Some(HostKey(host, port));
    HostKeysDiffer(port);
    assert !SameKey(sent, kept);
  }

  lemma HostKeysDiffer(port: string)
    ensures HostKey("a", port) != HostKey("b", port)
  {
    assert HostKey("a", port).s[3] == 'a' && HostKey("b", port).s[3] == 'b';
  }

  /** Any other entry's key survives what DSM adds exactly when everything consulted before it is fixed. */
  lemma PlainKeyStaysIff(sent: Json, adds: set<string>)
    requires PlainKeys(sent) && ListKey(sent).Some?
    ensures KeyStays(sent, adds) <==> KeyFixed(sent, adds)
  {
    if KeyFixed(sent, adds) {
      forall kept | KeptAs(sent, kept, adds) ensures SameKey(sent, kept) {
        FixedKeyStays(sent, kept, adds);
      }
    } else if !NoHost(sent, adds) {
      HostMovesKey(sent, adds);
    } else if !Fixed(sent, "id", adds) {
      UnfixedKeyMoves(sent, "id", adds);
    } else {
      UnfixedKeyMoves(sent, "alias", adds);
    }
  }

  /** The entries under one key, in order. */
  function EntriesOf(entries: seq<Json>, key: Option<Json>): seq<Json> {
    if entries == [] then []
    else
      var last := entries[|entries| - 1];
      EntriesOf(entries[..|entries| - 1], key) + (if ListKey(last) == key then [last] else [])
  }

  /** `{_list_key(e): e ...}[k]`: the last entry wins. */
  function Last(entries: seq<Json>, k: Json): Option<Json> {
    var es := EntriesOf(entries, Some(k));
    if es == [] then None else Some(es[|es| - 1])
  }

  lemma {:induction false} EntriesConcat(a: seq<Json>, b: seq<Json>, key: Option<Json>)
    ensures EntriesOf(a + b, key) == EntriesOf(a, key) + EntriesOf(b, key)
  {
    if b == [] {
      assert a + b == a;
    } else {
      EntriesConcat(a, b[..|b| - 1], key);
      assert (a + b)[..|a + b| - 1] == a + b[..|b| - 1];
    }
  }

  lemma EntriesOne(e: Json, key: Option<Json>)
    ensures EntriesOf([e], key) == if ListKey(e) == key then [e] else []
  {
    assert [e][..0] == [];
  }

  lemma EntriesSplit(a: seq<Json>, e: Json, b: seq<Json>, key: Option<Json>)
    ensures EntriesOf(a + [e] + b, key) ==
      EntriesOf(a, key) + (if ListKey(e) == key then [e] else []) + EntriesOf(b, key)
  {
    EntriesConcat(a + [e], b, key);
    EntriesConcat(a, [e], key);
    EntriesOne(e, key);
  }

  ghost predicate IndexedAt(byKey: map<Json, Json>, entries: seq<Json>, k: Json) {
    Last(entries, k) == if k in byKey then Some(byKey[k]) else None
  }

  ghost predicate Indexes(byKey: map<Json, Json>, entries: seq<Json>) {
    forall k :: IndexedAt(byKey, entries, k)
  }

  method IndexByKey(entries: seq<Json>) returns (byKey: map<Json, Json>)
    ensures Indexes(byKey, entries)
  {
    byKey := map[];
    for i := 0 to |entries|
      invariant Indexes(byKey, entries[..i])
    {
      ghost var before := byKey;
      var key := ListKey(entries[i]);
      if key.Some? {
        byKey := byKey[key.value := entries[i]];
      }
      ghost var upto := entries[..i + 1];
      assert upto[..i] == entries[..i];
      forall k ensures IndexedAt(byKey, upto, k) {
        assert IndexedAt(before, entries[..i], k);
      }
    }
    assert entries[..|entries|] == entries;
  }

  // ----- DSM -----

  /** `e.get("UUID") or e.get("id")` */
  function Uid(e: Json): Json {
    if Truthy(Get(e, "UUID")) then Get(e, "UUID") else Get(e, "id")
  }

  /** Every live entry has an identity of its own. */
  ghost predicate Sound(live: seq<Json>) {
    && (forall i :: 0 <= i < |live| ==> live[i].Obj? && Truthy(Uid(live[i])) && Scalar(Uid(live[i])))
    && (forall i, j :: 0 <= i < j < |live| ==> Uid(live[i]) != Uid(live[j]))
  }

  /** A spec whose keys survive what DSM adds, and without UUIDs, which are DSM's to give. */
  ghost predicate Declarable(desired: seq<Json>, adds: set<string>) {
    forall e :: e in desired && ListKey(e).Some? ==> e.Obj? && KeyStays(e, adds + {"UUID"}) && "UUID" !in e.fields
  }

  ghost predicate Created(before: seq<Json>, entry: Json, after: seq<Json>, adds: set<string>) {
    exists a, kept, b :: before == a + b && KeptAs(entry, kept, adds) && after == a + [kept] + b
  }

  ghost predicate Updated(before: seq<Json>, uid: Json, entry: Json, after: seq<Json>, adds: set<string>) {
    exists a, gone, kept, b ::
      before == a + [gone] + b && Uid(gone) == uid && KeptAs(entry, kept, adds) && after == a + [kept] + b
  }

  ghost predicate Deleted(before: seq<Json>, uid: Json, after: seq<Json>) {
    exists a, gone, b :: before == a + [gone] + b && Uid(gone) == uid && after == a + b
  }

  function WithUuid(entry: Json, uid: Json): Json {
    if entry.Obj? && "UUID" !in entry.fields then Obj(entry.fields["UUID" := uid]) else entry
  }

  /** What a full run leaves under one key. */
  ghost predicate KeyDone(desired: Option<Json>, before: seq<Json>, after: seq<Json>) {
    var n := |before|;
    if desired.None? then after == if n == 0 then [] else before[..n - 1]
    else if n == 0 then |after| == 1 && Extends(desired.value, after[0])
    else if Covered(desired.value, before[n - 1]) then after == before
    else |after| == n && after[..n - 1] == before[..n - 1] && Extends(desired.value, after[n - 1])
  }

  /** The keys of `done` are as a full run leaves them, everything else is as it was. */
  ghost predicate Midway(desired: seq<Json>, before: seq<Json>, after: seq<Json>, done: set<Json>) {
    && EntriesOf(after, None) == EntriesOf(before, None)
    && forall k :: KeyMidway(desired, before, after, k, k in done)
  }

  ghost predicate KeyMidway(desired: seq<Json>, before: seq<Json>, after: seq<Json>, k: Json, done: bool) {
    var old_, now := EntriesOf(before, Some(k)), EntriesOf(after, Some(k));
    if done then KeyDone(Last(desired, k), old_, now) else now == old_
  }

  ghost predicate Synced(desired: seq<Json>, before: seq<Json>, after: seq<Json>) {
    && EntriesOf(after, None) == EntriesOf(before, None)
    && forall k :: KeyMidway(desired, before, after, k, true)
  }

  /** Each key as it was or as a full run leaves it. */
  ghost predicate PartlySynced(desired: seq<Json>, before: seq<Json>, after: seq<Json>) {
    exists done :: Midway(desired, before, after, done)
  }

  lemma {:induction false} DeclaredEntry(desired: seq<Json>, k: Json, adds: set<string>)
    requires Declarable(desired, adds) && Last(desired, k).Some?
    ensures var d := Last(desired, k).value;
      d.Obj? && KeyStays(d, adds + {"UUID"}) && "UUID" !in d.fields && ListKey(d) == Some(k)
  {
    var init, last := desired[..|desired| - 1], desired[|desired| - 1];
    assert last in desired;
    if ListKey(last) != Some(k) {
      assert forall e :: e in init ==> e in desired;
      DeclaredEntry(init, k, adds);
    }
  }

  // ----- one call -----

  /** Only what stands under `k` differs. */
  ghost predicate OnlyUnder(k: Json, before: seq<Json>, after: seq<Json>) {
    forall key :: key != Some(k) ==> SameUnder(key, before, after)
  }

  ghost predicate SameUnder(key: Option<Json>, before: seq<Json>, after: seq<Json>) {
    EntriesOf(after, key) == EntriesOf(before, key)
  }

  lemma OneMoreDone(desired: seq<Json>, start: seq<Json>, before: seq<Json>, after: seq<Json>, done: set<Json>, k: Json)
    requires Midway(desired, start, before, done) && OnlyUnder(k, before, after)
    requires KeyMidway(desired, start, after, k, true)
    ensures Midway(desired, start, after, done + {k})
  {
    assert SameUnder(None, before, after);
    forall key ensures KeyMidway(desired, start, after, key, key in done + {k}) {
      assert KeyMidway(desired, start, before, key, key in done);
      assert key != k ==> SameUnder(Some(key), before, after);
    }
  }

  lemma InsertEntry(a: seq<Json>, kept: Json, b: seq<Json>, k: Json)
    requires ListKey(kept) == Some(k) && EntriesOf(a + b, Some(k)) == []
    ensures OnlyUnder(k, a + b, a + [kept] + b) && EntriesOf(a + [kept] + b, Some(k)) == [kept]
  {
    forall key | key != Some(k) ensures SameUnder(key, a + b, a + [kept] + b) {
      EntriesSplit(a, kept, b, key);
      EntriesConcat(a, b, key);
    }
    EntriesSplit(a, kept, b, Some(k));
    EntriesConcat(a, b, Some(k));
  }

  lemma ReplaceEntry(a: seq<Json>, gone: Json, kept: Json, b: seq<Json>, k: Json)
    requires ListKey(gone) == Some(k) == ListKey(kept) && EntriesOf(b, Some(k)) == []
    ensures OnlyUnder(k, a + [gone] + b, a + [kept] + b)
    ensures EntriesOf(a + [gone] + b, Some(k)) == EntriesOf(a, Some(k)) + [gone]
    ensures EntriesOf(a + [kept] + b, Some(k)) == EntriesOf(a, Some(k)) + [kept]
  {
    forall key | key != Some(k) ensures SameUnder(key, a + [gone] + b, a + [kept] + b) {
      EntriesSplit(a, kept, b, key);
      EntriesSplit(a, gone, b, key);
    }
    EntriesSplit(a, kept, b, Some(k));
    EntriesSplit(a, gone, b, Some(k));
  }

  lemma RemoveEntry(a: seq<Json>, gone: Json, b: seq<Json>, k: Json)
    requires ListKey(gone) == Some(k) && EntriesOf(b, Some(k)) == []
    ensures OnlyUnder(k, a + [gone] + b, a + b)
    ensures EntriesOf(a + [gone] + b, Some(k)) == EntriesOf(a, Some(k)) + [gone]
    ensures EntriesOf(a + b, Some(k)) == EntriesOf(a, Some(k))
  {
    forall key | key != Some(k) ensures SameUnder(key, a + [gone] + b, a + b) {
      EntriesConcat(a, b, key);
      EntriesSplit(a, gone, b, key);
    }
    EntriesConcat(a, b, Some(k));
    EntriesSplit(a, gone, b, Some(k));
  }

  /** Where the entry that stands for a key is. */
  lemma {:induction false} LastIsAt(live: seq<Json>, k: Json, at: nat)
    requires Sound(live) && Last(live, k).Some? && at < |live| && Uid(live[at]) == Uid(Last(live, k).value)
    ensures live[at] == Last(live, k).value && ListKey(live[at]) == Some(k) && EntriesOf(live[at + 1..], Some(k)) == []
    decreases |live|
  {
    var init, last := live[..|live| - 1], live[|live| - 1];
    if ListKey(last) == Some(k) {
      assert at == |live| - 1;
    } else {
      LastIsIn(init, k);
      LastIsAt(init, k, at);
      assert live[at + 1..] == init[at + 1..] + [last];
      EntriesConcat(init[at + 1..], [last], Some(k));
      EntriesOne(last, Some(k));
    }
  }

  lemma {:induction false} LastIsIn(live: seq<Json>, k: Json)
    requires Last(live, k).Some?
    ensures Last(live, k).value in live
  {
    if ListKey(live[|live| - 1]) != Some(k) {
      LastIsIn(live[..|live| - 1], k);
    }
  }

  lemma LastIsGone(a: seq<Json>, gone: Json, b: seq<Json>, k: Json)
    requires Sound(a + [gone] + b) && Last(a + [gone] + b, k).Some? && Uid(gone) == Uid(Last(a + [gone] + b, k).value)
    ensures gone == Last(a + [gone] + b, k).value && ListKey(gone) == Some(k) && EntriesOf(b, Some(k)) == []
  {
    var live := a + [gone] + b;
    assert live[|a|] == gone && live[|a| + 1..] == b;
    LastIsAt(live, k, |a|);
  }

  /** Under one key, after one call that went through. */
  lemma CreatedKey(before: seq<Json>, d: Json, after: seq<Json>, k: Json, adds: set<string>)
    requires KeyStays(d, adds + {"UUID"}) && ListKey(d) == Some(k)
    requires EntriesOf(before, Some(k)) == [] && Created(before, d, after, adds)
    ensures OnlyUnder(k, before, after) && KeyDone(Some(d), [], EntriesOf(after, Some(k)))
  {
    var a, kept, b :| before == a + b && KeptAs(d, kept, adds) && after == a + [kept] + b;
    assert KeptAs(d, kept, adds + {"UUID"});
    assert SameKey(d, kept);
    InsertEntry(a, kept, b, k);
  }

  lemma UpdatedKey(before: seq<Json>, d: Json, after: seq<Json>, k: Json, es: seq<Json>, adds: set<string>)
    requires d.Obj? && KeyStays(d, adds + {"UUID"}) && ListKey(d) == Some(k) && "UUID" !in d.fields && Sound(before)
    requires es == EntriesOf(before, Some(k)) && es != [] && !Covered(d, es[|es| - 1])
    requires Updated(before, Uid(es[|es| - 1]), WithUuid(d, Uid(es[|es| - 1])), after, adds)
    ensures OnlyUnder(k, before, after) && KeyDone(Some(d), es, EntriesOf(after, Some(k)))
  {
    var uid := Uid(es[|es| - 1]);
    var a, gone, kept, b :|
      before == a + [gone] + b && Uid(gone) == uid && KeptAs(WithUuid(d, uid), kept, adds) && after == a + [kept] + b;
    LastIsGone(a, gone, b, k);
    SentEntry(d, uid, kept, adds);
    ReplaceEntry(a, gone, kept, b, k);
  }

  lemma DeletedKey(before: seq<Json>, after: seq<Json>, k: Json, es: seq<Json>)
    requires Sound(before) && es == EntriesOf(before, Some(k)) && es != [] && Deleted(before, Uid(es[|es| - 1]), after)
    ensures OnlyUnder(k, before, after) && KeyDone(None, es, EntriesOf(after, Some(k)))
  {
    var a, gone, b :| before == a + [gone] + b && Uid(gone) == Uid(es[|es| - 1]) && after == a + b;
    LastIsGone(a, gone, b, k);
    RemoveEntry(a, gone, b, k);
  }

  lemma CreateDoes(
    desired: seq<Json>, start: seq<Json>, before: seq<Json>, after: seq<Json>, done: set<Json>, k: Json,
    adds: set<string>)
    requires Declarable(desired, adds) && Midway(desired, start, before, done) && k !in done
    requires NeedsCreate(desired, start, k) && Created(before, Last(desired, k).value, after, adds)
    ensures Midway(desired, start, after, done + {k})
  {
    DeclaredEntry(desired, k, adds);
    assert KeyMidway(desired, start, before, k, false);
    CreatedKey(before, Last(desired, k).value, after, k, adds);
    OneMoreDone(desired, start, before, after, done, k);
  }

  lemma UpdateDoes(
    desired: seq<Json>, start: seq<Json>, before: seq<Json>, after: seq<Json>, done: set<Json>, k: Json,
    adds: set<string>)
    requires Declarable(desired, adds) && Midway(desired, start, before, done) && k !in done && Sound(before)
    requires NeedsUpdate(desired, start, k)
    requires var uid := Uid(Last(start, k).value);
      Updated(before, uid, WithUuid(Last(desired, k).value, uid), after, adds)
    ensures Midway(desired, start, after, done + {k})
  {
    DeclaredEntry(desired, k, adds);
    assert KeyMidway(desired, start, before, k, false);
    UpdatedKey(before, Last(desired, k).value, after, k, EntriesOf(start, Some(k)), adds);
    OneMoreDone(desired, start, before, after, done, k);
  }

  lemma DeleteDoes(desired: seq<Json>, start: seq<Json>, before: seq<Json>, after: seq<Json>, done: set<Json>, k: Json)
    requires Midway(desired, start, before, done) && k !in done && Sound(before)
    requires NeedsDelete(desired, start, k) && Deleted(before, Uid(Last(start, k).value), after)
    ensures Midway(desired, start, after, done + {k})
  {
    assert KeyMidway(desired, start, before, k, false);
    DeletedKey(before, after, k, EntriesOf(start, Some(k)));
    OneMoreDone(desired, start, before, after, done, k);
  }

  lemma SentEntry(d: Json, uid: Json, kept: Json, adds: set<string>)
    requires d.Obj? && KeyStays(d, adds + {"UUID"}) && "UUID" !in d.fields && KeptAs(WithUuid(d, uid), kept, adds)
    ensures Extends(d, kept) && ListKey(kept) == ListKey(d)
  {
    forall f | f in d.fields ensures Extends(d.fields[f], WithUuid(d, uid).fields[f]) {
      ExtendsReflexive(d.fields[f]);
    }
    ExtendsTransitive(d, WithUuid(d, uid), kept);
    assert KeptAs(d, kept, adds + {"UUID"});
    assert SameKey(d, kept);
  }

  // ----- the run -----

  /** creates, updates and deletes hold the keys of the entries concerned. */
  datatype Drift = Drift(creates: seq<Json>, updates: seq<Json>, deletes: seq<Json>) {
    predicate Empty() { creates == [] && updates == [] && deletes == [] }
  }

  datatype Outcome = NoChange | WouldChange | Changed | Failed

  ghost predicate Distinct(keys: seq<Json>) {
    forall i, j :: 0 <= i < j < |keys| ==> keys[i] != keys[j]
  }

  predicate NeedsCreate(desired: seq<Json>, live: seq<Json>, k: Json) {
    Last(desired, k).Some? && Last(live, k).None?
  }

  predicate NeedsUpdate(desired: seq<Json>, live: seq<Json>, k: Json) {
    Last(desired, k).Some? && Last(live, k).Some? && !Covered(Last(desired, k).value, Last(live, k).value)
  }

  predicate NeedsDelete(desired: seq<Json>, live: seq<Json>, k: Json) {
    Last(desired, k).None? && Last(live, k).Some?
  }

  ghost predicate DriftOf(desired: seq<Json>, live: seq<Json>, drift: Drift) {
    && Distinct(drift.creates) && Distinct(drift.updates) && Distinct(drift.deletes)
    && (forall k :: KeyDrifts(desired, live, drift, k))
  }

  ghost predicate KeyDrifts(desired: seq<Json>, live: seq<Json>, drift: Drift, k: Json) {
    && (k in drift.creates <==> NeedsCreate(desired, live, k))
    && (k in drift.updates <==> NeedsUpdate(desired, live, k))
    && (k in drift.deletes <==> NeedsDelete(desired, live, k))
  }

  ghost predicate NothingToDo(desired: seq<Json>, live: seq<Json>) {
    forall k :: !NeedsCreate(desired, live, k) && !NeedsUpdate(desired, live, k) && !NeedsDelete(desired, live, k)
  }

  method Wanting(desiredBy: map<Json, Json>, liveBy: map<Json, Json>) returns (creates: seq<Json>, updates: seq<Json>)
    ensures Distinct(creates) && Distinct(updates)
    ensures forall k :: k in creates <==> k in desiredBy && k !in liveBy
    ensures forall k :: k in updates <==> k in desiredBy && k in liveBy && !Covered(desiredBy[k], liveBy[k])
  {
    creates, updates := [], [];
    var todo := desiredBy.Keys;
    while todo != {}
      invariant todo <= desiredBy.Keys && Distinct(creates) && Distinct(updates)
      invariant forall k :: k in creates <==> k in desiredBy && k !in todo && k !in liveBy
      invariant forall k :: k in updates <==>
        k in desiredBy && k !in todo && k in liveBy && !Covered(desiredBy[k], liveBy[k])
      decreases todo
    {
      var k :| k in todo;
      todo := todo - {k};
      if k !in liveBy {
        creates := creates + [k];
      } else if !Covered(desiredBy[k], liveBy[k]) {
        updates := updates + [k];
      }
    }
  }

  method Stale(desiredBy: map<Json, Json>, liveBy: map<Json, Json>) returns (deletes: seq<Json>)
    ensures Distinct(deletes) && forall k :: k in deletes <==> k in liveBy && k !in desiredBy
  {
    deletes := [];
    var todo := liveBy.Keys;
    while todo != {}
      invariant todo <= liveBy.Keys && Distinct(deletes)
      invariant forall k :: k in deletes <==> k in liveBy && k !in todo && k !in desiredBy
      decreases todo
    {
      var k :| k in todo;
      todo := todo - {k};
      if k !in desiredBy {
        deletes := deletes + [k];
      }
    }
  }

  method Diff(desired: seq<Json>, live: seq<Json>)
    returns (drift: Drift, desiredBy: map<Json, Json>, liveBy: map<Json, Json>)
    ensures DriftOf(desired, live, drift) && Indexes(desiredBy, desired) && Indexes(liveBy, live)
  {
    liveBy := IndexByKey(live);
    desiredBy := IndexByKey(desired);
    var creates, updates := Wanting(desiredBy, liveBy);
    var deletes := Stale(desiredBy, liveBy);
    drift := Drift(creates, updates, deletes);
    forall k ensures KeyDrifts(desired, live, drift, k) {
      assert IndexedAt(desiredBy, desired, k) && IndexedAt(liveBy, live, k);
    }
  }

  class Portal {
    var live: seq<Json>
    const adds: set<string>   // the fields DSM adds to an entry of its own accord

    constructor (live: seq<Json>, adds: set<string>)
      ensures this.live == live && this.adds == adds
    {
      this.live, this.adds := live, adds;
    }

    /** A call may fail having done its work or not; DSM adds fields of its own to what it keeps. */
    method Create(entry: Json) returns (ok: bool)
      requires Sound(live)
      modifies this
      ensures Sound(live)
      ensures Created(old(live), entry, live, adds) || (!ok && live == old(live))
    {
      var at: int, kept: Json := *, *;
      ok := false;
      if 0 <= at <= |live| && IsKept(entry, kept) {
        var next := live[..at] + [kept] + live[at..];
        if IsSound(next) {
          live := next;
          ok := *;
        }
      }
    }

    method Update(uid: Json, entry: Json) returns (ok: bool)
      requires Sound(live)
      modifies this
      ensures Sound(live)
      ensures Updated(old(live), uid, entry, live, adds) || (!ok && live == old(live))
    {
      var at: int, kept: Json := *, *;
      ok := false;
      if 0 <= at < |live| && Uid(live[at]) == uid && IsKept(entry, kept) {
        var next := live[..at] + [kept] + live[at + 1..];
        if IsSound(next) {
          live := next;
          ok := *;
        }
      }
    }

    method Delete(uid: Json) returns (ok: bool)
      requires Sound(live)
      modifies this
      ensures Sound(live)
      ensures Deleted(old(live), uid, live) || (!ok && live == old(live))
    {
      var at: int := *;
      ok := false;
      if 0 <= at < |live| && Uid(live[at]) == uid {
        assert live == live[..at] + [live[at]] + live[at + 1..];
        live := live[..at] + live[at + 1..];
        ok := *;
      }
    }

    predicate IsKept(sent: Json, kept: Json)
      ensures IsKept(sent, kept) <==> KeptAs(sent, kept, adds)
    {
      Extends(sent, kept) && (sent.Obj? ==> kept.fields.Keys <= sent.fields.Keys + adds)
    }

    predicate IsSound(entries: seq<Json>)
      ensures IsSound(entries) <==> Sound(entries)
    {
      && (forall i :: 0 <= i < |entries| ==> entries[i].Obj? && Truthy(Uid(entries[i])) && Scalar(Uid(entries[i])))
      && (forall i, j :: 0 <= i < j < |entries| ==> Uid(entries[i]) != Uid(entries[j]))
    }

    /** A declarable spec is followed key by key. */
    ghost predicate Follows(desired: seq<Json>, start: seq<Json>, now: seq<Json>, done: set<Json>) {
      Declarable(desired, adds) ==> Midway(desired, start, now, done)
    }

    method CreateOne(desired: seq<Json>, k: Json, desiredBy: map<Json, Json>, ghost start: seq<Json>,
        ghost done: set<Json>) returns (ok: bool)
      requires Sound(live) && Follows(desired, start, live, done) && Indexes(desiredBy, desired)
      requires k !in done && NeedsCreate(desired, start, k)
      modifies this
      ensures Sound(live) && (Declarable(desired, adds) ==> PartlySynced(desired, start, live))
      ensures ok ==> Follows(desired, start, live, done + {k})
    {
      ghost var before := live;
      assert IndexedAt(desiredBy, desired, k);
      ok := Create(desiredBy[k]);
      if Declarable(desired, adds) && Created(before, desiredBy[k], live, adds) {
        CreateDoes(desired, start, before, live, done, k, adds);
      }
    }

    method CreateAll(desired: seq<Json>, keys: seq<Json>, desiredBy: map<Json, Json>, ghost start: seq<Json>,
        ghost done: set<Json>)
      returns (ok: bool)
      requires Sound(live) && Follows(desired, start, live, done) && Indexes(desiredBy, desired)
      requires Distinct(keys) && forall i :: 0 <= i < |keys| ==>
        keys[i] !in done && NeedsCreate(desired, start, keys[i])
      modifies this
      ensures Sound(live) && (Declarable(desired, adds) ==> PartlySynced(desired, start, live))
      ensures ok ==> Follows(desired, start, live, done + AsSet(keys))
    {
      ok := true;
      ghost var sofar := done;
      for i := 0 to |keys|
        invariant Sound(live) && Follows(desired, start, live, sofar) && sofar == done + AsSet(keys[..i])
      {
        assert keys[i] !in keys[..i];
        ok := CreateOne(desired, keys[i], desiredBy, start, sofar);
        assert AsSet(keys[..i + 1]) == AsSet(keys[..i]) + {keys[i]};
        if !ok {
          return;
        }
        sofar := sofar + {keys[i]};
      }
      assert keys[..|keys|] == keys;
    }

    method UpdateOne(desired: seq<Json>, k: Json, desiredBy: map<Json, Json>, liveBy: map<Json, Json>,
                     ghost start: seq<Json>, ghost done: set<Json>) returns (ok: bool)
      requires Sound(live) && Follows(desired, start, live, done)
      requires Indexes(desiredBy, desired) && Indexes(liveBy, start)
      requires k !in done && NeedsUpdate(desired, start, k)
      modifies this
      ensures Sound(live) && (Declarable(desired, adds) ==> PartlySynced(desired, start, live))
      ensures ok ==> Follows(desired, start, live, done + {k})
    {
      ghost var before := live;
      assert IndexedAt(desiredBy, desired, k) && IndexedAt(liveBy, start, k);
      var uid := Uid(liveBy[k]);
      ok := Update(uid, WithUuid(desiredBy[k], uid));
      if Declarable(desired, adds) && Updated(before, uid, WithUuid(desiredBy[k], uid), live, adds) {
        UpdateDoes(desired, start, before, live, done, k, adds);
      }
    }

    method UpdateAll(desired: seq<Json>, keys: seq<Json>, desiredBy: map<Json, Json>, liveBy: map<Json, Json>,
                     ghost start: seq<Json>, ghost done: set<Json>)
      returns (ok: bool)
      requires Sound(live) && Follows(desired, start, live, done)
      requires Indexes(desiredBy, desired) && Indexes(liveBy, start)
      requires Distinct(keys) && forall i :: 0 <= i < |keys| ==>
        keys[i] !in done && NeedsUpdate(desired, start, keys[i])
      modifies this
      ensures Sound(live) && (Declarable(desired, adds) ==> PartlySynced(desired, start, live))
      ensures ok ==> Follows(desired, start, live, done + AsSet(keys))
    {
      ok := true;
      ghost var sofar := done;
      for i := 0 to |keys|
        invariant Sound(live) && Follows(desired, start, live, sofar) && sofar == done + AsSet(keys[..i])
      {
        assert keys[i] !in keys[..i];
        ok := UpdateOne(desired, keys[i], desiredBy, liveBy, start, sofar);
        assert AsSet(keys[..i + 1]) == AsSet(keys[..i]) + {keys[i]};
        if !ok {
          return;
        }
        sofar := sofar + {keys[i]};
      }
      assert keys[..|keys|] == keys;
    }

    method DeleteOne(desired: seq<Json>, k: Json, liveBy: map<Json, Json>, ghost start: seq<Json>,
        ghost done: set<Json>) returns (ok: bool)
      requires Sound(live) && Follows(desired, start, live, done) && Indexes(liveBy, start)
      requires k !in done && NeedsDelete(desired, start, k)
      modifies this
      ensures Sound(live) && (Declarable(desired, adds) ==> PartlySynced(desired, start, live))
      ensures ok ==> Follows(desired, start, live, done + {k})
    {
      ghost var before := live;
      assert IndexedAt(liveBy, start, k);
      ok := Delete(Uid(liveBy[k]));
      if Declarable(desired, adds) && Deleted(before, Uid(liveBy[k]), live) {
        DeleteDoes(desired, start, before, live, done, k);
      }
    }

    method DeleteAll(desired: seq<Json>, keys: seq<Json>, liveBy: map<Json, Json>, ghost start: seq<Json>,
        ghost done: set<Json>)
      returns (ok: bool)
      requires Sound(live) && Follows(desired, start, live, done) && Indexes(liveBy, start)
      requires Distinct(keys) && forall i :: 0 <= i < |keys| ==>
        keys[i] !in done && NeedsDelete(desired, start, keys[i])
      modifies this
      ensures Sound(live) && (Declarable(desired, adds) ==> PartlySynced(desired, start, live))
      ensures ok ==> Follows(desired, start, live, done + AsSet(keys))
    {
      ok := true;
      ghost var sofar := done;
      for i := 0 to |keys|
        invariant Sound(live) && Follows(desired, start, live, sofar) && sofar == done + AsSet(keys[..i])
      {
        assert keys[i] !in keys[..i];
        ok := DeleteOne(desired, keys[i], liveBy, start, sofar);
        assert AsSet(keys[..i + 1]) == AsSet(keys[..i]) + {keys[i]};
        if !ok {
          return;
        }
        sofar := sofar + {keys[i]};
      }
      assert keys[..|keys|] == keys;
    }

    /** `_diff_lists` */
    method Sync(desired: seq<Json>, check: bool) returns (outcome: Outcome)
      requires Sound(live)
      modifies this
      ensures Sound(live)
      ensures outcome == NoChange <==> NothingToDo(desired, old(live))
      ensures outcome == NoChange || outcome == WouldChange ==> live == old(live)
      ensures check ==> outcome == NoChange || outcome == WouldChange
      ensures Declarable(desired, adds) && outcome == Changed ==> Synced(desired, old(live), live)
      ensures Declarable(desired, adds) && outcome == Failed ==> PartlySynced(desired, old(live), live)
    {
      ghost var start := live;
      var drift, desiredBy, liveBy := Diff(desired, live);
      DriftIsAll(desired, live, drift);
      if drift.Empty() {
        return NoChange;
      }
      if check {
        return WouldChange;
      }
      NothingDone(desired, start);
      DriftApart(desired, start, drift);
      var ok := CreateAll(desired, drift.creates, desiredBy, start, {});
      if !ok {
        return Failed;
      }
      ok := UpdateAll(desired, drift.updates, desiredBy, liveBy, start, {} + AsSet(drift.creates));
      if !ok {
        return Failed;
      }
      ok := DeleteAll(desired, drift.deletes, liveBy, start, {} + AsSet(drift.creates) + AsSet(drift.updates));
      if !ok {
        return Failed;
      }
      if Declarable(desired, adds) {
        AllDone(desired, start, live, drift);
      }
      return Changed;
    }
  }

  ghost function AsSet(keys: seq<Json>): set<Json> {
    set k | k in keys
  }

  lemma DriftIsAll(desired: seq<Json>, live: seq<Json>, drift: Drift)
    requires DriftOf(desired, live, drift)
    ensures drift.Empty() <==> NothingToDo(desired, live)
  {
    if drift.Empty() {
      forall k ensures !NeedsCreate(desired, live, k) && !NeedsUpdate(desired, live, k) &&
        !NeedsDelete(desired, live, k) {
        assert KeyDrifts(desired, live, drift, k);
      }
    } else {
      var keys := drift.creates + drift.updates + drift.deletes;
      assert KeyDrifts(desired, live, drift, keys[0]);
    }
  }

  lemma DriftApart(desired: seq<Json>, live: seq<Json>, drift: Drift)
    requires DriftOf(desired, live, drift)
    ensures forall i :: 0 <= i < |drift.creates| ==> NeedsCreate(desired, live, drift.creates[i])
    ensures forall i :: 0 <= i < |drift.updates| ==>
      NeedsUpdate(desired, live, drift.updates[i]) && drift.updates[i] !in AsSet(drift.creates)
    ensures forall i :: 0 <= i < |drift.deletes| ==>
      NeedsDelete(desired, live, drift.deletes[i]) && drift.deletes[i] !in AsSet(drift.creates) + AsSet(drift.updates)
  {
    forall i | 0 <= i < |drift.creates| ensures NeedsCreate(desired, live, drift.creates[i]) {
      assert KeyDrifts(desired, live, drift, drift.creates[i]);
    }
    forall i | 0 <= i < |drift.updates|
      ensures NeedsUpdate(desired, live, drift.updates[i]) && drift.updates[i] !in AsSet(drift.creates)
    {
      assert KeyDrifts(desired, live, drift, drift.updates[i]);
    }
    forall i | 0 <= i < |drift.deletes|
      ensures NeedsDelete(desired, live, drift.deletes[i]) &&
        drift.deletes[i] !in AsSet(drift.creates) + AsSet(drift.updates)
    {
      assert KeyDrifts(desired, live, drift, drift.deletes[i]);
    }
  }

  lemma NothingDone(desired: seq<Json>, live: seq<Json>)
    ensures Midway(desired, live, live, {})
  {
  }

  lemma AllDone(desired: seq<Json>, start: seq<Json>, live: seq<Json>, drift: Drift)
    requires DriftOf(desired, start, drift)
    requires Midway(desired, start, live, {} + AsSet(drift.creates) + AsSet(drift.updates) + AsSet(drift.deletes))
    ensures Synced(desired, start, live)
  {
    var done := {} + AsSet(drift.creates) + AsSet(drift.updates) + AsSet(drift.deletes);
    forall k ensures KeyMidway(desired, start, live, k, true) {
      assert KeyMidway(desired, start, live, k, k in done) && KeyDrifts(desired, start, drift, k);
    }
  }

  // ----- the next run -----

  /** No two live entries share a key the spec does not declare. */
  ghost predicate NoStaleTwins(desired: seq<Json>, live: seq<Json>) {
    forall k :: Last(desired, k).None? ==> AtMostOne(live, k)
  }

  ghost predicate AtMostOne(live: seq<Json>, k: Json) {
    |EntriesOf(live, Some(k))| <= 1
  }

  lemma DeclaredKeyIsSettled(desired: seq<Json>, before: seq<Json>, after: seq<Json>, k: Json)
    requires Synced(desired, before, after) && Last(desired, k).Some?
    ensures Last(after, k).Some? && Covered(Last(desired, k).value, Last(after, k).value)
  {
    assert KeyMidway(desired, before, after, k, true);
    var now := EntriesOf(after, Some(k));
    if Extends(Last(desired, k).value, now[|now| - 1]) {
      ExtendsCovers(Last(desired, k).value, now[|now| - 1]);
    }
  }

  /** After a successful run the next one finds nothing to do, unless an undeclared key had two entries. */
  lemma SecondRunFindsNothing(desired: seq<Json>, before: seq<Json>, after: seq<Json>)
    requires Synced(desired, before, after)
    ensures NothingToDo(desired, after) <==> NoStaleTwins(desired, before)
  {
    if NoStaleTwins(desired, before) {
      forall k ensures !NeedsCreate(desired, after, k) && !NeedsUpdate(desired, after, k) &&
        !NeedsDelete(desired, after, k) {
        assert KeyMidway(desired, before, after, k, true);
        if Last(desired, k).Some? {
          DeclaredKeyIsSettled(desired, before, after, k);
        } else {
          assert AtMostOne(before, k);
        }
      }
    }
    if NothingToDo(desired, after) {
      forall k | Last(desired, k).None? ensures AtMostOne(before, k) {
        assert KeyMidway(desired, before, after, k, true);
        assert !NeedsDelete(desired, after, k);
      }
    }
  }

  /** A run that failed anywhere leaves the next one able to finish. */
  lemma FailureAddsNoTwins(desired: seq<Json>, before: seq<Json>, after: seq<Json>)
    requires PartlySynced(desired, before, after) && NoStaleTwins(desired, before)
    ensures NoStaleTwins(desired, after)
  {
    var done :| Midway(desired, before, after, done);
    forall k | Last(desired, k).None? ensures AtMostOne(after, k) {
      assert KeyMidway(desired, before, after, k, k in done) && AtMostOne(before, k);
    }
  }

  /** Nothing the run has no business with is touched. */
  lemma SyncedFrame(desired: seq<Json>, before: seq<Json>, after: seq<Json>, k: Json)
    requires Synced(desired, before, after) && Last(desired, k).Some? && Last(before, k).Some?
    requires Covered(Last(desired, k).value, Last(before, k).value)
    ensures EntriesOf(after, Some(k)) == EntriesOf(before, Some(k)) && EntriesOf(after, None) == EntriesOf(before, None)
  {
    assert KeyMidway(desired, before, after, k, true);
  }
}
