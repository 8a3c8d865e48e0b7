/**
 `sync-buckets` of ansible/synology/roles/synology_garage/files/apply_garage.py: missing buckets are
 created and CORS rules converged, when any admin call may fail.
*/
module GarageBuckets {
  import opened Ascii
  import opened Wrappers

  type Names = seq<string>

  /** A CORS rule, in the spec's words or Garage's; an absent list is None. */
  datatype Rule = Rule(origins: Option<Names>, methods: Option<Names>, headers: Option<Names>, expose: Option<Names>,
                       id: Option<string>, maxAge: Option<int>)

  datatype Canon = Canon(origins: Names, methods: Names, headers: Names, expose: Names, id: Option<string>,
    maxAge: Option<int>)

  datatype Decl = Decl(name: string, cors: seq<Rule>)

  datatype Report = NoChange | WouldChange | Changed | Fail

  const METHODS := ["GET", "HEAD", "PUT", "POST", "DELETE", "PATCH", "OPTIONS"]

  /** `list(x or [])` */
  function OrNone(x: Option<Names>): Names {
    if x.Some? then x.value else []
  }

  function LowerAll(names: Names): Names {
    seq(|names|, i requires 0 <= i < |names| => Lower(names[i]))
  }

  /** `_cors_api_rule`; None where it raises ValueError. */
  function ApiRule(rule: Rule): Option<Rule> {
    var origins, methods := OrNone(rule.origins), OrNone(rule.methods);
    if origins == [] || methods == [] || exists i :: 0 <= i < |methods| && methods[i] !in METHODS then None
    else Some(Rule(Some(origins), Some(methods), Some(LowerAll(OrNone(rule.headers))), Some(OrNone(rule.expose)),
      rule.id, rule.maxAge))
  }

  /** `_cors_canonical` of one rule. */
  function CanonOf(r: Rule): Canon {
    Canon(OrNone(r.origins), OrNone(r.methods), OrNone(r.headers), OrNone(r.expose), r.id, r.maxAge)
  }

  function Canonical(rules: seq<Rule>): seq<Canon> {
    seq(|rules|, i requires 0 <= i < |rules| => CanonOf(rules[i]))
  }

  /** Translating what is already translated, absent lists or not, changes nothing that is compared. */
  lemma ApiRuleIsStable(rule: Rule, shown: Rule)
    requires ApiRule(rule).Some? && CanonOf(shown) == CanonOf(ApiRule(rule).value)
    ensures ApiRule(shown).Some? && CanonOf(ApiRule(shown).value) == CanonOf(ApiRule(rule).value)
  {
    var headers := LowerAll(OrNone(rule.headers));
    assert OrNone(shown.methods) == OrNone(rule.methods) && OrNone(shown.headers) == headers;
    forall i | 0 <= i < |headers| ensures Lower(headers[i]) == headers[i] {
      LowerIsLower(OrNone(rule.headers)[i]);
    }
    assert LowerAll(headers) == headers;
  }

  function ApiRules(rules: seq<Rule>): Option<seq<Rule>> {
    if rules == [] then Some([])
    else
      var init, last := ApiRules(rules[..|rules| - 1]), ApiRule(rules[|rules| - 1]);
      if init.Some? && last.Some? then Some(init.value + [last.value]) else None
  }

  /** `desired_cors`: a name declared twice keeps its last rules. */
  function Wanted(desired: seq<Decl>): Option<map<string, seq<Rule>>> {
    if desired == [] then Some(map[])
    else
      var d := desired[|desired| - 1];
      var init, rules := Wanted(desired[..|desired| - 1]), ApiRules(d.cors);
      if init.Some? && rules.Some? then Some(init.value[d.name := rules.value]) else None
  }

  lemma {:induction false} WantedNames(desired: seq<Decl>)
    requires Wanted(desired).Some?
    ensures forall n :: n in Wanted(desired).value <==> exists i :: 0 <= i < |desired| && desired[i].name == n
  {
    if desired != [] {
      var init := desired[..|desired| - 1];
      WantedNames(init);
      var d, w := desired[|desired| - 1], Wanted(desired).value;
      forall n ensures n in w <==> exists i :: 0 <= i < |desired| && desired[i].name == n {
        if n in Wanted(init).value {
          var i :| 0 <= i < |init| && init[i].name == n;
          assert desired[i].name == n;
        }
        if i :| 0 <= i < |desired| && desired[i].name == n && i < |init| {
          assert init[i].name == n;
        }
      }
    }
  }

  type Ids = map<string, string>              // global alias -> bucket id
  type Cors = map<string, seq<Rule>>          // bucket id -> its rules

  /** Every alias leads to a bucket. */
  ghost predicate Sound(ids: Ids, cors: Cors) {
    forall a :: a in ids ==> ids[a] in cors
  }

  predicate Conforms(want: map<string, seq<Rule>>, ids: Ids, cors: Cors, n: string) {
    n in want && n in ids && ids[n] in cors && Canonical(cors[ids[n]]) == Canonical(want[n])
  }

  ghost predicate AllConform(want: map<string, seq<Rule>>, ids: Ids, cors: Cors) {
    forall n :: n in want ==> Conforms(want, ids, cors, n)
  }

  /** Two declared names of one bucket ask for the same rules. */
  ghost predicate NoConflict(want: map<string, seq<Rule>>, ids: Ids) {
    forall a, b :: a in want && b in want && a in ids && b in ids && ids[a] == ids[b] ==>
      Canonical(want[a]) == Canonical(want[b])
  }

  /** The last of `names` that stands for bucket `id`. */
  function LastFor(names: Names, ids: Ids, id: string): Option<string> {
    if names == [] then None
    else
      var n := names[|names| - 1];
      if n in ids && ids[n] == id then Some(n) else LastFor(names[..|names| - 1], ids, id)
  }

  /** New aliases are declared ones, on buckets of their own. */
  ghost predicate Grown(want: map<string, seq<Rule>>, ids: Ids, cors: Cors, ids': Ids, cors': Cors) {
    && Sound(ids', cors')
    && (forall a :: a in ids ==> a in ids' && ids'[a] == ids[a])
    && (forall a :: a in ids' && a !in ids ==> a in want && ids'[a] !in cors)
    && (forall a, b :: a in ids' && b in ids' && a !in ids && a != b ==> ids'[a] != ids'[b])
    && (forall id :: id in cors ==> id in cors')
  }

  function Before(cors: Cors, id: string): seq<Rule> {
    if id in cors then cors[id] else []
  }

  /** A bucket has the rules last written to it, or those it had (none, when it is new). */
  ghost predicate RulesAfter(want: map<string, seq<Rule>>, written: Names, cors: Cors, ids': Ids, cors': Cors,
      id: string)
    requires id in cors'
  {
    var n := LastFor(written, ids', id);
    if n.Some? && n.value in want then Canonical(cors'[id]) == Canonical(want[n.value])
    else cors'[id] == Before(cors, id)
  }

  ghost predicate Reached(want: map<string, seq<Rule>>, ids: Ids, cors: Cors, written: Names, ids': Ids, cors': Cors) {
    && Grown(want, ids, cors, ids', cors')
    && forall id :: id in cors' ==> RulesAfter(want, written, cors, ids', cors', id)
  }

  /** `cors_to_set` */
  function ToSet(want: map<string, seq<Rule>>, names: Names, ids: Ids, cors: Cors): Names {
    if names == [] then []
    else
      var n := names[|names| - 1];
      ToSet(want, names[..|names| - 1], ids, cors) + (if NeedsRules(want, ids, cors, n) then [n] else [])
  }

  predicate NeedsRules(want: map<string, seq<Rule>>, ids: Ids, cors: Cors, n: string) {
    n in want && (if n in ids then !Conforms(want, ids, cors, n) else want[n] != [])
  }

  lemma {:induction false} ToSetHolds(want: map<string, seq<Rule>>, names: Names, ids: Ids, cors: Cors, n: string)
    ensures n in ToSet(want, names, ids, cors) <==> n in names && NeedsRules(want, ids, cors, n)
  {
    if names != [] {
      ToSetHolds(want, names[..|names| - 1], ids, cors, n);
      assert names == names[..|names| - 1] + [names[|names| - 1]];
    }
  }

  lemma ToSetNames(want: map<string, seq<Rule>>, names: Names, ids: Ids, cors: Cors)
    ensures var toSet := ToSet(want, names, ids, cors);
      forall i :: 0 <= i < |toSet| ==> toSet[i] in names && toSet[i] in want
  {
  }

  lemma {:induction false} LastForHolds(names: Names, ids: Ids, n: string)
    requires n in ids
    ensures var l := LastFor(names, ids, ids[n]);
      && (n in names ==> l.Some?) && (l.Some? ==> l.value in names && l.value in ids && ids[l.value] == ids[n])
  {
    if names != [] {
      LastForHolds(names[..|names| - 1], ids, n);
      assert names == names[..|names| - 1] + [names[|names| - 1]];
    }
  }

  // ----- what a run comes to -----

  /** A full run makes every declared bucket conform exactly when no bucket is asked for two different rule sets. */
  lemma FullRunConforms(want: map<string, seq<Rule>>, names: Names, ids: Ids, cors: Cors, ids': Ids, cors': Cors)
    requires Sound(ids, cors) && (forall n :: n in want <==> n in names) && (forall n :: n in want ==> n in ids')
    requires Reached(want, ids, cors, ToSet(want, names, ids, cors), ids', cors')
    ensures AllConform(want, ids', cors') <==> NoConflict(want, ids)
  {
    if NoConflict(want, ids) {
      forall n | n in want ensures Conforms(want, ids', cors', n) {
        NameConforms(want, names, ids, cors, ids', cors', n);
      }
    }
    if AllConform(want, ids', cors') {
      forall a, b | a in want && b in want && a in ids && b in ids && ids[a] == ids[b]
        ensures Canonical(want[a]) == Canonical(want[b]) {
        assert Conforms(want, ids', cors', a) && Conforms(want, ids', cors', b);
      }
    }
  }

  lemma NameConforms(want: map<string, seq<Rule>>, names: Names, ids: Ids, cors: Cors, ids': Ids, cors': Cors,
      n: string)
    requires Sound(ids, cors) && n in want && n in names && n in ids' && NoConflict(want, ids)
    requires Reached(want, ids, cors, ToSet(want, names, ids, cors), ids', cors')
    ensures Conforms(want, ids', cors', n)
  {
    var written, id := ToSet(want, names, ids, cors), ids'[n];
    assert RulesAfter(want, written, cors, ids', cors', id);
    LastForHolds(written, ids', n);
    ToSetHolds(want, names, ids, cors, n);
    var last := LastFor(written, ids', id);
    if last.Some? {
      ToSetHolds(want, names, ids, cors, last.value);
    }
  }

  /** However a run ends, the next one starts without conflicts too. */
  lemma NoConflictStays(want: map<string, seq<Rule>>, ids: Ids, cors: Cors, written: Names, ids': Ids, cors': Cors)
    requires Reached(want, ids, cors, written, ids', cors') && NoConflict(want, ids)
    ensures NoConflict(want, ids') && Sound(ids', cors')
  {
  }

  /** A bucket none of whose names is declared keeps its rules. */
  lemma UndeclaredBucketKeepsRules(want: map<string, seq<Rule>>, ids: Ids, cors: Cors, written: Names, ids': Ids,
      cors': Cors, id: string)
    requires Reached(want, ids, cors, written, ids', cors') && id in cors
    requires forall n :: n in want && n in ids' ==> ids'[n] != id
    ensures id in cors' && cors'[id] == cors[id]
  {
    assert RulesAfter(want, written, cors, ids', cors', id);
    LastForIsOne(written, ids', id);
  }

  lemma {:induction false} LastForIsOne(names: Names, ids: Ids, id: string)
    ensures var l := LastFor(names, ids, id); l.Some? ==> l.value in ids && ids[l.value] == id
  {
    if names != [] {
      LastForIsOne(names[..|names| - 1], ids, id);
    }
  }

  lemma ConformIffNothingToDo(want: map<string, seq<Rule>>, names: Names, ids: Ids, cors: Cors)
    requires Sound(ids, cors) && forall n :: n in want <==> n in names
    ensures AllConform(want, ids, cors) <==>
      (forall n :: n in names ==> n in ids) && ToSet(want, names, ids, cors) == []
  {
    var toSet := ToSet(want, names, ids, cors);
    if AllConform(want, ids, cors) {
      assert forall n :: n in names ==> Conforms(want, ids, cors, n);
      if toSet != [] {
        ToSetHolds(want, names, ids, cors, toSet[0]);
      }
    } else {
      var n :| n in want && !Conforms(want, ids, cors, n);
      ToSetHolds(want, names, ids, cors, n);
    }
  }

  lemma WriteStep(want: map<string, seq<Rule>>, ids: Ids, cors: Cors, written: Names, ids': Ids, cors': Cors,
      n: string, kept: seq<Rule>)
    requires Reached(want, ids, cors, written, ids', cors') && n in want && n in ids' &&
      Canonical(kept) == Canonical(want[n])
    ensures Reached(want, ids, cors, written + [n], ids', cors'[ids'[n] := kept])
  {
  }

  /** No rules written yet: old buckets have theirs, new ones none. */
  ghost predicate Unwritten(cors: Cors, cors': Cors) {
    forall id :: id in cors' ==> cors'[id] == Before(cors, id)
  }

  lemma ReachedStart(want: map<string, seq<Rule>>, ids: Ids, cors: Cors, ids': Ids, cors': Cors)
    requires Grown(want, ids, cors, ids', cors') && Unwritten(cors, cors')
    ensures Reached(want, ids, cors, [], ids', cors')
  {
  }

  ghost predicate MadeBucket(ids: Ids, cors: Cors, name: string, ids': Ids, cors': Cors) {
    && name !in ids && name in ids' && ids'[name] !in cors
    && ids' == ids[name := ids'[name]] && cors' == cors[ids'[name] := []]
  }

  ghost predicate WroteRules(cors: Cors, id: string, rules: seq<Rule>, cors': Cors) {
    id in cors && id in cors' && cors' == cors[id := cors'[id]] && Canonical(cors'[id]) == Canonical(rules)
  }

  lemma GrowStep(want: map<string, seq<Rule>>, ids0: Ids, cors0: Cors, ids: Ids, cors: Cors, name: string, ids': Ids,
      cors': Cors)
    requires Grown(want, ids0, cors0, ids, cors) && Unwritten(cors0, cors) && name in want &&
      MadeBucket(ids, cors, name, ids', cors')
    ensures Grown(want, ids0, cors0, ids', cors') && Unwritten(cors0, cors')
  {
  }

  class Admin {
    var ids: Ids
    var cors: Cors

    /** CreateBucket: refused for an alias in use; may fail with or without effect. */
    method Create(name: string) returns (ok: bool, id: string)
      requires Sound(ids, cors)
      modifies this
      ensures (ids == old(ids) && cors == old(cors) && !ok) || MadeBucket(old(ids), old(cors), name, ids, cors)
      ensures ok ==> id == ids[name]
    {
      var newId: string := *;
      ok, id := false, "";
      if name !in ids && newId !in cors {
        ids, cors := ids[name := newId], cors[newId := []];
        ok, id := *, newId;
      }
    }

    /** UpdateBucket: Garage keeps the rules in their order, and may leave empty lists out. */
    method SetCors(id: string, rules: seq<Rule>) returns (ok: bool)
      modifies this`cors
      ensures (cors == old(cors) && !ok) || WroteRules(old(cors), id, rules, cors)
    {
      var kept: seq<Rule> := *;
      ok := false;
      if id in cors && Canonical(kept) == Canonical(rules) {
        cors := cors[id := kept];
        ok := *;
      }
    }

    method GetCors(id: string) returns (rules: Option<seq<Rule>>)
      ensures rules.Some? ==> id in cors && rules.value == cors[id]
    {
      var works: bool := *;
      rules := if works && id in cors then Some(cors[id]) else None;
    }

    /** Which declared buckets need their rules written; None when one cannot be read. */
    method PlanCors(want: map<string, seq<Rule>>, names: Names) returns (toSet: Option<Names>)
      requires Sound(ids, cors) && forall i :: 0 <= i < |names| ==> names[i] in want
      ensures toSet.Some? ==> toSet.value == ToSet(want, names, ids, cors)
    {
      var found: Names := [];
      for i := 0 to |names|
        invariant found == ToSet(want, names[..i], ids, cors)
      {
        var n := names[i];
        assert names[..i + 1][..i] == names[..i];
        if n !in ids {
          if want[n] != [] {
            found := found + [n];
          }
        } else {
          var info := GetCors(ids[n]);
          if info.None? {
            return None;
          }
          if Canonical(info.value) != Canonical(want[n]) {
            found := found + [n];
          }
        }
      }
      assert names[..|names|] == names;
      return Some(found);
    }

    method CreateMissing(want: map<string, seq<Rule>>, missing: Names) returns (ok: bool)
      requires Sound(ids, cors) && forall i :: 0 <= i < |missing| ==> missing[i] in want
      modifies this
      ensures Reached(want, old(ids), old(cors), [], ids, cors)
      ensures ok ==> forall n :: n in old(ids) || n in missing ==> n in ids
    {
      ghost var ids0, cors0 := ids, cors;
      ok := true;
      for i := 0 to |missing|
        invariant ok && Grown(want, ids0, cors0, ids, cors) && Unwritten(cors0, cors)
        invariant forall k :: 0 <= k < i ==> missing[k] in ids
      {
        ghost var idsBefore, corsBefore := ids, cors;
        var id;
        ok, id := Create(missing[i]);
        if MadeBucket(idsBefore, corsBefore, missing[i], ids, cors) {
          GrowStep(want, ids0, cors0, idsBefore, corsBefore, missing[i], ids, cors);
        }
        if !ok {
          break;
        }
      }
      ReachedStart(want, ids0, cors0, ids, cors);
    }

    method WriteAll(want: map<string, seq<Rule>>, toSet: Names, ghost ids0: Ids, ghost cors0: Cors)
      returns (ok: bool, ghost written: Names)
      requires Reached(want, ids0, cors0, [], ids, cors)
      requires forall i :: 0 <= i < |toSet| ==> toSet[i] in want && toSet[i] in ids
      modifies this`cors
      ensures Reached(want, ids0, cors0, written, ids, cors) && written <= toSet && (ok ==> written == toSet)
    {
      written := [];
      for i := 0 to |toSet|
        invariant written == toSet[..i] && Reached(want, ids0, cors0, written, ids, cors)
      {
        assert toSet[..i + 1] == toSet[..i] + [toSet[i]];
        ok, written := WriteOne(want, toSet[i], ids0, cors0, written);
        if !ok {
          return;
        }
      }
      ok := true;
    }

    method WriteOne(want: map<string, seq<Rule>>, n: string, ghost ids0: Ids, ghost cors0: Cors, ghost before: Names)
      returns (ok: bool, ghost written: Names)
      requires Reached(want, ids0, cors0, before, ids, cors) && n in want && n in ids
      modifies this`cors
      ensures Reached(want, ids0, cors0, written, ids, cors)
      ensures written == before + [n] || (!ok && written == before)
    {
      ghost var was := cors;
      written := before;
      if ids[n] == "" {
        return false, before;
      }
      ok := SetCors(ids[n], want[n]);
      if WroteRules(was, ids[n], want[n], cors) {
        WriteStep(want, ids0, cors0, before, ids, was, n, cors[ids[n]]);
        written := before + [n];
      }
    }

    method Missing(names: Names) returns (missing: Names)
      ensures forall i :: 0 <= i < |missing| ==> missing[i] in names && missing[i] !in ids
      ensures forall n :: n in names ==> n in ids || n in missing
    {
      missing := [];
      for i := 0 to |names|
        invariant forall k :: 0 <= k < |missing| ==> missing[k] in names && missing[k] !in ids
        invariant forall k :: 0 <= k < i ==> names[k] in ids || names[k] in missing
      {
        if names[i] !in ids {
          missing := missing + [names[i]];
        }
      }
    }

    /** `do_sync_buckets` */
    method SyncBuckets(desired: seq<Decl>, check: bool) returns (r: Report, ghost written: Names)
      requires Sound(ids, cors)
      modifies this
      ensures Wanted(desired).None? ==> r == Fail && ids == old(ids) && cors == old(cors)
      ensures r == NoChange || r == WouldChange || check ==> ids == old(ids) && cors == old(cors)
      ensures r == NoChange ==> Wanted(desired).Some? && AllConform(Wanted(desired).value, old(ids), old(cors))
      ensures r == Changed || r == WouldChange ==>
        Wanted(desired).Some? && !AllConform(Wanted(desired).value, old(ids), old(cors))
      ensures Wanted(desired).Some? ==> Reached(Wanted(desired).value, old(ids), old(cors), written, ids, cors)
      ensures r == Changed ==>
        && written == ToSet(Wanted(desired).value, NamesOf(desired), old(ids), old(cors))
        && forall n :: n in Wanted(desired).value ==> n in ids
    {
      written := [];
      ghost var ids0, cors0 := ids, cors;
      if Wanted(desired).None? {
        return Fail, [];
      }
      var want, names := Wanted(desired).value, NamesOf(desired);
      NamesAreWanted(desired);
      ReachedStart(want, ids, cors, ids, cors);
      ConformIffNothingToDo(want, names, ids, cors);
      var missing := Missing(names);
      var toSet := PlanCors(want, names);
      if toSet.None? {
        return Fail, [];
      }
      if missing == [] && toSet.value == [] {
        return NoChange, [];
      }
      assert missing != [] ==> missing[0] in names && missing[0] !in ids;
      if check {
        return WouldChange, [];
      }
      ToSetNames(want, names, ids, cors);
      var ok := CreateMissing(want, missing);
      if !ok {
        return Fail, [];
      }
      ok, written := WriteAll(want, toSet.value, ids0, cors0);
      return if ok then Changed else Fail, written;
    }
  }

  function NamesOf(desired: seq<Decl>): Names {
    seq(|desired|, i requires 0 <= i < |desired| => desired[i].name)
  }

  lemma NamesAreWanted(desired: seq<Decl>)
    requires Wanted(desired).Some?
    ensures forall n :: n in Wanted(desired).value <==> n in NamesOf(desired)
  {
    WantedNames(desired);
    forall n ensures n in Wanted(desired).value <==> n in NamesOf(desired) {
      if i :| 0 <= i < |desired| && desired[i].name == n {
        assert NamesOf(desired)[i] == n;
      }
      if i :| 0 <= i < |desired| && NamesOf(desired)[i] == n {
        assert desired[i].name == n;
      }
    }
  }
}
