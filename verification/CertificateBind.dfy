/**
 set-default and bind-services of
 ansible/synology/roles/synology_certificate/files/apply_certificate.py, and the fixpoint of a
 whole pass: letsencrypt-create, set-default, bind-services, all three again, no change.
*/
module CertificateBind {
  import opened Wrappers
  import opened Certificate

  type Key = (string, string)

  datatype Setting = Setting(service: Service, oldId: string, id: string)

  datatype Report = NoChange | WouldChange | Changed | Fail

  function KeyOf(s: Service): Key {
    (s.service, s.subscriber)
  }

  // ----- which certificate holds a service -----

  function HeldIn(services: seq<Service>, key: Key): (r: Option<Service>)
    ensures r.Some? ==> KeyOf(r.value) == key
  {
    if services == [] then None
    else
      var last := services[|services| - 1];
      if KeyOf(last) == key then Some(last) else HeldIn(services[..|services| - 1], key)
  }

  /** `current[key]`: a later certificate of the list wins. */
  function Holder(certs: seq<Cert>, key: Key): (r: Option<(string, Service)>)
    ensures r.Some? ==> KeyOf(r.value.1) == key
  {
    if certs == [] then None
    else
      var last := certs[|certs| - 1];
      var s := HeldIn(last.services, key);
      if s.Some? then Some((last.id, s.value)) else Holder(certs[..|certs| - 1], key)
  }

  /** Every certificate that holds `key` is the one with this id. */
  ghost predicate At(certs: seq<Cert>, key: Key, id: string) {
    forall i :: 0 <= i < |certs| && HeldIn(certs[i].services, key).Some? ==> certs[i].id == id
  }

  /** Each service sits on one certificate. */
  ghost predicate OneHolder(certs: seq<Cert>) {
    forall key :: Holder(certs, key).Some? ==> At(certs, key, Holder(certs, key).value.0)
  }

  lemma {:induction false} HolderComplete(certs: seq<Cert>, key: Key)
    ensures Holder(certs, key).None? ==> forall i :: 0 <= i < |certs| ==> HeldIn(certs[i].services, key).None?
    ensures Holder(certs, key).Some? ==> exists i :: 0 <= i < |certs| && certs[i].id == Holder(certs, key).value.0
                                                  && HeldIn(certs[i].services, key) == Some(Holder(certs, key).value.1)
  {
    if certs != [] {
      HolderComplete(certs[..|certs| - 1], key);
    }
  }

  /** The `current` dictionary. */
  method IndexServices(certs: seq<Cert>) returns (current: map<Key, (string, Service)>)
    ensures forall key :: Holder(certs, key) == if key in current then Some(current[key]) else None
  {
    current := map[];
    for i := 0 to |certs|
      invariant forall key :: Holder(certs[..i], key) == if key in current then Some(current[key]) else None
    {
      ghost var before := current;
      var c := certs[i];
      assert certs[..i + 1][..i] == certs[..i];
      for j := 0 to |c.services|
        invariant forall key :: (var held := HeldIn(c.services[..j], key);
          if held.Some? then key in current && current[key] == (c.id, held.value)
          else (key in current <==> key in before) && (key in before ==> current[key] == before[key]))
      {
        assert c.services[..j + 1][..j] == c.services[..j];
        current := current[KeyOf(c.services[j]) := (c.id, c.services[j])];
      }
      assert c.services[..|c.services|] == c.services;
    }
    assert certs[..|certs|] == certs;
  }

  // ----- what bind-services moves -----

  function TargetNames(d: Dsm, id: string): set<string> {
    var names := Sans(d.sans, id);
    if names.Some? then names.value else {}
  }

  /** Listed in the spec, or a reverse-proxy entry whose hostname the target certificate covers. */
  predicate Wanted(d: Dsm, id: string, bindings: seq<Key>, s: Service) {
    KeyOf(s) in bindings || (s.subscriber == "ReverseProxy" && s.displayName in TargetNames(d, id))
  }

  predicate Moves(d: Dsm, id: string, bindings: seq<Key>, key: Key) {
    var h := Holder(d.certs, key);
    h.Some? && h.value.0 != id && Wanted(d, id, bindings, h.value.1)
  }

  /** The settings move exactly the services that are to move, each from where it is. */
  ghost predicate MovesExactly(d: Dsm, id: string, bindings: seq<Key>, settings: seq<Setting>) {
    && (forall x :: x in settings ==>
          && x.id == id && Moves(d, id, bindings, KeyOf(x.service))
          && Holder(d.certs, KeyOf(x.service)) == Some((x.oldId, x.service)))
    && (forall key :: Moves(d, id, bindings, key) ==> HasSetting(settings, key))
  }

  ghost predicate HasSetting(settings: seq<Setting>, key: Key) {
    exists x :: x in settings && KeyOf(x.service) == key
  }

  lemma HasSettingMore(settings: seq<Setting>, x: Setting)
    ensures HasSetting(settings + [x], KeyOf(x.service))
    ensures forall key :: HasSetting(settings, key) ==> HasSetting(settings + [x], key)
  {
  }

  method PlanBindings(d: Dsm, id: string, bindings: seq<Key>) returns (settings: seq<Setting>)
    ensures MovesExactly(d, id, bindings, settings)
  {
    var current := IndexServices(d.certs);
    settings := [];
    for i := 0 to |bindings|
      invariant forall x :: x in settings ==>
        x.id == id && Moves(d, id, bindings, KeyOf(x.service)) &&
          Holder(d.certs, KeyOf(x.service)) == Some((x.oldId, x.service))
      invariant forall j :: 0 <= j < i && Moves(d, id, bindings, bindings[j]) ==> HasSetting(settings, bindings[j])
    {
      var key := bindings[i];
      // A service on no certificate is skipped with a warning.
      if key in current && current[key].0 != id {
        var x := Setting(current[key].1, current[key].0, id);
        assert Holder(d.certs, key) == Some(current[key]);
        HasSettingMore(settings, x);
        settings := settings + [x];
      }
    }
    // The source visits the keys in the order of str(key), which changes no outcome.
    var rest := current.Keys;
    while rest != {}
      invariant rest <= current.Keys
      invariant forall x :: x in settings ==>
        x.id == id && Moves(d, id, bindings, KeyOf(x.service)) &&
          Holder(d.certs, KeyOf(x.service)) == Some((x.oldId, x.service))
      invariant forall key :: key in current.Keys - rest && Moves(d, id, bindings, key) ==> HasSetting(settings, key)
      invariant forall j :: 0 <= j < |bindings| && Moves(d, id, bindings, bindings[j]) ==>
        HasSetting(settings, bindings[j])
      decreases rest
    {
      var key :| key in rest;
      rest := rest - {key};
      assert Holder(d.certs, key) == Some(current[key]);
      var (old_, s) := current[key];
      if s.subscriber == "ReverseProxy" && old_ != id && s.displayName in TargetNames(d, id) {
        HasSettingMore(settings, Setting(s, old_, id));
        settings := settings + [Setting(s, old_, id)];
      }
    }
  }

  // ----- what Service.set does -----

  function Without(services: seq<Service>, key: Key): seq<Service> {
    if services == [] then []
    else
      var last := services[|services| - 1];
      var init := Without(services[..|services| - 1], key);
      if KeyOf(last) == key then init else init + [last]
  }

  function MovedIn(c: Cert, x: Setting): Cert {
    var kept := if c.id == x.oldId then Without(c.services, KeyOf(x.service)) else c.services;
    c.(services := if c.id == x.id then kept + [x.service] else kept)
  }

  function MovedOne(certs: seq<Cert>, x: Setting): (r: seq<Cert>)
    ensures |r| == |certs|
  {
    seq(|certs|, i requires 0 <= i < |certs| => MovedIn(certs[i], x))
  }

  function MovedAll(certs: seq<Cert>, settings: seq<Setting>): (r: seq<Cert>)
    ensures |r| == |certs|
  {
    if settings == [] then certs
    else MovedOne(MovedAll(certs, settings[..|settings| - 1]), settings[|settings| - 1])
  }

  lemma {:induction false} WithoutHeld(services: seq<Service>, key: Key, other: Key)
    ensures HeldIn(Without(services, key), other) == if key == other then None else HeldIn(services, other)
  {
    if services != [] {
      var init, last := services[..|services| - 1], services[|services| - 1];
      WithoutHeld(init, key, other);
      if KeyOf(last) != key {
        assert Without(services, key)[..|Without(init, key)|] == Without(init, key);
      }
    }
  }

  lemma MovedInHeld(c: Cert, x: Setting, key: Key)
    requires x.oldId != x.id
    ensures HeldIn(MovedIn(c, x).services, key) ==
      if key != KeyOf(x.service) then HeldIn(c.services, key)
      else if c.id == x.id then Some(x.service)
      else if c.id == x.oldId then None
      else HeldIn(c.services, key)
  {
    WithoutHeld(c.services, KeyOf(x.service), key);
    assert (c.services + [x.service])[..|c.services|] == c.services;
  }

  lemma {:induction false} MovedElsewhere(certs: seq<Cert>, x: Setting, key: Key)
    requires x.oldId != x.id && key != KeyOf(x.service)
    ensures Holder(MovedOne(certs, x), key) == Holder(certs, key)
    ensures forall id :: At(certs, key, id) ==> At(MovedOne(certs, x), key, id)
  {
    forall i | 0 <= i < |certs| ensures HeldIn(MovedOne(certs, x)[i].services, key) == HeldIn(certs[i].services, key) {
      MovedInHeld(certs[i], x, key);
    }
    if certs != [] {
      MovedElsewhere(certs[..|certs| - 1], x, key);
      assert MovedOne(certs, x)[..|certs| - 1] == MovedOne(certs[..|certs| - 1], x);
    }
  }

  /** A service held only by the old certificate or the target is, once moved, held only by the target. */
  lemma MovedHere(certs: seq<Cert>, x: Setting)
    requires x.oldId != x.id && exists c :: c in certs && c.id == x.id
    requires At(certs, KeyOf(x.service), x.oldId) || At(certs, KeyOf(x.service), x.id)
    ensures At(MovedOne(certs, x), KeyOf(x.service), x.id)
    ensures Holder(MovedOne(certs, x), KeyOf(x.service)).Some? &&
      Holder(MovedOne(certs, x), KeyOf(x.service)).value.0 == x.id
  {
    var key, after := KeyOf(x.service), MovedOne(certs, x);
    forall i | 0 <= i < |certs| && HeldIn(after[i].services, key).Some? ensures after[i].id == x.id {
      MovedInHeld(certs[i], x, key);
    }
    HolderComplete(after, key);
    var c :| c in certs && c.id == x.id;
    var i :| 0 <= i < |certs| && certs[i] == c;
    MovedInHeld(certs[i], x, key);
    assert HeldIn(after[i].services, key).Some?;
  }

  lemma {:induction false} MovedIds(certs: seq<Cert>, settings: seq<Setting>)
    ensures forall i :: 0 <= i < |certs| ==>
      && MovedAll(certs, settings)[i].id == certs[i].id
      && MovedAll(certs, settings)[i].commonName == certs[i].commonName
      && MovedAll(certs, settings)[i].validTill == certs[i].validTill
      && MovedAll(certs, settings)[i].isDefault == certs[i].isDefault
  {
    if settings != [] {
      MovedIds(certs, settings[..|settings| - 1]);
    }
  }

  /** After the settings: moved services are on the target alone, the others where they were. */
  lemma {:induction false} MovedAllHeld(certs: seq<Cert>, settings: seq<Setting>, id: string, key: Key)
    requires exists c :: c in certs && c.id == id
    requires forall x :: x in settings ==> x.id == id && x.oldId != id && At(certs, KeyOf(x.service), x.oldId)
    ensures var after := MovedAll(certs, settings);
      if HasSetting(settings, key) then
        At(after, key, id) && Holder(after, key).Some? && Holder(after, key).value.0 == id
      else
        Holder(after, key) == Holder(certs, key) && forall old_ :: At(certs, key, old_) ==> At(after, key, old_)
  {
    if settings != [] {
      var init, x := settings[..|settings| - 1], settings[|settings| - 1];
      assert settings == init + [x];
      HasSettingMore(init, x);
      MovedAllHeld(certs, init, id, key);
      var before := MovedAll(certs, init);
      if key == KeyOf(x.service) {
        MovedIds(certs, init);
        assert exists c :: c in before && c.id == id by {
          var c :| c in certs && c.id == id;
          var i :| 0 <= i < |certs| && certs[i] == c;
          assert before[i] in before;
        }
        MovedHere(before, x);
      } else {
        MovedElsewhere(before, x, key);
        assert HasSetting(settings, key) ==> HasSetting(init, key);
      }
    }
  }

  // ----- the subcommands -----

  function MadeDefault(d: Dsm, id: string): Dsm {
    d.(certs := seq(|d.certs|, i requires 0 <= i < |d.certs| => d.certs[i].(isDefault := d.certs[i].id == id)))
  }

  function Bound(d: Dsm, settings: seq<Setting>): Dsm {
    d.(certs := MovedAll(d.certs, settings))
  }

  function Issued(d: Dsm, c: Cert, names: set<string>): Dsm {
    Dsm(d.certs + [c], d.sans[c.id := names])
  }

  /** One DSM call as it turns out; a failing one may still have taken effect. */
  datatype Call = Call(ok: bool, effect: bool)

  predicate Took(c: Call) {
    c.ok || c.effect
  }

  class Nas {
    var dsm: Dsm

    constructor (d: Dsm)
      ensures dsm == d
    {
      dsm := d;
    }

    /**
     `letsencrypt-create`. `listed`: the certificates could be listed; `issued` and `names` are what
     Let's Encrypt and DSM make of the request.
    */
    method LetsEncryptCreate(spec: Spec, now: int, check: bool, listed: bool, call: Call, issued: Cert,
        names: set<string>)
      returns (r: Report)
      modifies this
      ensures !listed ==> r == Fail
      ensures r == NoChange <==> listed && !Issues(old(dsm), spec, now)
      ensures dsm == if listed && Issues(old(dsm), spec, now) && !check && Took(call)
                     then Issued(old(dsm), issued, names) else old(dsm)
      ensures listed && Issues(old(dsm), spec, now) ==>
        r == if check then WouldChange else if call.ok then Changed else Fail
    {
      if !listed {
        return Fail;
      }
      var existing := Resolve(dsm, spec);
      if existing.Some? {
        var actual := Sans(dsm.sans, existing.value.id);
        var drifted := actual.Some? && actual.value != spec.names;
        if !drifted && existing.value.validTill.Some? && existing.value.validTill.value - now > spec.buffer {
          return NoChange;
        }
      }
      if check {
        return WouldChange;
      }
      if Took(call) {
        dsm := Issued(dsm, issued, names);
      }
      return if call.ok then Changed else Fail;
    }

    /** `set-default` */
    method SetDefault(spec: Spec, check: bool, listed: bool, call: Call) returns (r: Report)
      modifies this
      ensures !listed ==> r == Fail
      ensures r == NoChange <==> listed && Keeper(old(dsm), spec).Some? && Keeper(old(dsm), spec).value.isDefault
      ensures dsm ==
        if listed && Keeper(old(dsm), spec).Some? && !Keeper(old(dsm), spec).value.isDefault && !check && Took(call)
        then MadeDefault(old(dsm), Keeper(old(dsm), spec).value.id) else old(dsm)
      ensures r == Changed <==>
        listed && Keeper(old(dsm), spec).Some? && !Keeper(old(dsm), spec).value.isDefault && !check && call.ok
      ensures check && listed ==> r == NoChange || r == WouldChange
    {
      if !listed {
        return Fail;
      }
      var existing := Resolve(dsm, spec);
      if existing.None? {
        return if check then WouldChange else Fail;
      }
      if existing.value.isDefault {
        return NoChange;
      }
      if check {
        return WouldChange;
      }
      if Took(call) {
        dsm := MadeDefault(dsm, existing.value.id);
      }
      return if call.ok then Changed else Fail;
    }

    /** `bind-services` */
    method BindServices(spec: Spec, bindings: seq<Key>, check: bool, listed: bool, call: Call)
      returns (r: Report, settings: seq<Setting>)
      modifies this
      ensures !listed ==> r == Fail && settings == []
      ensures listed && Keeper(old(dsm), spec).None? ==> r == (if check then WouldChange else Fail) && settings == []
      ensures listed && Keeper(old(dsm), spec).Some? ==>
        && MovesExactly(old(dsm), Keeper(old(dsm), spec).value.id, bindings, settings)
        && (r == NoChange <==> settings == [])
        && (settings != [] ==> r == if check then WouldChange else if call.ok then Changed else Fail)
      ensures dsm == if settings != [] && !check && Took(call) then Bound(old(dsm), settings) else old(dsm)
    {
      settings := [];
      if !listed {
        return Fail, [];
      }
      var target := Resolve(dsm, spec);
      if target.None? {
        return if check then WouldChange else Fail, [];
      }
      settings := PlanBindings(dsm, target.value.id, bindings);
      if settings == [] {
        return NoChange, [];
      }
      if check {
        return WouldChange, settings;
      }
      if Took(call) {
        dsm := Bound(dsm, settings);
      }
      return if call.ok then Changed else Fail, settings;
    }
  }

  // ----- the fixpoint -----

  ghost predicate IdsDistinct(certs: seq<Cert>) {
    forall i, j :: 0 <= i < j < |certs| ==> certs[i].id != certs[j].id
  }

  /** What rank and issuance look at. */
  function Core(c: Cert): Cert {
    c.(isDefault := false, services := [])
  }

  ghost predicate SameCores(a: Dsm, b: Dsm) {
    && a.sans == b.sans
    && (forall c :: c in a.certs ==> HasCore(b, Core(c)))
    && (forall c :: c in b.certs ==> HasCore(a, Core(c)))
  }

  ghost predicate HasCore(d: Dsm, core: Cert) {
    exists c :: c in d.certs && Core(c) == core
  }

  ghost predicate DuplicatesRanked(d: Dsm, spec: Spec) {
    forall a, b :: a in d.certs && b in d.certs && a.commonName == b.commonName == spec.domain && Core(a) != Core(b) ==>
      RankOf(d.sans, spec, a) != RankOf(d.sans, spec, b)
  }

  lemma KeeperSame(a: Dsm, b: Dsm, spec: Spec)
    requires SameCores(a, b) && DuplicatesRanked(a, spec)
    ensures Keeper(a, spec).Some? <==> Keeper(b, spec).Some?
    ensures Keeper(a, spec).Some? ==> Core(Keeper(a, spec).value) == Core(Keeper(b, spec).value)
  {
    KeeperIsBest(a.certs, a.sans, spec);
    KeeperIsBest(b.certs, b.sans, spec);
    var x, y := Keeper(a, spec), Keeper(b, spec);
    assert y.Some? ==> HasCore(a, Core(y.value));
    if x.Some? {
      var x' :| x' in b.certs && Core(x') == Core(x.value);
      assert y.Some?;
      var y' :| y' in a.certs && Core(y') == Core(y.value);
      assert RankLe(RankOf(b.sans, spec, x'), RankOf(b.sans, spec, y.value));
      assert RankLe(RankOf(a.sans, spec, y'), RankOf(a.sans, spec, x.value));
      assert RankOf(a.sans, spec, y') == RankOf(a.sans, spec, x.value);
    }
  }

  lemma {:induction false} HolderOrderFree(a: seq<Cert>, b: seq<Cert>, key: Key, id: string)
    requires IdsDistinct(a) && IdsDistinct(b) && (forall c :: c in a <==> c in b)
    requires At(a, key, id)
    ensures Holder(a, key) == Holder(b, key)
  {
    HolderComplete(a, key);
    HolderComplete(b, key);
    forall c | c in b && HeldIn(c.services, key).Some? ensures c.id == id {
      var i :| 0 <= i < |a| && a[i] == c;
    }
    if Holder(a, key).Some? {
      var i :| 0 <= i < |a| && a[i].id == Holder(a, key).value.0 &&
        HeldIn(a[i].services, key) == Some(Holder(a, key).value.1);
      assert a[i] in b;
      var j :| 0 <= j < |b| && b[j].id == Holder(b, key).value.0 &&
        HeldIn(b[j].services, key) == Some(Holder(b, key).value.1);
      assert b[j] in a && b[j] in b;
      assert b[j].id == id == a[i].id;
      var n :| 0 <= n < |a| && a[n] == b[j];
      assert n == i;
    } else {
      forall c | c in b ensures HeldIn(c.services, key).None? {
        assert c in a;
        var n :| 0 <= n < |a| && a[n] == c;
      }
    }
  }

  /** After the bindings are set nothing is left to move, in whatever order DSM lists its certificates. */
  lemma NothingLeftToMove(d: Dsm, d': Dsm, id: string, bindings: seq<Key>, settings: seq<Setting>, key: Key)
    requires IdsDistinct(d.certs) && OneHolder(d.certs) && (exists c :: c in d.certs && c.id == id)
    requires MovesExactly(d, id, bindings, settings)
    requires d'.sans == d.sans && IdsDistinct(d'.certs)
    requires forall c :: c in d'.certs <==> c in Bound(d, settings).certs
    ensures !Moves(d', id, bindings, key)
  {
    var after := MovedAll(d.certs, settings);
    forall x | x in settings ensures x.id == id && x.oldId != id && At(d.certs, KeyOf(x.service), x.oldId) {
    }
    MovedAllHeld(d.certs, settings, id, key);
    MovedIds(d.certs, settings);
    if HasSetting(settings, key) {
      HolderOrderFree(after, d'.certs, key, id);
    } else {
      HolderComplete(d.certs, key);
      var old_ := if Holder(d.certs, key).Some? then Holder(d.certs, key).value.0 else "";
      assert At(d.certs, key, old_);
      HolderOrderFree(after, d'.certs, key, old_);
      assert !Moves(d, id, bindings, key);
    }
  }

  lemma BoundCores(d: Dsm, settings: seq<Setting>)
    ensures SameCores(d, Bound(d, settings))
  {
    MovedIds(d.certs, settings);
    var b := Bound(d, settings);
    forall c | c in d.certs ensures HasCore(b, Core(c)) {
      var i :| 0 <= i < |d.certs| && d.certs[i] == c;
      assert b.certs[i] in b.certs && Core(b.certs[i]) == Core(c);
    }
    forall c | c in b.certs ensures HasCore(d, Core(c)) {
      var i :| 0 <= i < |b.certs| && b.certs[i] == c;
      assert d.certs[i] in d.certs && Core(d.certs[i]) == Core(c);
    }
  }

  lemma DefaultCores(d: Dsm, id: string)
    ensures SameCores(d, MadeDefault(d, id))
  {
    var b := MadeDefault(d, id);
    forall c | c in d.certs ensures HasCore(b, Core(c)) {
      var i :| 0 <= i < |d.certs| && d.certs[i] == c;
      assert b.certs[i] in b.certs && Core(b.certs[i]) == Core(c);
    }
    forall c | c in b.certs ensures HasCore(d, Core(c)) {
      var i :| 0 <= i < |b.certs| && b.certs[i] == c;
      assert d.certs[i] in d.certs && Core(d.certs[i]) == Core(c);
    }
  }

  lemma SameCoresTransitive(a: Dsm, b: Dsm, c: Dsm)
    requires SameCores(a, b) && SameCores(b, c)
    ensures SameCores(a, c)
  {
  }

  /**
   `d` is what letsencrypt-create left, with nothing more to issue. Set-default, then bind-services;
   DSM lists the result in any order. All three now change nothing: the keeper is the same
   certificate, it is the default, and no service is left to move.
  */
  lemma SecondPassIsNoChange(d: Dsm, d': Dsm, spec: Spec, now: int, bindings: seq<Key>, settings: seq<Setting>, k: Cert)
    requires IdsDistinct(d.certs) && OneHolder(d.certs) && DuplicatesRanked(d, spec)
    requires Keeper(d, spec) == Some(k) && !Issues(d, spec, now)
    requires MovesExactly(Defaulted(d, k), k.id, bindings, settings)
    requires d'.sans == d.sans && IdsDistinct(d'.certs)
    requires forall c :: c in d'.certs <==> c in Bound(Defaulted(d, k), settings).certs
    ensures !Issues(d', spec, now)
    ensures var k' := Keeper(d', spec); k'.Some? && k'.value.id == k.id && k'.value.isDefault
    ensures forall more :: MovesExactly(d', k.id, bindings, more) ==> more == []
  {
    var d2 := Defaulted(d, k);
    PassCores(d, d', k, settings);
    KeeperSame(d, d', spec);
    KeeperIsBest(d.certs, d.sans, spec);
    KeeperIsBest(d'.certs, d'.sans, spec);
    DefaultedStill(d, k);
    DefaultSurvives(d2, d', k.id, settings, Keeper(d', spec).value);
    forall key ensures !Moves(d', k.id, bindings, key) {
      NothingLeftToMove(d2, d', k.id, bindings, settings, key);
    }
    forall more | MovesExactly(d', k.id, bindings, more) ensures more == [] {
      NoSettings(d', k.id, bindings, more);
    }
  }

  lemma NoSettings(d: Dsm, id: string, bindings: seq<Key>, settings: seq<Setting>)
    requires MovesExactly(d, id, bindings, settings) && forall key :: !Moves(d, id, bindings, key)
    ensures settings == []
  {
    assert forall x :: x !in settings;
    Emptiness(settings);
  }

  lemma Emptiness(settings: seq<Setting>)
    ensures settings == [] || exists x :: x in settings
  {
    if settings != [] {
      assert settings[0] in settings;
    }
  }

  /** What set-default leaves: unchanged if the keeper already is the default. */
  function Defaulted(d: Dsm, k: Cert): Dsm {
    if k.isDefault then d else MadeDefault(d, k.id)
  }

  lemma PassCores(d: Dsm, d': Dsm, k: Cert, settings: seq<Setting>)
    requires d'.sans == d.sans
    requires forall c :: c in d'.certs <==> c in Bound(Defaulted(d, k), settings).certs
    ensures SameCores(d, d')
  {
    var d2 := Defaulted(d, k);
    DefaultCores(d, k.id);
    BoundCores(d2, settings);
    var d3 := Bound(d2, settings);
    assert SameCores(d, d2) by {
      if k.isDefault {
        forall c | c in d.certs ensures HasCore(d, Core(c)) {
        }
      }
    }
    SameCoresTransitive(d, d2, d3);
    forall c | c in d.certs ensures HasCore(d', Core(c)) {
      var y :| y in d3.certs && Core(y) == Core(c);
      assert y in d'.certs;
    }
  }

  lemma {:induction false} DefaultHolder(certs: seq<Cert>, id: string, key: Key)
    ensures var after := MadeDefault(Dsm(certs, map[]), id).certs;
      Holder(after, key) == Holder(certs, key) && forall old_ :: At(certs, key, old_) ==> At(after, key, old_)
  {
    if certs != [] {
      DefaultHolder(certs[..|certs| - 1], id, key);
      assert MadeDefault(Dsm(certs, map[]), id).certs[..|certs| - 1]
          == MadeDefault(Dsm(certs[..|certs| - 1], map[]), id).certs;
    }
  }

  lemma DefaultedStill(d: Dsm, k: Cert)
    requires IdsDistinct(d.certs) && OneHolder(d.certs) && k in d.certs
    ensures var d2 := Defaulted(d, k);
      && IdsDistinct(d2.certs) && OneHolder(d2.certs)
      && (forall c :: c in d2.certs && c.id == k.id ==> c.isDefault)
      && (exists c :: c in d2.certs && c.id == k.id)
  {
    var d2 := Defaulted(d, k);
    var i :| 0 <= i < |d.certs| && d.certs[i] == k;
    assert d2.certs[i] in d2.certs && d2.certs[i].id == k.id;
    forall key | Holder(d2.certs, key).Some? ensures At(d2.certs, key, Holder(d2.certs, key).value.0) {
      DefaultHolder(d.certs, k.id, key);
      assert MadeDefault(d, k.id).certs == MadeDefault(Dsm(d.certs, map[]), k.id).certs;
    }
  }

  lemma DefaultSurvives(d2: Dsm, d': Dsm, id: string, settings: seq<Setting>, c: Cert)
    requires forall x :: x in d2.certs && x.id == id ==> x.isDefault
    requires forall x :: x in d'.certs <==> x in Bound(d2, settings).certs
    requires c in d'.certs && c.id == id
    ensures c.isDefault
  {
    MovedIds(d2.certs, settings);
    var i :| 0 <= i < |d2.certs| && Bound(d2, settings).certs[i] == c;
    assert d2.certs[i] in d2.certs;
  }

  /** A certificate issued as asked for, readable and with life left, ends the need to issue. */
  lemma IssuedIsEnough(d: Dsm, spec: Spec, now: int, c: Cert)
    requires spec.names != {} && c.commonName == spec.domain && Alive(spec, c, now)
    ensures !Issues(Issued(d, c, spec.names), spec, now)
  {
  }
}
