/**
 Which certificate ansible/synology/roles/synology_certificate/files/apply_certificate.py keeps
 among duplicates, when it issues another, and why a second pass of letsencrypt-create,
 set-default and bind-services changes nothing.
*/
module Certificate {
  import opened Wrappers

  datatype Service = Service(service: string, subscriber: string, displayName: string)

  // validTill is None when DSM's date does not parse. Names are lower-cased throughout.
  datatype Cert = Cert(id: string, commonName: string, validTill: Option<int>, isDefault: bool, services: seq<Service>)

  /** DSM: the certificates as listed, and the names read from each one's PEM (absent: unreadable). */
  datatype Dsm = Dsm(certs: seq<Cert>, sans: map<string, set<string>>)

  /** What the role wants; `buffer` is how long before expiry it renews. */
  datatype Spec = Spec(domain: string, names: set<string>, buffer: int)

  function Sans(sans: map<string, set<string>>, id: string): Option<set<string>> {
    if id in sans && sans[id] != {} then Some(sans[id]) else None
  }

  /** (carries exactly the wanted names, expiry); an unparseable expiry is the oldest. */
  datatype Rank = Rank(exact: bool, expiry: Option<int>)

  function RankOf(sans: map<string, set<string>>, spec: Spec, c: Cert): Rank {
    Rank(Sans(sans, c.id) == Some(spec.names), c.validTill)
  }

  predicate ExpiryLe(a: Option<int>, b: Option<int>) {
    a.None? || (b.Some? && a.value <= b.value)
  }

  predicate RankLe(a: Rank, b: Rank) {
    (!a.exact && b.exact) || (a.exact == b.exact && ExpiryLe(a.expiry, b.expiry))
  }

  predicate Best(d: Dsm, spec: Spec, c: Cert) {
    && c in d.certs && c.commonName == spec.domain
    && forall x :: x in d.certs && x.commonName == spec.domain ==>
      RankLe(RankOf(d.sans, spec, x), RankOf(d.sans, spec, c))
  }

  /** `sorted(matches, key=rank)[-1]`: the last of the best-ranked certificates for the domain. */
  function Keeper(d: Dsm, spec: Spec): Option<Cert> {
    KeeperOf(d.certs, d.sans, spec)
  }

  function KeeperOf(certs: seq<Cert>, sans: map<string, set<string>>, spec: Spec): Option<Cert> {
    if certs == [] then None
    else
      var best, last := KeeperOf(certs[..|certs| - 1], sans, spec), certs[|certs| - 1];
      if last.commonName != spec.domain then best
      else if best.None? || RankLe(RankOf(sans, spec, best.value), RankOf(sans, spec, last)) then Some(last)
      else best
  }

  /** `_resolve_domain` with on_duplicate "newest" */
  method Resolve(d: Dsm, spec: Spec) returns (r: Option<Cert>)
    ensures r == Keeper(d, spec)
  {
    r := None;
    for i := 0 to |d.certs|
      invariant r == KeeperOf(d.certs[..i], d.sans, spec)
    {
      var c := d.certs[i];
      assert d.certs[..i + 1][..i] == d.certs[..i];
      if c.commonName == spec.domain && (r.None? || RankLe(RankOf(d.sans, spec, r.value), RankOf(d.sans, spec, c))) {
        r := Some(c);
      }
    }
    assert d.certs[..|d.certs|] == d.certs;
  }

  lemma {:induction false} KeeperIsBest(certs: seq<Cert>, sans: map<string, set<string>>, spec: Spec)
    ensures var k := KeeperOf(certs, sans, spec);
      && (k.Some? ==> Best(Dsm(certs, sans), spec, k.value))
      && (k.None? ==> forall x :: x in certs ==> x.commonName != spec.domain)
  {
    if certs != [] {
      KeeperIsBest(certs[..|certs| - 1], sans, spec);
      assert certs == certs[..|certs| - 1] + [certs[|certs| - 1]];
    }
  }

  ghost predicate RanksDistinct(d: Dsm, spec: Spec) {
    forall a, b :: a in d.certs && b in d.certs && a.commonName == b.commonName == spec.domain && a != b ==>
      RankOf(d.sans, spec, a) != RankOf(d.sans, spec, b)
  }

  // ----- letsencrypt-create -----

  predicate Alive(spec: Spec, c: Cert, now: int) {
    c.validTill.Some? && c.validTill.value - now > spec.buffer
  }

  /** Does letsencrypt-create issue a certificate? */
  predicate Issues(d: Dsm, spec: Spec, now: int) {
    match Keeper(d, spec)
    case None => true
    case Some(c) =>
      var actual := Sans(d.sans, c.id);
      (actual.Some? && actual.value != spec.names) || !Alive(spec, c, now)
  }

  /** A certificate for the domain with exactly the wanted names, readable, and enough life left. */
  predicate Good(d: Dsm, spec: Spec, c: Cert, now: int) {
    c in d.certs && c.commonName == spec.domain && Sans(d.sans, c.id) == Some(spec.names) && Alive(spec, c, now)
  }

  /**
   Nothing is issued exactly when a good certificate is there, whatever duplicates are and in whatever
   order, or when no certificate has the wanted names and the newest cannot be read but has life left.
  */
  lemma IssuesNothingIff(d: Dsm, spec: Spec, now: int)
    ensures !Issues(d, spec, now) <==>
      || (exists c :: Good(d, spec, c, now))
      || (Keeper(d, spec).Some? && Sans(d.sans, Keeper(d, spec).value.id).None? &&
        Alive(spec, Keeper(d, spec).value, now))
  {
    KeeperIsBest(d.certs, d.sans, spec);
    var k := Keeper(d, spec);
    if c :| Good(d, spec, c, now) {
      assert RankLe(RankOf(d.sans, spec, c), RankOf(d.sans, spec, k.value));
    }
    if !Issues(d, spec, now) && Sans(d.sans, k.value.id).Some? {
      assert Good(d, spec, k.value, now);
    }
  }

  /** The keeper does not depend on the order DSM lists them in, nor on services and defaults. */
  lemma KeeperOrderFree(a: Dsm, b: Dsm, spec: Spec)
    requires a.sans == b.sans && RanksDistinct(a, spec)
    requires forall c :: c in a.certs <==> c in b.certs
    ensures Keeper(a, spec) == Keeper(b, spec)
  {
    KeeperIsBest(a.certs, a.sans, spec);
    KeeperIsBest(b.certs, b.sans, spec);
    var x, y := Keeper(a, spec), Keeper(b, spec);
    if x.Some? && y.Some? {
      assert RankLe(RankOf(a.sans, spec, x.value), RankOf(a.sans, spec, y.value));
      assert RankLe(RankOf(a.sans, spec, y.value), RankOf(a.sans, spec, x.value));
    }
  }
}
