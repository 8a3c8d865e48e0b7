/**
 `summarize` of nix/modules/security/cve-scan/cve-scan.py: grype's matches counted by severity and
 fix, each vulnerability of a package once.
*/
module CveSummary {
  import opened Ascii
  import opened Wrappers

  /** None for a field the report leaves out. */
  datatype Match = Match(id: Option<string>, name: Option<string>, version: Option<string>,
                         severity: Option<string>, fixState: Option<string>)

  type Finding = (Option<string>, Option<string>, Option<string>)
  type Bucket = (string, string)

  const SEVERITIES := ["critical", "high", "medium", "low", "negligible", "unknown"]
  const FIXES := ["available", "none"]

  function FindingOf(m: Match): Finding {
    (m.id, m.name, m.version)
  }

  function SeverityOf(m: Match): string {
    var s := if m.severity.Some? && m.severity.value != "" then Lower(m.severity.value) else "unknown";
    if s in SEVERITIES then s else "unknown"
  }

  function BucketOf(m: Match): Bucket {
    (SeverityOf(m), if m.fixState == Some("fixed") then "available" else "none")
  }

  predicate IsBucket(b: Bucket) {
    b.0 in SEVERITIES && b.1 in FIXES
  }

  lemma BucketOfIsBucket(m: Match)
    ensures IsBucket(BucketOf(m))
  {
    assert SEVERITIES[5] == "unknown" && FIXES[0] == "available" && FIXES[1] == "none";
  }

  /** The match that decides where a finding is counted. */
  function First(matches: seq<Match>, f: Finding): Option<Match> {
    if matches == [] then None
    else
      var before, last := First(matches[..|matches| - 1], f), matches[|matches| - 1];
      if before.Some? then before else if FindingOf(last) == f then Some(last) else None
  }

  function Seen(matches: seq<Match>): set<Finding> {
    set m | m in matches :: FindingOf(m)
  }

  /** The findings counted under `b`. */
  function Counted(matches: seq<Match>, b: Bucket): set<Finding> {
    set f | f in Seen(matches) && First(matches, f).Some? && BucketOf(First(matches, f).value) == b
  }

  lemma SeenNext(matches: seq<Match>, i: nat)
    requires i < |matches|
    ensures Seen(matches[..i + 1]) == Seen(matches[..i]) + {FindingOf(matches[i])}
  {
    assert matches[..i + 1] == matches[..i] + [matches[i]];
  }

  lemma {:induction false} FirstIffSeen(matches: seq<Match>, f: Finding)
    ensures First(matches, f).Some? <==> f in Seen(matches)
    ensures First(matches, f).Some? ==> First(matches, f).value in matches && FindingOf(First(matches, f).value) == f
  {
    if matches != [] {
      FirstIffSeen(matches[..|matches| - 1], f);
      SeenNext(matches, |matches| - 1);
      assert matches[..|matches| - 1 + 1] == matches;
    }
  }

  lemma CountedNext(matches: seq<Match>, i: nat, b: Bucket)
    requires i < |matches|
    ensures var f := FindingOf(matches[i]);
      Counted(matches[..i + 1], b)
      == if f !in Seen(matches[..i]) && BucketOf(matches[i]) == b then Counted(matches[..i], b) + {f}
        else Counted(matches[..i], b)
    ensures FindingOf(matches[i]) !in Seen(matches[..i]) ==> FindingOf(matches[i]) !in Counted(matches[..i], b)
  {
    SeenNext(matches, i);
    assert matches[..i + 1][..i] == matches[..i];
    forall f ensures First(matches[..i], f).Some? <==> f in Seen(matches[..i]) {
      FirstIffSeen(matches[..i], f);
    }
  }

  method EveryBucket() returns (counts: map<Bucket, nat>)
    ensures forall b :: b in counts <==> IsBucket(b)
    ensures forall b :: b in counts ==> counts[b] == 0
  {
    counts := map[];
    for i := 0 to |SEVERITIES|
      invariant forall b :: b in counts <==> b.0 in SEVERITIES[..i] && b.1 in FIXES
      invariant forall b :: b in counts ==> counts[b] == 0
    {
      for j := 0 to |FIXES|
        invariant forall b :: b in counts <==>
          (b.0 in SEVERITIES[..i] && b.1 in FIXES) || (b.0 == SEVERITIES[i] && b.1 in FIXES[..j])
        invariant forall b :: b in counts ==> counts[b] == 0
      {
        counts := counts[(SEVERITIES[i], FIXES[j]) := 0];
      }
      assert FIXES[..|FIXES|] == FIXES;
    }
    assert SEVERITIES[..|SEVERITIES|] == SEVERITIES;
  }

  /** Every bucket is there, and counts its findings. */
  ghost predicate Counts(counts: map<Bucket, nat>, matches: seq<Match>) {
    && (forall b :: b in counts <==> IsBucket(b))
    && (forall b :: b in counts ==> counts[b] == Size(matches, b))
  }

  ghost function Size(matches: seq<Match>, b: Bucket): nat {
    |Counted(matches, b)|
  }

  lemma SizeNext(matches: seq<Match>, i: nat, b: Bucket)
    requires i < |matches|
    ensures Size(matches[..i + 1], b)
      == Size(matches[..i], b) + if FindingOf(matches[i]) !in Seen(matches[..i]) && BucketOf(matches[i]) == b then 1
        else 0
  {
    CountedNext(matches, i, b);
  }

  lemma CountsNext(counts: map<Bucket, nat>, matches: seq<Match>, i: nat)
    requires i < |matches| && Counts(counts, matches[..i])
    ensures var b := BucketOf(matches[i]);
      && b in counts
      && Counts(if FindingOf(matches[i]) in Seen(matches[..i]) then counts
        else counts[b := counts[b] + 1], matches[..i + 1])
  {
    BucketOfIsBucket(matches[i]);
    var bucket := BucketOf(matches[i]);
    forall b ensures Size(matches[..i + 1], b)
      == Size(matches[..i], b) + if FindingOf(matches[i]) !in Seen(matches[..i]) && bucket == b then 1 else 0
    {
      SizeNext(matches, i, b);
    }
  }

  /** `summarize` */
  method Summarize(matches: seq<Match>) returns (counts: map<Bucket, nat>)
    ensures Counts(counts, matches)
  {
    counts := EveryBucket();
    var seen: set<Finding> := {};
    for i := 0 to |matches|
      invariant seen == Seen(matches[..i]) && Counts(counts, matches[..i])
    {
      var f := FindingOf(matches[i]);
      SeenNext(matches, i);
      CountsNext(counts, matches, i);
      if f !in seen {
        seen := seen + {f};
        counts := counts[BucketOf(matches[i]) := counts[BucketOf(matches[i])] + 1];
      }
    }
    assert matches[..|matches|] == matches;
  }

  /** Each finding is counted in one bucket, and only one. */
  lemma EachFindingOnce(matches: seq<Match>, f: Finding)
    ensures f in Seen(matches) <==> exists b :: IsBucket(b) && f in Counted(matches, b)
    ensures forall a, b :: f in Counted(matches, a) && f in Counted(matches, b) ==> a == b
  {
    FirstIffSeen(matches, f);
    if f in Seen(matches) {
      BucketOfIsBucket(First(matches, f).value);
      assert f in Counted(matches, BucketOf(First(matches, f).value));
    }
  }

  ghost predicate SameMatches(a: seq<Match>, b: seq<Match>) {
    forall m :: m in a <==> m in b
  }

  /** Matches of one finding tell the same severity and fix. */
  ghost predicate Agree(matches: seq<Match>) {
    forall m, n :: m in matches && n in matches && FindingOf(m) == FindingOf(n) ==> BucketOf(m) == BucketOf(n)
  }

  ghost predicate OrderFree(matches: seq<Match>) {
    forall x, y :: SameMatches(x, matches) && SameMatches(y, matches) ==> SameCounted(x, y)
  }

  ghost predicate SameCounted(x: seq<Match>, y: seq<Match>) {
    forall b :: Counted(x, b) == Counted(y, b)
  }

  lemma AgreedCounts(matches: seq<Match>, x: seq<Match>, b: Bucket)
    requires Agree(matches) && SameMatches(x, matches)
    ensures Counted(x, b) == set m | m in matches && BucketOf(m) == b :: FindingOf(m)
  {
    forall f ensures f in Counted(x, b) <==> f in set m | m in matches && BucketOf(m) == b :: FindingOf(m) {
      FirstIffSeen(x, f);
      if m :| m in matches && BucketOf(m) == b && FindingOf(m) == f {
        assert m in x;
        assert BucketOf(First(x, f).value) == BucketOf(m);
      }
    }
  }

  lemma {:induction false} FrontDecides(m: Match, rest: seq<Match>)
    ensures First([m] + rest, FindingOf(m)) == Some(m)
  {
    var s := [m] + rest;
    if rest == [] {
      assert s[..0] == [] && s[0] == m;
    } else {
      FrontDecides(m, rest[..|rest| - 1]);
      assert s[..|s| - 1] == [m] + rest[..|rest| - 1];
    }
  }

  lemma DisagreementShows(matches: seq<Match>, m: Match, n: Match)
    requires m in matches && n in matches && FindingOf(m) == FindingOf(n) && BucketOf(m) != BucketOf(n)
    ensures SameMatches([m] + matches, matches) && SameMatches([n] + matches, matches)
    ensures Counted([m] + matches, BucketOf(m)) != Counted([n] + matches, BucketOf(m))
  {
    var x, y, f := [m] + matches, [n] + matches, FindingOf(m);
    FrontDecides(m, matches);
    FrontDecides(n, matches);
    FirstIffSeen(x, f);
    assert f in Counted(x, BucketOf(m)) && f !in Counted(y, BucketOf(m));
  }

  /** The report's order, and repetitions, make no difference exactly when its matches agree. */
  lemma OrderFreeIffAgree(matches: seq<Match>)
    ensures OrderFree(matches) <==> Agree(matches)
  {
    if Agree(matches) {
      forall x, y | SameMatches(x, matches) && SameMatches(y, matches) ensures SameCounted(x, y) {
        forall b ensures Counted(x, b) == Counted(y, b) {
          AgreedCounts(matches, x, b);
          AgreedCounts(matches, y, b);
        }
      }
    } else {
      var m, n :| m in matches && n in matches && FindingOf(m) == FindingOf(n) && BucketOf(m) != BucketOf(n);
      DisagreementShows(matches, m, n);
      assert !SameCounted([m] + matches, [n] + matches);
    }
  }
}
