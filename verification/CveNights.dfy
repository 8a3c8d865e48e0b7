/**
 `Scanner.host` in nix/modules/security/cve-scan/cve-scan.py over nights: what the textfile says of
 each target after a night, and that a target which keeps failing keeps the counts and the time of
 its last successful scan.
*/
module CveNights {
  import opened Wrappers
  import opened CveScan
  import opened CveCarry

  datatype Attempt = Scanned(counts: Counts, at: real) | Failed

  /** images is None when the containers could not even be listed. */
  datatype Night = Night(
    read: bool, system: Attempt, images: Option<seq<(string, Attempt)>>, page: Page, published: bool)

  const SYSTEM := Key("system", "")

  /** What a failed target is recorded with: what the last file said of it. */
  function Carried(prev: map<Key, Entry>, key: Key): ScanResult {
    if key in prev
    then ScanResult(key, false, Some(prev[key].counts),
      if prev[key].at.Some? then Some(prev[key].at.value as real) else None)
    else ScanResult(key, false, None, None)
  }

  function Recorded(prev: map<Key, Entry>, key: Key, attempt: Attempt): ScanResult {
    match attempt
    case Scanned(counts, at) => ScanResult(key, true, Some(counts), Some(at))
    case Failed => Carried(prev, key)
  }

  function ImageResults(prev: map<Key, Entry>, images: seq<(string, Attempt)>): seq<ScanResult> {
    seq(|images|, i requires 0 <= i < |images| => Recorded(prev, Key("image", images[i].0), images[i].1))
  }

  /** Every image of the last file, once, with what it said. */
  ghost predicate KeepsImages(prev: map<Key, Entry>, rs: seq<ScanResult>) {
    && (forall r :: r in rs ==> r.key in prev && r.key.target == "image" && r == Carried(prev, r.key))
    && (forall i, j :: 0 <= i < j < |rs| ==> rs[i].key != rs[j].key)
    && (forall key :: key in prev && key.target == "image" ==> Carried(prev, key) in rs)
  }

  ghost predicate Results(prev: map<Key, Entry>, night: Night, rs: seq<ScanResult>) {
    && |rs| > 0 && rs[0] == Recorded(prev, SYSTEM, night.system)
    && (night.images.Some? ==> rs[1..] == ImageResults(prev, night.images.value))
    && (night.images.None? ==> KeepsImages(prev, rs[1..]))
  }

  function Remembered(body: string, night: Night): map<Key, Entry> {
    if night.read then Published(body) else map[]
  }

  /** From one night's file to the next. */
  ghost predicate Step(body: string, night: Night, rs: seq<ScanResult>, next: string) {
    && Results(Remembered(body, night), night, rs)
    && next == if night.published then Terminated(Lines(rs, night.page)) else body
  }

  class Textfile {
    var body: string

    method KeepImages(prev: map<Key, Entry>) returns (rs: seq<ScanResult>)
      ensures KeepsImages(prev, rs)
    {
      rs := [];
      var todo := prev.Keys;
      while todo != {}
        invariant todo <= prev.Keys
        invariant forall r :: r in rs ==>
          r.key in prev && r.key !in todo && r.key.target == "image" && r == Carried(prev, r.key)
        invariant forall i, j :: 0 <= i < j < |rs| ==> rs[i].key != rs[j].key
        invariant forall key :: key in prev && key.target == "image" ==> key in todo || Carried(prev, key) in rs
        decreases todo
      {
        var key :| key in todo;
        todo := todo - {key};
        if key.target == "image" {
          rs := rs + [Carried(prev, key)];
        }
      }
    }

    /** `Scanner.host`: read the last file, record each target, publish. */
    method Host(night: Night) returns (rs: seq<ScanResult>)
      modifies this
      ensures Step(old(body), night, rs, body)
    {
      var prev := map[];
      if night.read {
        prev := ParsePrevious(body);
      }
      rs := [Recorded(prev, SYSTEM, night.system)];
      match night.images {
        case None =>
          var kept := KeepImages(prev);
          rs := rs + kept;
        case Some(images) =>
          for i := 0 to |images|
            invariant rs == [Recorded(prev, SYSTEM, night.system)] + ImageResults(prev, images[..i])
          {
            assert ImageResults(prev, images[..i + 1])
                == ImageResults(prev, images[..i]) + [Recorded(prev, Key("image", images[i].0), images[i].1)];
            rs := rs + [Recorded(prev, Key("image", images[i].0), images[i].1)];
          }
          assert images[..|images|] == images;
      }
      var text := RenderMetrics(rs, night.page);
      if night.published {
        body := text;
      }
    }
  }

  // ----- what one night does to each target -----

  datatype Outcome = Fresh(counts: Counts, at: real) | Kept | Gone

  function FromAttempt(a: Attempt): Outcome {
    match a
    case Scanned(counts, at) => Fresh(counts, at)
    case Failed => Kept
  }

  function ImageOutcome(images: seq<(string, Attempt)>, ref: string): Outcome {
    if images == [] then Gone
    else if images[0].0 == ref then FromAttempt(images[0].1)
    else ImageOutcome(images[1..], ref)
  }

  function OutcomeOf(night: Night, key: Key): Outcome {
    if key == SYSTEM then FromAttempt(night.system)
    else if key.target != "image" then Gone
    else if night.images.None? then Kept
    else ImageOutcome(night.images.value, key.image)
  }

  /** What the new file has to say of a target. */
  function Told(prev: map<Key, Entry>, outcome: Outcome, key: Key): Option<Entry> {
    match outcome
    case Fresh(counts, at) => Some(Entry(counts, Some(Truncated(at))))
    case Kept => Find(prev, key)
    case Gone => None
  }

  ghost predicate PlainAttempt(a: Attempt) {
    a.Scanned? ==> a.at >= 1.0 && forall b :: b in a.counts ==> Plain(b.0) && Plain(b.1)
  }

  /** Distinct image names without quotes or line breaks, and a clock past the epoch's first second. */
  ghost predicate PlainNight(night: Night) {
    && PlainPage(night.page) && PlainAttempt(night.system)
    && (night.images.Some? ==> PlainImages(night.images.value))
  }

  ghost predicate PlainImages(images: seq<(string, Attempt)>) {
    && (forall i :: 0 <= i < |images| ==> Plain(images[i].0) && PlainAttempt(images[i].1))
    && (forall i, j :: 0 <= i < j < |images| ==> images[i].0 != images[j].0)
  }

  ghost predicate PlainEntry(key: Key, e: Entry) {
    && Plain(key.target) && Plain(key.image)
    && (forall b :: b in e.counts ==> Plain(b.0) && Plain(b.1))
    && (e.at.Some? ==> e.at.value >= 1)
    && (e.counts != map[] || e.at.Some?)
  }

  ghost predicate PlainFile(prev: map<Key, Entry>) {
    forall key :: key in prev ==> PlainEntry(key, prev[key])
  }

  ghost predicate GoodResult(r: ScanResult) {
    PlainResult(r) && (r.scannedAt.Some? ==> r.scannedAt.value >= 1.0)
  }

  lemma RecordedGood(prev: map<Key, Entry>, key: Key, a: Attempt)
    requires PlainFile(prev) && PlainAttempt(a) && Plain(key.target) && Plain(key.image)
    ensures GoodResult(Recorded(prev, key, a))
    ensures Recorded(prev, key, a).key == key
    ensures ReadBack(Recorded(prev, key, a)) == Told(prev, FromAttempt(a), key)
  {
  }

  lemma SystemIsPlain()
    ensures Plain("system") && Plain("image") && Plain("")
  {
  }

  lemma ImageResultGood(prev: map<Key, Entry>, night: Night, rs: seq<ScanResult>, i: nat)
    requires PlainFile(prev) && PlainNight(night) && Results(prev, night, rs) && 0 < i < |rs|
    ensures GoodResult(rs[i]) && rs[i].key.target == "image"
  {
  }

  lemma ResultsDistinct(prev: map<Key, Entry>, night: Night, rs: seq<ScanResult>)
    requires PlainFile(prev) && PlainNight(night) && Results(prev, night, rs)
    ensures DistinctKeys(rs)
  {
    ImagesDistinct(prev, night, rs[1..]);
    forall i, j | 0 <= i < j < |rs| ensures rs[i].key != rs[j].key {
      if i == 0 {
        ImageResultGood(prev, night, rs, j);
      } else {
        assert rs[i] == rs[1..][i - 1] && rs[j] == rs[1..][j - 1];
      }
    }
  }

  lemma ImagesDistinct(prev: map<Key, Entry>, night: Night, images: seq<ScanResult>)
    requires PlainNight(night)
    requires night.images.Some? ==> images == ImageResults(prev, night.images.value)
    requires night.images.None? ==> KeepsImages(prev, images)
    ensures DistinctKeys(images)
  {
  }

  lemma ResultsRenderable(prev: map<Key, Entry>, night: Night, rs: seq<ScanResult>)
    requires PlainFile(prev) && PlainNight(night) && Results(prev, night, rs)
    ensures Renderable(rs)
  {
    ResultsDistinct(prev, night, rs);
    forall r | r in rs ensures GoodResult(r) {
      var i :| 0 <= i < |rs| && rs[i] == r;
      if i == 0 {
        SystemIsPlain();
        RecordedGood(prev, SYSTEM, night.system);
      } else {
        ImageResultGood(prev, night, rs, i);
      }
    }
  }

  lemma {:induction false} ListedOutcome(images: seq<(string, Attempt)>, i: nat)
    requires i < |images| && forall j, k :: 0 <= j < k < |images| ==> images[j].0 != images[k].0
    ensures ImageOutcome(images, images[i].0) == FromAttempt(images[i].1)
  {
    if i > 0 {
      ListedOutcome(images[1..], i - 1);
    }
  }

  lemma {:induction false} UnlistedOutcome(images: seq<(string, Attempt)>, ref: string)
    ensures ImageOutcome(images, ref) == Gone || exists i :: 0 <= i < |images| && images[i].0 == ref
  {
    if images != [] && images[0].0 != ref {
      UnlistedOutcome(images[1..], ref);
      if ImageOutcome(images[1..], ref) != Gone {
        var i :| 0 <= i < |images[1..]| && images[1..][i].0 == ref;
        assert images[i + 1].0 == ref;
      }
    }
  }

  /** Each result is read back as its target's outcome says. */
  lemma ResultTells(prev: map<Key, Entry>, night: Night, rs: seq<ScanResult>, i: nat)
    requires PlainFile(prev) && PlainNight(night) && Results(prev, night, rs) && i < |rs|
    ensures ReadBack(rs[i]) == Told(prev, OutcomeOf(night, rs[i].key), rs[i].key)
  {
    SystemIsPlain();
    if i == 0 {
      RecordedGood(prev, SYSTEM, night.system);
    } else {
      assert rs[i] == rs[1..][i - 1];
      if night.images.Some? {
        var images := night.images.value;
        RecordedGood(prev, Key("image", images[i - 1].0), images[i - 1].1);
        ListedOutcome(images, i - 1);
      } else {
        assert rs[1..][i - 1] in rs[1..];
        assert PlainEntry(rs[i].key, prev[rs[i].key]);
        RecordedGood(prev, rs[i].key, Failed);
      }
    }
  }

  /** A target without a result has nothing to be told. */
  lemma AbsentTells(prev: map<Key, Entry>, night: Night, rs: seq<ScanResult>, key: Key)
    requires Results(prev, night, rs) && forall r :: r in rs ==> r.key != key
    ensures Told(prev, OutcomeOf(night, key), key) == None
  {
    assert rs[0] in rs;
    assert forall r :: r in rs[1..] ==> r in rs;
    if key.target == "image" && night.images.Some? {
      var images := night.images.value;
      UnlistedOutcome(images, key.image);
      forall i | 0 <= i < |images| ensures images[i].0 != key.image {
        assert rs[1..][i] in rs[1..] && rs[1..][i].key == Key("image", images[i].0);
      }
    } else if key.target == "image" {
      assert Carried(prev, key).key == key && Carried(prev, key) !in rs[1..];
    }
  }

  /** One night, every target: fresh figures, the old ones, or nothing at all. */
  lemma NightTells(body: string, night: Night, rs: seq<ScanResult>, next: string, key: Key)
    requires Step(body, night, rs, next) && night.published
    requires PlainFile(Remembered(body, night)) && PlainNight(night)
    ensures Find(Published(next), key) == Told(Remembered(body, night), OutcomeOf(night, key), key)
  {
    var prev := Remembered(body, night);
    ResultsRenderable(prev, night, rs);
    RoundTrip(rs, night.page);
    if r :| r in rs && r.key == key {
      var i :| 0 <= i < |rs| && rs[i] == r;
      ResultTells(prev, night, rs, i);
    } else {
      AbsentTells(prev, night, rs, key);
    }
  }

  lemma ToldIsPlain(prev: map<Key, Entry>, r: ScanResult)
    requires GoodResult(r) && ReadBack(r).Some?
    ensures PlainEntry(r.key, ReadBack(r).value)
  {
  }

  lemma NextIsPlain(body: string, night: Night, rs: seq<ScanResult>, next: string)
    requires Step(body, night, rs, next) && PlainFile(Published(body)) && PlainNight(night)
    ensures PlainFile(Published(next))
  {
    if night.published {
      var prev := Remembered(body, night);
      ResultsRenderable(prev, night, rs);
      RoundTrip(rs, night.page);
      forall key | key in Published(next) ensures PlainEntry(key, Published(next)[key]) {
        var r :| r in rs && r.key == key;
        assert Find(Published(next), r.key) == ReadBack(r);
        ToldIsPlain(prev, r);
      }
    }
  }

  /**
   A night whose file could not be read first forgets every target that fails that night: a failing target
   is shown as before exactly when the file was read, or did not show it.
  */
  lemma UnreadNightForgets(body: string, night: Night, rs: seq<ScanResult>, next: string, key: Key)
    requires Step(body, night, rs, next) && PlainNight(night)
    requires night.published && OutcomeOf(night, key) == Kept
    ensures !night.read ==> key !in Published(next)
    ensures PlainFile(Published(body)) ==>
      (Find(Published(next), key) == Find(Published(body), key) <==> night.read || key !in Published(body))
  {
    if !night.read || PlainFile(Published(body)) {
      NightTells(body, night, rs, next, key);
    }
  }

  // ----- many nights -----

  ghost predicate NightRan(bodies: seq<string>, nights: seq<Night>, results: seq<seq<ScanResult>>, k: nat)
    requires |bodies| == |nights| + 1 && |results| == |nights| && k < |nights|
  {
    Step(bodies[k], nights[k], results[k], bodies[k + 1])
  }

  ghost predicate Run(bodies: seq<string>, nights: seq<Night>, results: seq<seq<ScanResult>>) {
    && |bodies| == |nights| + 1 && |results| == |nights|
    && (forall k :: 0 <= k < |nights| ==> NightRan(bodies, nights, results, k))
  }

  ghost predicate PlainNights(nights: seq<Night>) {
    forall k :: 0 <= k < |nights| ==> PlainNight(nights[k])
  }

  lemma {:induction false} FilesStayPlain(bodies: seq<string>, nights: seq<Night>, results: seq<seq<ScanResult>>,
      n: nat)
    requires Run(bodies, nights, results) && n <= |nights|
    requires PlainFile(Published(bodies[0])) && PlainNights(nights)
    ensures PlainFile(Published(bodies[n]))
  {
    if n > 0 {
      FilesStayPlain(bodies, nights, results, n - 1);
      assert NightRan(bodies, nights, results, n - 1);
      NextIsPlain(bodies[n - 1], nights[n - 1], results[n - 1], bodies[n]);
    }
  }

  /** Nothing to lose: the file could be read, or was not replaced. */
  predicate Keeps(night: Night, key: Key) {
    !night.published || (night.read && OutcomeOf(night, key) == Kept)
  }

  ghost predicate KeepsBetween(nights: seq<Night>, j: nat, n: nat, key: Key) {
    forall k :: j < k < n && k < |nights| ==> Keeps(nights[k], key)
  }

  ghost predicate Shows(body: string, key: Key, shown: Outcome)
    requires shown.Fresh?
  {
    Find(Published(body), key) == Some(Entry(shown.counts, Some(Truncated(shown.at))))
  }

  lemma NightShowsAnew(body: string, night: Night, rs: seq<ScanResult>, next: string, key: Key)
    requires Step(body, night, rs, next) && PlainFile(Published(body)) && PlainNight(night)
    requires night.published && OutcomeOf(night, key).Fresh?
    ensures Shows(next, key, OutcomeOf(night, key))
  {
    NightTells(body, night, rs, next, key);
  }

  lemma NightKeepsShowing(body: string, night: Night, rs: seq<ScanResult>, next: string, key: Key, shown: Outcome)
    requires Step(body, night, rs, next) && PlainFile(Published(body)) && PlainNight(night) && shown.Fresh?
    requires Keeps(night, key) && Shows(body, key, shown)
    ensures Shows(next, key, shown)
  {
    if night.published {
      NightTells(body, night, rs, next, key);
    }
  }

  /** However many nights a target then fails, the file says what its last success said. */
  lemma {:induction false} LastSuccessStays(bodies: seq<string>, nights: seq<Night>, results: seq<seq<ScanResult>>,
                                            j: nat, n: nat, key: Key)
    requires Run(bodies, nights, results) && j < n <= |nights|
    requires PlainFile(Published(bodies[0])) && PlainNights(nights)
    requires nights[j].published && OutcomeOf(nights[j], key).Fresh?
    requires KeepsBetween(nights, j, n, key)
    ensures Shows(bodies[n], key, OutcomeOf(nights[j], key))
    decreases n
  {
    var shown := OutcomeOf(nights[j], key);
    FilesStayPlain(bodies, nights, results, n - 1);
    assert NightRan(bodies, nights, results, n - 1) && PlainNight(nights[n - 1]);
    if n - 1 > j {
      LastSuccessStays(bodies, nights, results, j, n - 1, key);
      assert Keeps(nights[n - 1], key);
      NightKeepsShowing(bodies[n - 1], nights[n - 1], results[n - 1], bodies[n], key, shown);
    } else {
      NightShowsAnew(bodies[n - 1], nights[n - 1], results[n - 1], bodies[n], key);
    }
  }
}
