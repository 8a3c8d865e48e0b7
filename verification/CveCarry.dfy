/**
 The textfile of nix/modules/security/cve-scan/cve-scan.py is read back as it was rendered, and
 what that means over nights: a target that fails keeps the counts and the time of its last
 successful scan, however many nights it fails.
*/
module CveCarry {
  import opened Decimal
  import opened Wrappers
  import opened StringOrder
  import opened CveText
  import opened CveScan

  /** Label values that need no escaping: no quote, no line break. */
  ghost predicate Plain(s: string) {
    '"' !in s && Unbroken(s)
  }

  ghost predicate PlainResult(r: ScanResult) {
    && Plain(r.key.target) && Plain(r.key.image)
    && (r.counts.Some? ==> forall b :: b in r.counts.value ==> Plain(b.0) && Plain(b.1))
  }

  ghost predicate Renderable(rs: seq<ScanResult>) {
    && (forall r :: r in rs ==> PlainResult(r))
    && DistinctKeys(rs)
    && (forall r :: r in rs && r.scannedAt.Some? ==> r.scannedAt.value >= 1.0)
  }

  // ----- each line -----

  lemma UnbrokenConcat(a: string, b: string)
    requires Unbroken(a) && Unbroken(b)
    ensures Unbroken(a + b)
  {
  }

  lemma {:induction false} LabelsUnbroken(labels: seq<Label>)
    requires forall l :: l in labels ==> Printable(l) && Unbroken(l.value)
    ensures Unbroken(PrintLabels(labels))
  {
    if labels != [] {
      var l := labels[0];
      LabelsUnbroken(labels[1..]);
      assert Unbroken(l.key) && Unbroken("=\"") && Unbroken("\"") && Unbroken(",");
      UnbrokenConcat(l.key, "=\"");
      UnbrokenConcat(l.key + "=\"", l.value);
      UnbrokenConcat(l.key + "=\"" + l.value, "\"");
      if |labels| > 1 {
        UnbrokenConcat(",", PrintLabels(labels[1..]));
        UnbrokenConcat(l.key + "=\"" + l.value + "\"", "," + PrintLabels(labels[1..]));
      } else {
        UnbrokenConcat(l.key + "=\"" + l.value + "\"", "");
      }
    }
  }

  lemma SampleUnbroken(name: string, labels: seq<Label>, n: nat)
    requires Unbroken(name) && forall l :: l in labels ==> Printable(l) && Unbroken(l.value)
    ensures Unbroken(PrintSample(name, labels, n))
  {
    LabelsUnbroken(labels);
    assert Unbroken("{") && Unbroken("} ");
    NumberUnbroken(n);
    UnbrokenConcat(name, "{");
    UnbrokenConcat(name + "{", PrintLabels(labels));
    UnbrokenConcat(name + "{" + PrintLabels(labels), "} ");
    UnbrokenConcat(name + "{" + PrintLabels(labels) + "} ", PrintNat(n));
  }

  lemma VulnLineUnbroken(key: Key, item: (Bucket, nat))
    requires Plain(key.target) && Plain(key.image) && Plain(item.0.0) && Plain(item.0.1)
    ensures Unbroken(VulnLine(key, item))
  {
    LabelKeysAreWords();
    VulnNameUnbroken();
    SampleUnbroken(VULNS, VulnLabels(key, item.0), item.1);
  }

  lemma VulnLineParses(key: Key, item: (Bucket, nat))
    requires Plain(key.target) && Plain(key.image) && Plain(item.0.0) && Plain(item.0.1)
    ensures ParseLine(VulnLine(key, item)) == Some(Vuln(key, item.0, item.1))
  {
    var labels := VulnLabels(key, item.0);
    LabelKeysAreWords();
    SampleMatches(VULNS, labels, item.1);
    LabelsRoundTrip(labels);
    ParsePrinted(item.1);
    VulnLookups(key, item.0);
  }

  lemma VulnLookups(key: Key, bucket: Bucket)
    ensures var labels := VulnLabels(key, bucket);
      && Lookup(labels, "target") == key.target && Lookup(labels, "image") == key.image
      && Lookup(labels, "severity") == bucket.0 && Lookup(labels, "fix") == bucket.1
  {
    var labels := VulnLabels(key, bucket);
    assert labels[..3] == [Label("fix", bucket.1), Label("image", key.image), Label("severity", bucket.0)];
    assert labels[..3][..2] == [Label("fix", bucket.1), Label("image", key.image)];
    assert labels[..3][..2][..1] == [Label("fix", bucket.1)];
    assert Lookup(labels[..3][..2], "fix") == bucket.1 && Lookup(labels[..3][..2], "image") == key.image;
    assert Lookup(labels[..3], "fix") == bucket.1 && Lookup(labels[..3], "image") == key.image;
  }

  lemma LabelKeysAreWords()
    ensures forall v: string :: '"' !in v ==>
      Printable(Label("fix", v)) && Printable(Label("image", v)) && Printable(Label("severity", v)) &&
        Printable(Label("target", v))
  {
    assert forall c :: c in "fix" || c in "image" || c in "severity" || c in "target" ==> IsWord(c);
  }

  lemma StampLineUnbroken(key: Key, at: nat)
    requires Plain(key.target) && Plain(key.image)
    ensures Unbroken(PrintSample(STAMPS, TargetLabels(key), at))
  {
    LabelKeysAreWords();
    StampNameUnbroken();
    SampleUnbroken(STAMPS, TargetLabels(key), at);
  }

  lemma StampLineParses(key: Key, at: nat)
    requires Plain(key.target) && Plain(key.image)
    ensures ParseLine(PrintSample(STAMPS, TargetLabels(key), at)) == Some(Stamp(key, at))
  {
    var labels := TargetLabels(key);
    var line := PrintSample(STAMPS, labels, at);
    LabelKeysAreWords();
    SampleMatches(STAMPS, labels, at);
    LabelsRoundTrip(labels);
    ParsePrinted(at);
    assert STAMPS <= line;
    OtherName(VULNS, STAMPS, line, 8);
    assert labels[..1] == [Label("image", key.image)];
    assert Lookup(labels, "target") == key.target && Lookup(labels, "image") == key.image;
  }

  lemma SuccessLineIgnored(r: ScanResult)
    ensures ParseLine(SuccessLine(r)).None?
  {
    var line := SuccessLine(r);
    assert SUCCESS <= line;
    OtherName(VULNS, SUCCESS, line, 8);
    OtherName(STAMPS, SUCCESS, line, 13);
  }

  lemma SuccessLineUnbroken(r: ScanResult)
    requires Plain(r.key.target) && Plain(r.key.image)
    ensures Unbroken(SuccessLine(r))
  {
    LabelKeysAreWords();
    SuccessNameUnbroken();
    SampleUnbroken(SUCCESS, TargetLabels(r.key), if r.ok then 1 else 0);
  }

  lemma CommentIgnored(line: string)
    requires "#" <= line
    ensures ParseLine(line).None?
  {
    OtherName(VULNS, "#", line, 0);
    OtherName(STAMPS, "#", line, 0);
  }

  lemma DbLineIgnored(at: nat)
    ensures ParseLine(DB_NAME + " " + PrintNat(at)).None?
  {
    var line := DB_NAME + " " + PrintNat(at);
    assert DB_NAME <= line;
    OtherName(VULNS, DB_NAME, line, 8);
    OtherName(STAMPS, DB_NAME, line, 8);
  }

  lemma DbLineUnbroken(at: nat)
    ensures Unbroken(DB_NAME + " " + PrintNat(at))
  {
    DbNameUnbroken();
    NumberUnbroken(at);
    assert Unbroken(" ");
    UnbrokenConcat(DB_NAME, " ");
    UnbrokenConcat(DB_NAME + " ", PrintNat(at));
  }

  lemma NumberUnbroken(n: nat)
    ensures Unbroken(PrintNat(n))
  {
  }

  // ----- the items of one target -----

  ghost predicate ItemsOf(counts: Counts, items: seq<(Bucket, nat)>) {
    && (forall item :: item in items ==> item.0 in counts && counts[item.0] == item.1)
    && (forall b :: b in counts ==> (b, counts[b]) in items)
  }

  lemma RowItems(counts: Counts, severity: string)
    ensures forall item :: item in Row(counts, severity) ==> item.0 in counts && counts[item.0] == item.1
    ensures forall b :: b in counts && b.0 == severity ==> (b, counts[b]) in Row(counts, severity)
  {
    var fixes := Sorted(set b | b in counts && b.0 == severity :: b.1);
    forall item | item in Row(counts, severity) ensures item.0 in counts && counts[item.0] == item.1 {
      var i :| 0 <= i < |fixes| && Row(counts, severity)[i] == item;
      assert fixes[i] in fixes;
      var b :| b in counts && b.0 == severity && b.1 == fixes[i];
      assert b == (severity, fixes[i]);
    }
    forall b | b in counts && b.0 == severity ensures (b, counts[b]) in Row(counts, severity) {
      assert b.1 in fixes;
      var i :| 0 <= i < |fixes| && fixes[i] == b.1;
      assert Row(counts, severity)[i] == (b, counts[b]);
    }
  }

  lemma {:induction false} RowsItems(counts: Counts, severities: seq<string>)
    ensures forall item :: item in Rows(counts, severities) ==> item.0 in counts && counts[item.0] == item.1
    ensures forall b :: b in counts && b.0 in severities ==> (b, counts[b]) in Rows(counts, severities)
  {
    if severities != [] {
      RowItems(counts, severities[0]);
      RowsItems(counts, severities[1..]);
    }
  }

  lemma ItemsAreCounts(counts: Counts)
    ensures ItemsOf(counts, Items(counts))
  {
    var severities := Sorted(set b | b in counts :: b.0);
    assert forall b :: b in counts ==> b.0 in severities;
    RowsItems(counts, severities);
  }

  /** The dictionary the items build up. */
  function Tally(items: seq<(Bucket, nat)>): Counts {
    if items == [] then map[]
    else
      var last := items[|items| - 1];
      Tally(items[..|items| - 1])[last.0 := last.1]
  }

  lemma {:induction false} TallyWithin(counts: Counts, items: seq<(Bucket, nat)>)
    requires forall item :: item in items ==> item.0 in counts && counts[item.0] == item.1
    ensures forall b :: b in Tally(items) ==> b in counts && Tally(items)[b] == counts[b]
    ensures forall item :: item in items ==> item.0 in Tally(items)
  {
    if items != [] {
      var init, last := items[..|items| - 1], items[|items| - 1];
      TallyWithin(counts, init);
      assert items == init + [last];
    }
  }

  lemma TallyItems(counts: Counts)
    ensures Tally(Items(counts)) == counts
  {
    ItemsAreCounts(counts);
    TallyWithin(counts, Items(counts));
    forall b | b in counts ensures b in Tally(Items(counts)) {
      assert (b, counts[b]) in Items(counts);
    }
  }

  // ----- the whole file -----

  function VulnSamples(r: ScanResult): seq<Sample> {
    if r.counts.None? then [] else ItemSamples(r.key, Items(r.counts.value))
  }

  function StampSamples(r: ScanResult): seq<Sample> {
    if r.scannedAt.Some? && r.scannedAt.value != 0.0 then [Stamp(r.key, Truncated(r.scannedAt.value))] else []
  }

  function AllVulnSamples(rs: seq<ScanResult>): seq<Sample> {
    if rs == [] then [] else AllVulnSamples(rs[..|rs| - 1]) + VulnSamples(rs[|rs| - 1])
  }

  function AllStampSamples(rs: seq<ScanResult>): seq<Sample> {
    if rs == [] then [] else AllStampSamples(rs[..|rs| - 1]) + StampSamples(rs[|rs| - 1])
  }

  lemma {:induction false} LinesToSamples(lines: seq<string>, samples: seq<Sample>)
    requires |lines| == |samples| && forall i :: 0 <= i < |lines| ==> ParseLine(lines[i]) == Some(samples[i])
    ensures Samples(lines) == samples
  {
    if lines != [] {
      LinesToSamples(lines[..|lines| - 1], samples[..|samples| - 1]);
      assert samples == samples[..|samples| - 1] + [samples[|samples| - 1]];
    }
  }

  lemma VulnLinesParse(r: ScanResult)
    requires PlainResult(r)
    ensures Samples(VulnLines(r)) == VulnSamples(r) && forall l :: l in VulnLines(r) ==> Unbroken(l)
  {
    if r.counts.Some? {
      var items := Items(r.counts.value);
      ItemsAreCounts(r.counts.value);
      forall i | 0 <= i < |items|
        ensures ParseLine(VulnLines(r)[i]) == Some(VulnSamples(r)[i]) && Unbroken(VulnLines(r)[i])
      {
        assert items[i] in items;
        VulnLineParses(r.key, items[i]);
        VulnLineUnbroken(r.key, items[i]);
      }
      LinesToSamples(VulnLines(r), VulnSamples(r));
    }
  }

  lemma StampLinesParse(r: ScanResult)
    requires PlainResult(r)
    ensures Samples(StampLines(r)) == StampSamples(r) && forall l :: l in StampLines(r) ==> Unbroken(l)
  {
    if r.scannedAt.Some? && r.scannedAt.value != 0.0 {
      StampLineParses(r.key, Truncated(r.scannedAt.value));
      StampLineUnbroken(r.key, Truncated(r.scannedAt.value));
      LinesToSamples(StampLines(r), StampSamples(r));
    }
  }

  lemma {:induction false} AllVulnLinesParse(rs: seq<ScanResult>)
    requires forall r :: r in rs ==> PlainResult(r)
    ensures Samples(AllVulnLines(rs)) == AllVulnSamples(rs) && forall l :: l in AllVulnLines(rs) ==> Unbroken(l)
  {
    if rs != [] {
      AllVulnLinesParse(rs[..|rs| - 1]);
      assert rs[|rs| - 1] in rs;
      VulnLinesParse(rs[|rs| - 1]);
      SamplesConcat(AllVulnLines(rs[..|rs| - 1]), VulnLines(rs[|rs| - 1]));
    }
  }

  lemma {:induction false} AllStampLinesParse(rs: seq<ScanResult>)
    requires forall r :: r in rs ==> PlainResult(r)
    ensures Samples(AllStampLines(rs)) == AllStampSamples(rs) && forall l :: l in AllStampLines(rs) ==> Unbroken(l)
  {
    if rs != [] {
      AllStampLinesParse(rs[..|rs| - 1]);
      assert rs[|rs| - 1] in rs;
      StampLinesParse(rs[|rs| - 1]);
      SamplesConcat(AllStampLines(rs[..|rs| - 1]), StampLines(rs[|rs| - 1]));
    }
  }

  lemma SuccessLinesIgnored(rs: seq<ScanResult>)
    requires forall r :: r in rs ==> PlainResult(r)
    ensures Samples(SuccessLines(rs)) == [] && forall l :: l in SuccessLines(rs) ==> Unbroken(l)
  {
    forall l | l in SuccessLines(rs) ensures ParseLine(l).None? && Unbroken(l) {
      var i :| 0 <= i < |rs| && SuccessLines(rs)[i] == l;
      assert rs[i] in rs;
      SuccessLineIgnored(rs[i]);
      SuccessLineUnbroken(rs[i]);
    }
    NoSamples(SuccessLines(rs));
  }

  lemma HeadIgnored(name: string, help: string)
    requires Unbroken(name) && Unbroken(help)
    ensures Samples(Head(name, help)) == [] && forall l :: l in Head(name, help) ==> Unbroken(l)
  {
    var h, t := "# HELP " + name + " " + help, "# TYPE " + name + " gauge";
    assert "#" <= "# HELP " <= h && "#" <= "# TYPE " <= t;
    CommentIgnored(h);
    CommentIgnored(t);
    NoSamples([h, t]);
    assert Unbroken("# HELP ") && Unbroken(" ") && Unbroken("# TYPE ") && Unbroken(" gauge");
    UnbrokenConcat("# HELP ", name);
    UnbrokenConcat("# HELP " + name, " ");
    UnbrokenConcat("# HELP " + name + " ", help);
    UnbrokenConcat("# TYPE ", name);
    UnbrokenConcat("# TYPE " + name, " gauge");
  }

  lemma VulnNameUnbroken()
    ensures Unbroken(VULNS)
  {
  }

  lemma SuccessNameUnbroken()
    ensures Unbroken(SUCCESS)
  {
  }

  lemma StampNameUnbroken()
    ensures Unbroken(STAMPS)
  {
  }

  lemma DbNameUnbroken()
    ensures Unbroken(DB_NAME)
  {
  }

  ghost predicate PlainPage(page: Page) {
    Unbroken(page.vulnHelp) && Unbroken(page.successHelp) && Unbroken(page.stampHelp) && Unbroken(page.dbHelp)
  }

  lemma DbLinesIgnored(page: Page)
    requires PlainPage(page)
    ensures Samples(DbLines(page)) == [] && AllUnbroken(DbLines(page))
  {
    if page.dbBuilt.Some? && page.dbBuilt.value != 0 {
      var line := DB_NAME + " " + PrintNat(page.dbBuilt.value);
      DbNameUnbroken();
      DbLineIgnored(page.dbBuilt.value);
      DbLineUnbroken(page.dbBuilt.value);
      NoSamples([line]);
      Section(DB_NAME, page.dbHelp, [line], []);
    }
  }

  ghost predicate AllUnbroken(lines: seq<string>) {
    forall l :: l in lines ==> Unbroken(l)
  }

  lemma Section(name: string, help: string, body: seq<string>, samples: seq<Sample>)
    requires Unbroken(name) && Unbroken(help) && Samples(body) == samples && AllUnbroken(body)
    ensures Samples(Head(name, help) + body) == samples && AllUnbroken(Head(name, help) + body)
  {
    HeadIgnored(name, help);
    SamplesConcat(Head(name, help), body);
  }

  lemma FourParts(a: seq<string>, b: seq<string>, c: seq<string>, d: seq<string>, vulns: seq<Sample>,
      stamps: seq<Sample>)
    requires AllUnbroken(a) && AllUnbroken(b) && AllUnbroken(c) && AllUnbroken(d)
    requires Samples(a) == vulns && Samples(b) == [] && Samples(c) == stamps && Samples(d) == []
    ensures Samples(a + b + c + d) == vulns + stamps && AllUnbroken(a + b + c + d)
  {
    SamplesConcat(a, b);
    SamplesConcat(a + b, c);
    SamplesConcat(a + b + c, d);
    assert vulns + [] == vulns && vulns + stamps + [] == vulns + stamps;
    BothUnbroken(a, b);
    BothUnbroken(a + b, c);
    BothUnbroken(a + b + c, d);
  }

  lemma BothUnbroken(a: seq<string>, b: seq<string>)
    requires AllUnbroken(a) && AllUnbroken(b)
    ensures AllUnbroken(a + b)
  {
  }

  /** What `parse_previous` finds in a rendered file: the counts, then the times, of every target. */
  lemma RenderedSamples(rs: seq<ScanResult>, page: Page)
    requires PlainPage(page) && forall r :: r in rs ==> PlainResult(r)
    ensures Samples(SplitLines(Terminated(Lines(rs, page)))) == AllVulnSamples(rs) + AllStampSamples(rs)
  {
    VulnNameUnbroken();
    AllVulnLinesParse(rs);
    Section(VULNS, page.vulnHelp, AllVulnLines(rs), AllVulnSamples(rs));
    SuccessNameUnbroken();
    SuccessLinesIgnored(rs);
    Section(SUCCESS, page.successHelp, SuccessLines(rs), []);
    StampNameUnbroken();
    AllStampLinesParse(rs);
    Section(STAMPS, page.stampHelp, AllStampLines(rs), AllStampSamples(rs));
    DbLinesIgnored(page);
    FourParts(Head(VULNS, page.vulnHelp) + AllVulnLines(rs), Head(SUCCESS, page.successHelp) + SuccessLines(rs),
      Head(STAMPS, page.stampHelp) + AllStampLines(rs), DbLines(page), AllVulnSamples(rs), AllStampSamples(rs));
    SplitTerminated(Lines(rs, page));
  }

  // ----- one target among the samples -----

  /** The entry of `key` once `samples` have followed entry `e`. */
  function After(e: Option<Entry>, samples: seq<Sample>, key: Key): Option<Entry> {
    if samples == [] then e
    else
      var before, s := After(e, samples[..|samples| - 1], key), samples[|samples| - 1];
      if s.key == key then Some(Noted(before, s)) else before
  }

  lemma {:induction false} CollectedFind(samples: seq<Sample>, key: Key)
    ensures Find(Collected(samples), key) == After(None, samples, key)
  {
    if samples != [] {
      CollectedFind(samples[..|samples| - 1], key);
    }
  }

  lemma {:induction false} AfterConcat(e: Option<Entry>, a: seq<Sample>, b: seq<Sample>, key: Key)
    ensures After(e, a + b, key) == After(After(e, a, key), b, key)
  {
    if b == [] {
      assert a + b == a;
    } else {
      AfterConcat(e, a, b[..|b| - 1], key);
      assert (a + b)[..|a + b| - 1] == a + b[..|b| - 1];
    }
  }

  lemma {:induction false} AfterOthers(e: Option<Entry>, samples: seq<Sample>, key: Key)
    requires forall s :: s in samples ==> s.key != key
    ensures After(e, samples, key) == e
  {
    if samples != [] {
      AfterOthers(e, samples[..|samples| - 1], key);
      assert samples[|samples| - 1] in samples;
    }
  }

  function ItemSamples(key: Key, items: seq<(Bucket, nat)>): seq<Sample> {
    seq(|items|, i requires 0 <= i < |items| => Vuln(key, items[i].0, items[i].1))
  }

  lemma {:induction false} AfterItems(key: Key, items: seq<(Bucket, nat)>)
    ensures After(None, ItemSamples(key, items), key) == if items == [] then None else Some(Entry(Tally(items), None))
  {
    if items != [] {
      var samples, init := ItemSamples(key, items), items[..|items| - 1];
      AfterItems(key, init);
      assert samples[..|samples| - 1] == ItemSamples(key, init);
    }
  }

  lemma AfterCounts(r: ScanResult)
    ensures After(None, VulnSamples(r), r.key) ==
      if r.counts.None? || r.counts.value == map[] then None else Some(Entry(r.counts.value, None))
  {
    if r.counts.Some? {
      var counts := r.counts.value;
      AfterItems(r.key, Items(counts));
      TallyItems(counts);
      ItemsAreCounts(counts);
      if counts != map[] {
        var b :| b in counts;
        assert (b, counts[b]) in Items(counts);
      }
    }
  }

  /** What a result is read back as: its counts, and its time cut to whole seconds. */
  function ReadBack(r: ScanResult): Option<Entry> {
    var counts := if r.counts.Some? then r.counts.value else map[];
    var at := if r.scannedAt.Some? && r.scannedAt.value != 0.0 then Some(Truncated(r.scannedAt.value)) else None;
    if counts == map[] && at.None? then None else Some(Entry(counts, at))
  }

  ghost predicate DistinctKeys(rs: seq<ScanResult>) {
    forall i, j :: 0 <= i < j < |rs| ==> rs[i].key != rs[j].key
  }

  lemma OthersBefore(rs: seq<ScanResult>)
    requires rs != [] && DistinctKeys(rs)
    ensures DistinctKeys(rs[..|rs| - 1]) && forall r :: r in rs[..|rs| - 1] ==> r.key != rs[|rs| - 1].key
  {
  }

  lemma LastVulnsSkipped(rs: seq<ScanResult>, key: Key)
    requires rs != [] && rs[|rs| - 1].key != key
    ensures After(None, AllVulnSamples(rs), key) == After(None, AllVulnSamples(rs[..|rs| - 1]), key)
  {
    var before, last := AllVulnSamples(rs[..|rs| - 1]), VulnSamples(rs[|rs| - 1]);
    AfterConcat(None, before, last, key);
    AfterOthers(After(None, before, key), last, key);
  }

  lemma OnlyLastVulns(rs: seq<ScanResult>, key: Key)
    requires rs != [] && forall r :: r in rs[..|rs| - 1] ==> r.key != key
    ensures After(None, AllVulnSamples(rs), key) == After(None, VulnSamples(rs[|rs| - 1]), key)
  {
    var before, last := AllVulnSamples(rs[..|rs| - 1]), VulnSamples(rs[|rs| - 1]);
    AfterConcat(None, before, last, key);
    OthersVulns(rs[..|rs| - 1], key);
    AfterOthers(None, before, key);
  }

  lemma {:induction false} AllVulnAfter(rs: seq<ScanResult>, k: nat)
    requires k < |rs| && DistinctKeys(rs)
    ensures After(None, AllVulnSamples(rs), rs[k].key) == After(None, VulnSamples(rs[k]), rs[k].key)
  {
    OthersBefore(rs);
    if k < |rs| - 1 {
      LastVulnsSkipped(rs, rs[k].key);
      AllVulnAfter(rs[..|rs| - 1], k);
    } else {
      OnlyLastVulns(rs, rs[k].key);
    }
  }

  lemma {:induction false} OthersVulns(rs: seq<ScanResult>, key: Key)
    requires forall r :: r in rs ==> r.key != key
    ensures forall s :: s in AllVulnSamples(rs) ==> s.key != key
    ensures forall s :: s in AllStampSamples(rs) ==> s.key != key
  {
    if rs != [] {
      OthersVulns(rs[..|rs| - 1], key);
      assert rs[|rs| - 1] in rs;
    }
  }

  lemma LastStampsSkipped(e: Option<Entry>, rs: seq<ScanResult>, key: Key)
    requires rs != [] && rs[|rs| - 1].key != key
    ensures After(e, AllStampSamples(rs), key) == After(e, AllStampSamples(rs[..|rs| - 1]), key)
  {
    var before, last := AllStampSamples(rs[..|rs| - 1]), StampSamples(rs[|rs| - 1]);
    AfterConcat(e, before, last, key);
    AfterOthers(After(e, before, key), last, key);
  }

  lemma OnlyLastStamps(e: Option<Entry>, rs: seq<ScanResult>, key: Key)
    requires rs != [] && forall r :: r in rs[..|rs| - 1] ==> r.key != key
    ensures After(e, AllStampSamples(rs), key) == After(e, StampSamples(rs[|rs| - 1]), key)
  {
    var before, last := AllStampSamples(rs[..|rs| - 1]), StampSamples(rs[|rs| - 1]);
    AfterConcat(e, before, last, key);
    OthersVulns(rs[..|rs| - 1], key);
    AfterOthers(e, before, key);
  }

  lemma {:induction false} AllStampsAfter(e: Option<Entry>, rs: seq<ScanResult>, k: nat)
    requires k < |rs| && DistinctKeys(rs)
    ensures After(e, AllStampSamples(rs), rs[k].key) == After(e, StampSamples(rs[k]), rs[k].key)
  {
    OthersBefore(rs);
    if k < |rs| - 1 {
      LastStampsSkipped(e, rs, rs[k].key);
      AllStampsAfter(e, rs[..|rs| - 1], k);
    } else {
      OnlyLastStamps(e, rs, rs[k].key);
    }
  }

  /** What the samples of all results say of one target is what its own result says. */
  lemma CollectedTells(rs: seq<ScanResult>, k: nat)
    requires k < |rs| && DistinctKeys(rs)
    ensures After(None, AllVulnSamples(rs) + AllStampSamples(rs), rs[k].key) == ReadBack(rs[k])
  {
    var r := rs[k];
    AfterConcat(None, AllVulnSamples(rs), AllStampSamples(rs), r.key);
    AllVulnAfter(rs, k);
    AfterCounts(r);
    AllStampsAfter(After(None, AllVulnSamples(rs), r.key), rs, k);
    StampAfter(After(None, AllVulnSamples(rs), r.key), r);
  }

  /** `parse_previous(render_metrics(rs))`: each target's counts and whole-second time, and no other target. */
  lemma RoundTrip(rs: seq<ScanResult>, page: Page)
    requires PlainPage(page) && Renderable(rs)
    ensures forall r :: r in rs ==> Find(Published(Terminated(Lines(rs, page))), r.key) == ReadBack(r)
    ensures forall key :: key in Published(Terminated(Lines(rs, page))) ==> exists r :: r in rs && r.key == key
  {
    RenderedSamples(rs, page);
    var samples := AllVulnSamples(rs) + AllStampSamples(rs);
    forall r | r in rs ensures Find(Collected(samples), r.key) == ReadBack(r) {
      var k :| 0 <= k < |rs| && rs[k] == r;
      CollectedFind(samples, r.key);
      CollectedTells(rs, k);
    }
    forall key | key in Collected(samples) ensures exists r :: r in rs && r.key == key {
      CollectedFind(samples, key);
      if forall r :: r in rs ==> r.key != key {
        OthersVulns(rs, key);
        AfterOthers(None, samples, key);
      }
    }
  }

  lemma StampAfter(e: Option<Entry>, r: ScanResult)
    ensures After(e, StampSamples(r), r.key) ==
      if r.scannedAt.Some? && r.scannedAt.value != 0.0
        then Some(Noted(e, Stamp(r.key, Truncated(r.scannedAt.value)))) else e
  {
  }
}
