/**
 `render_metrics`, `parse_previous` and the carry-forward of `Scanner.host` in
 nix/modules/security/cve-scan/cve-scan.py: what was published is read back as it was, so a target
 that keeps failing keeps showing its last successful scan.
*/
module CveScan {
  import opened Decimal
  import opened Wrappers
  import opened StringOrder
  import opened CveText

  datatype Key = Key(target: string, image: string)
  type Bucket = (string, string)        // (severity, fix)
  type Counts = map<Bucket, nat>

  /** counts is None where there is nothing to show; scannedAt is a time in seconds. */
  datatype ScanResult = ScanResult(key: Key, ok: bool, counts: Option<Counts>, scannedAt: Option<real>)

  /** What the textfile says of one target. */
  datatype Entry = Entry(counts: Counts, at: Option<nat>)

  datatype Sample = Vuln(key: Key, bucket: Bucket, n: nat) | Stamp(key: Key, at: nat)

  // ----- lines -----

  function Row(counts: Counts, severity: string): seq<(Bucket, nat)> {
    var fixes := Sorted(set b | b in counts && b.0 == severity :: b.1);
    seq(|fixes|, i requires 0 <= i < |fixes| =>
      var bucket := (severity, fixes[i]); (bucket, if bucket in counts then counts[bucket] else 0))
  }

  function Rows(counts: Counts, severities: seq<string>): seq<(Bucket, nat)> {
    if severities == [] then [] else Row(counts, severities[0]) + Rows(counts, severities[1..])
  }

  /** `sorted(counts.items())` */
  function Items(counts: Counts): seq<(Bucket, nat)> {
    Rows(counts, Sorted(set b | b in counts :: b.0))
  }

  // `_labels` sorts by label name.
  function VulnLabels(key: Key, bucket: Bucket): seq<Label> {
    [Label("fix", bucket.1), Label("image", key.image), Label("severity", bucket.0), Label("target", key.target)]
  }

  function TargetLabels(key: Key): seq<Label> {
    [Label("image", key.image), Label("target", key.target)]
  }

  function VulnLine(key: Key, item: (Bucket, nat)): string {
    PrintSample(VULNS, VulnLabels(key, item.0), item.1)
  }

  function VulnLines(r: ScanResult): seq<string> {
    if r.counts.None? then []
    else
      var items := Items(r.counts.value);
      seq(|items|, i requires 0 <= i < |items| => VulnLine(r.key, items[i]))
  }

  function SuccessLine(r: ScanResult): string {
    PrintSample(SUCCESS, TargetLabels(r.key), if r.ok then 1 else 0)
  }

  /** `int(scanned_at)`, for a time not before the epoch. */
  function Truncated(t: real): nat {
    if t >= 0.0 then t.Floor else 0
  }

  function StampLines(r: ScanResult): seq<string> {
    if r.scannedAt.Some? && r.scannedAt.value != 0.0
    then [PrintSample(STAMPS, TargetLabels(r.key), Truncated(r.scannedAt.value))] else []
  }

  function AllVulnLines(rs: seq<ScanResult>): seq<string> {
    if rs == [] then [] else AllVulnLines(rs[..|rs| - 1]) + VulnLines(rs[|rs| - 1])
  }

  function AllStampLines(rs: seq<ScanResult>): seq<string> {
    if rs == [] then [] else AllStampLines(rs[..|rs| - 1]) + StampLines(rs[|rs| - 1])
  }

  function SuccessLines(rs: seq<ScanResult>): seq<string> {
    seq(|rs|, i requires 0 <= i < |rs| => SuccessLine(rs[i]))
  }

  function Head(name: string, help: string): seq<string> {
    ["# HELP " + name + " " + help, "# TYPE " + name + " gauge"]
  }

  const DB_NAME := "krg_cve_db_built_timestamp_seconds"

  /** What is the same for every target: the four metrics' help texts, and when the database was built. */
  datatype Page = Page(vulnHelp: string, successHelp: string, stampHelp: string, dbHelp: string, dbBuilt: Option<nat>)

  function DbLines(page: Page): seq<string> {
    if page.dbBuilt.Some? && page.dbBuilt.value != 0
    then Head(DB_NAME, page.dbHelp) + [DB_NAME + " " + PrintNat(page.dbBuilt.value)] else []
  }

  function Lines(rs: seq<ScanResult>, page: Page): seq<string> {
    Head(VULNS, page.vulnHelp) + AllVulnLines(rs) + (Head(SUCCESS, page.successHelp) + SuccessLines(rs))
    + (Head(STAMPS, page.stampHelp) + AllStampLines(rs)) + DbLines(page)
  }

  function Terminated(lines: seq<string>): string {
    if lines == [] then "" else lines[0] + "\n" + Terminated(lines[1..])
  }

  method RenderVulns(rs: seq<ScanResult>) returns (lines: seq<string>)
    ensures lines == AllVulnLines(rs)
  {
    lines := [];
    for i := 0 to |rs|
      invariant lines == AllVulnLines(rs[..i])
    {
      assert rs[..i + 1][..i] == rs[..i];
      lines := lines + VulnLines(rs[i]);
    }
    assert rs[..|rs|] == rs;
  }

  method RenderStamps(rs: seq<ScanResult>) returns (lines: seq<string>)
    ensures lines == AllStampLines(rs)
  {
    lines := [];
    for i := 0 to |rs|
      invariant lines == AllStampLines(rs[..i])
    {
      assert rs[..i + 1][..i] == rs[..i];
      lines := lines + StampLines(rs[i]);
    }
    assert rs[..|rs|] == rs;
  }

  /** `render_metrics`: the body of the textfile. */
  method RenderMetrics(rs: seq<ScanResult>, page: Page) returns (text: string)
    ensures text == Terminated(Lines(rs, page))
  {
    var vulns := RenderVulns(rs);
    var stamps := RenderStamps(rs);
    text := Terminated(Head(VULNS, page.vulnHelp) + vulns + (Head(SUCCESS, page.successHelp) + SuccessLines(rs))
                       + (Head(STAMPS, page.stampHelp) + stamps) + DbLines(page));
  }

  // ----- reading back -----

  /** The characters `str.splitlines` breaks at. */
  predicate IsBreak(c: char) {
    '\n' <= c <= '\r' || '\U{1c}' <= c <= '\U{1e}' || c == '\U{85}' || c == '\U{2028}' || c == '\U{2029}'
  }

  function BreakAt(s: string): (k: nat)
    ensures k <= |s| && (k < |s| ==> IsBreak(s[k]))
  {
    if s == "" || IsBreak(s[0]) then 0 else BreakAt(s[1..]) + 1
  }

  function SplitLines(s: string): seq<string> {
    if s == "" then []
    else
      var k := BreakAt(s);
      if k == |s| then [s]
      else
        var after := if s[k] == '\r' && k + 1 < |s| && s[k + 1] == '\n' then k + 2 else k + 1;
        [s[..k]] + SplitLines(s[after..])
  }

  /** `dict(pairs).get(key, "")`: the last pair wins. */
  function Lookup(labels: seq<Label>, key: string): string {
    if labels == [] then ""
    else if labels[|labels| - 1].key == key then labels[|labels| - 1].value
    else Lookup(labels[..|labels| - 1], key)
  }

  function ParseLine(line: string): Option<Sample> {
    var v, t := MatchSample(VULNS, line), MatchSample(STAMPS, line);
    if v.Some? then
      var labels, n := FindLabels(v.value.0), ParseNat(v.value.1);
      if n.None? then None
      else Some(Vuln(Key(Lookup(labels, "target"), Lookup(labels, "image")),
        (Lookup(labels, "severity"), Lookup(labels, "fix")), n.value))
    else if t.Some? then
      var labels, n := FindLabels(t.value.0), ParseNat(t.value.1);
      if n.None? then None else Some(Stamp(Key(Lookup(labels, "target"), Lookup(labels, "image")), n.value))
    else None
  }

  function Samples(lines: seq<string>): seq<Sample> {
    if lines == [] then []
    else
      var s := ParseLine(lines[|lines| - 1]);
      var init := Samples(lines[..|lines| - 1]);
      if s.Some? then init + [s.value] else init
  }

  function Noted(e: Option<Entry>, s: Sample): Entry {
    var now := if e.Some? then e.value else Entry(map[], None);
    match s
    case Vuln(_, bucket, n) => now.(counts := now.counts[bucket := n])
    case Stamp(_, at) => now.(at := Some(at))
  }

  function Find(prev: map<Key, Entry>, key: Key): Option<Entry> {
    if key in prev then Some(prev[key]) else None
  }

  function Collected(samples: seq<Sample>): map<Key, Entry> {
    if samples == [] then map[]
    else
      var prev, s := Collected(samples[..|samples| - 1]), samples[|samples| - 1];
      prev[s.key := Noted(Find(prev, s.key), s)]
  }

  /** `parse_previous` */
  method ParsePrevious(text: string) returns (prev: map<Key, Entry>)
    ensures prev == Published(text)
  {
    var lines := SplitLines(text);
    prev := map[];
    for i := 0 to |lines|
      invariant prev == Collected(Samples(lines[..i]))
    {
      assert lines[..i + 1][..i] == lines[..i];
      var s := ParseLine(lines[i]);
      if s.Some? {
        assert Samples(lines[..i + 1])[..|Samples(lines[..i])|] == Samples(lines[..i]);
        prev := prev[s.value.key := Noted(Find(prev, s.value.key), s.value)];
      }
    }
    assert lines[..|lines|] == lines;
  }

  function Published(text: string): map<Key, Entry> {
    Collected(Samples(SplitLines(text)))
  }

  // ----- the lines come back -----

  ghost predicate Unbroken(s: string) {
    forall c :: c in s ==> !IsBreak(c)
  }

  lemma {:induction false} BreakAfter(line: string, rest: string)
    requires Unbroken(line)
    ensures BreakAt(line + "\n" + rest) == |line|
  {
    var s := line + "\n" + rest;
    if line == "" {
      assert s[0] == '\n';
    } else {
      assert s[0] == line[0] && line[0] in line;
      assert s[1..] == line[1..] + "\n" + rest;
      BreakAfter(line[1..], rest);
    }
  }

  lemma {:induction false} SplitTerminated(lines: seq<string>)
    requires forall l :: l in lines ==> Unbroken(l)
    ensures SplitLines(Terminated(lines)) == lines
  {
    if lines != [] {
      var s, rest := Terminated(lines), Terminated(lines[1..]);
      assert s == lines[0] + "\n" + rest;
      BreakAfter(lines[0], rest);
      assert s[|lines[0]|] == '\n' && s[..|lines[0]|] == lines[0] && s[|lines[0]| + 1..] == rest;
      SplitTerminated(lines[1..]);
    }
  }

  lemma {:induction false} SamplesConcat(a: seq<string>, b: seq<string>)
    ensures Samples(a + b) == Samples(a) + Samples(b)
  {
    if b == [] {
      assert a + b == a;
    } else {
      SamplesConcat(a, b[..|b| - 1]);
      assert (a + b)[..|a + b| - 1] == a + b[..|b| - 1];
    }
  }

  lemma {:induction false} NoSamples(lines: seq<string>)
    requires forall l :: l in lines ==> ParseLine(l).None?
    ensures Samples(lines) == []
  {
    if lines != [] {
      NoSamples(lines[..|lines| - 1]);
      assert lines[|lines| - 1] in lines;
    }
  }
}
