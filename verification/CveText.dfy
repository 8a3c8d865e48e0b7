/**
 One line of the Prometheus textfile of nix/modules/security/cve-scan/cve-scan.py, printed by
 `render_metrics` and read back by the regular expressions of `parse_previous`, character by
 character.
*/
module CveText {
  import opened Decimal
  import opened Wrappers

  // ----- labels: ,-joined k="v", found again by (\w+)="([^"]*)" -----

  datatype Label = Label(key: string, value: string)

  predicate IsWord(c: char) {
    'a' <= c <= 'z' || 'A' <= c <= 'Z' || '0' <= c <= '9' || c == '_'
  }

  predicate Printable(l: Label) {
    l.key != "" && (forall c :: c in l.key ==> IsWord(c)) && '"' !in l.value
  }

  function PrintLabels(labels: seq<Label>): string {
    if labels == [] then ""
    else
      var l := labels[0];
      l.key + "=\"" + l.value + "\"" + (if |labels| == 1 then "" else "," + PrintLabels(labels[1..]))
  }

  /** The longest run of word characters at the start. */
  function WordRun(s: string): (n: nat)
    ensures n <= |s|
  {
    if s == "" || !IsWord(s[0]) then 0 else WordRun(s[1..]) + 1
  }

  function Quote(s: string): Option<nat> {
    if s == "" then None
    else if s[0] == '"' then Some(0)
    else
      var q := Quote(s[1..]);
      if q.None? then None else Some(q.value + 1)
  }

  lemma {:induction false} QuoteInRange(s: string)
    ensures Quote(s).Some? ==> Quote(s).value < |s|
  {
    if s != "" {
      QuoteInRange(s[1..]);
    }
  }

  /** A match of the expression at the start: the label, and how long it is. */
  function LabelAt(s: string): (r: Option<(Label, nat)>)
    ensures r.Some? ==> 0 < r.value.1 <= |s|
  {
    var w := WordRun(s);
    if w > 0 && w + 2 <= |s| && s[w] == '=' && s[w + 1] == '"' then
      QuoteInRange(s[w + 2..]);
      var q := Quote(s[w + 2..]);
      if q.Some? then Some((Label(s[..w], s[w + 2..w + 2 + q.value]), w + 3 + q.value)) else None
    else None
  }

  /** `re.findall`: leftmost matches, one after another. */
  function FindLabels(s: string): seq<Label> {
    if s == "" then []
    else
      var m := LabelAt(s);
      if m.Some? then [m.value.0] + FindLabels(s[m.value.1..]) else FindLabels(s[1..])
  }

  lemma {:induction false} WordRunStops(word: string, rest: string)
    requires (forall c :: c in word ==> IsWord(c)) && (rest == "" || !IsWord(rest[0]))
    ensures WordRun(word + rest) == |word|
  {
    if word == "" {
      assert word + rest == rest;
    } else {
      assert (word + rest)[0] == word[0] && word[0] in word;
      assert (word + rest)[1..] == word[1..] + rest;
      WordRunStops(word[1..], rest);
    }
  }

  lemma {:induction false} QuoteStops(value: string, rest: string)
    requires '"' !in value
    ensures Quote(value + "\"" + rest) == Some(|value|)
  {
    var s := value + "\"" + rest;
    if value == "" {
      assert s[0] == '"';
    } else {
      assert s[0] == value[0] && value[0] in value;
      assert s[1..] == value[1..] + "\"" + rest;
      QuoteStops(value[1..], rest);
    }
  }

  lemma LabelAtPrinted(l: Label, rest: string)
    requires Printable(l)
    ensures var s := l.key + "=\"" + l.value + "\"" + rest;
      LabelAt(s) == Some((l, |s| - |rest|)) && s[|s| - |rest|..] == rest
  {
    var s := l.key + "=\"" + l.value + "\"" + rest;
    var tail := "=\"" + l.value + "\"" + rest;
    assert s == l.key + tail;
    WordRunStops(l.key, tail);
    QuoteStops(l.value, rest);
    LabelParts(l.key, l.value, rest);
  }

  lemma LabelParts(key: string, value: string, rest: string)
    ensures var s, k := key + "=\"" + value + "\"" + rest, |key|;
      && s[..k] == key && s[k] == '=' && s[k + 1] == '"' && s[k + 2..] == value + "\"" + rest
      && s[k + 2..k + 2 + |value|] == value && s[|s| - |rest|..] == rest
  {
  }

  /** Printed labels are found again, all of them, in order. */
  lemma {:induction false} LabelsRoundTrip(labels: seq<Label>)
    requires forall l :: l in labels ==> Printable(l)
    ensures FindLabels(PrintLabels(labels)) == labels
  {
    if labels != [] {
      var l, rest := labels[0], if |labels| == 1 then "" else "," + PrintLabels(labels[1..]);
      var s := PrintLabels(labels);
      assert s == l.key + "=\"" + l.value + "\"" + rest;
      LabelAtPrinted(l, rest);
      LabelsRoundTrip(labels[1..]);
      assert FindLabels(s) == [l] + FindLabels(rest);
      if |labels| > 1 {
        assert WordRun(rest) == 0;
        assert rest[1..] == PrintLabels(labels[1..]);
        assert FindLabels(rest) == FindLabels(rest[1..]);
      }
    }
  }

  // ----- a sample line: name{labels} value -----

  const VULNS := "krg_cve_vulnerabilities"
  const STAMPS := "krg_cve_scan_timestamp_seconds"
  const SUCCESS := "krg_cve_scan_success"

  predicate IsSpace(c: char) {
    || c == ' ' || '\t' <= c <= '\r' || '\U{1c}' <= c <= '\U{1f}' || c == '\U{85}' || c == '\U{a0}' || c == '\U{1680}'
    || '\U{2000}' <= c <= '\U{200a}' || c == '\U{2028}' || c == '\U{2029}' || c == '\U{202f}' || c == '\U{205f}' ||
      c == '\U{3000}'
  }

  function PrintSample(name: string, labels: seq<Label>, value: nat): string {
    name + "{" + PrintLabels(labels) + "} " + PrintNat(value)
  }

  function LastSpace(s: string): Option<nat> {
    if s == "" then None
    else if IsSpace(s[|s| - 1]) then Some(|s| - 1)
    else LastSpace(s[..|s| - 1])
  }

  lemma {:induction false} LastSpaceIn(s: string)
    ensures LastSpace(s).Some? ==> LastSpace(s).value < |s|
  {
    if s != "" {
      LastSpaceIn(s[..|s| - 1]);
    }
  }

  /** `^name\{(.*)\} (\S+)$`: the value is what follows the last white space. */
  function MatchSample(name: string, line: string): Option<(string, string)> {
    if !(name + "{" <= line) then None
    else
      var rest := line[|name| + 1..];
      LastSpaceIn(rest);
      var k := LastSpace(rest);
      if k.None? || k.value == 0 || rest[k.value] != ' ' || rest[k.value - 1] != '}' || k.value + 1 == |rest| then None
      else Some((rest[..k.value - 1], rest[k.value + 1..]))
  }

  lemma {:induction false} LastSpaceBefore(s: string, value: string)
    requires forall c :: c in value ==> !IsSpace(c)
    ensures LastSpace(s + " " + value) == Some(|s|)
  {
    var t := s + " " + value;
    if value == "" {
      assert t[|t| - 1] == ' ';
    } else {
      assert t[|t| - 1] == value[|value| - 1] && value[|value| - 1] in value;
      assert t[..|t| - 1] == s + " " + value[..|value| - 1];
      LastSpaceBefore(s, value[..|value| - 1]);
    }
  }

  lemma SampleMatches(name: string, labels: seq<Label>, value: nat)
    ensures MatchSample(name, PrintSample(name, labels, value)) == Some((PrintLabels(labels), PrintNat(value)))
  {
    var line, head, number := PrintSample(name, labels, value), PrintLabels(labels) + "}", PrintNat(value);
    assert name + "{" <= line;
    assert line[|name| + 1..] == head + " " + number;
    NumberHasNoSpace(value);
    LastSpaceBefore(head, number);
    RestParts(PrintLabels(labels), number);
  }

  lemma NumberHasNoSpace(n: nat)
    ensures forall c :: c in PrintNat(n) ==> !IsSpace(c)
  {
  }

  lemma RestParts(labels: string, number: string)
    ensures var rest, k := labels + "}" + " " + number, |labels| + 1;
      rest[k] == ' ' && rest[k - 1] == '}' && rest[..k - 1] == labels && rest[k + 1..] == number
  {
  }

  /** A metric is not taken for another whose name differs before its end. */
  lemma OtherName(name: string, other: string, line: string, i: nat)
    requires other <= line && i < |other| && i <= |name| && (name + "{")[i] != other[i]
    ensures MatchSample(name, line).None?
  {
    assert line[i] == other[i];
  }
}
