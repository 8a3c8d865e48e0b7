/**
 ansible/synology/roles/synology_quotas/files/apply_quotas.py: a quota is set in GiB and read back in
 whatever unit DSM displays, rounded to some digit; and what `do_share` reports over many runs when
 getting or setting the quota may fail.
*/
module Quota {
  import opened Wrappers

  const GIB: int := 0x4000_0000

  datatype Unit = MB | GB | TB | MiB | GiB | TiB | Unstated

  datatype Tag = Hard | Soft | Untagged

  /** What `synoquota --get` prints, already taken apart. */
  datatype Reading = NoQuota | Unparseable | Shown(value: real, unit: Unit, tag: Tag)

  /** Bytes in one displayed unit; a bare number is taken for GB. */
  function UnitBytes(unit: Unit): (r: real)
    ensures r > 0.0
  {
    match unit
    case MB => 1_000_000.0
    case GB => 1_000_000_000.0
    case Unstated => 1_000_000_000.0
    case TB => 1_000_000_000_000.0
    case MiB => 1_048_576.0
    case GiB => 1_073_741_824.0
    case TiB => 1_099_511_627_776.0
  }

  function Abs(x: real): real {
    if x < 0.0 then -x else x
  }

  // ----- rounding -----

  /** Python's `round`: to the nearest, a tie to the even one. */
  function Round(x: real): int {
    var f := x.Floor;
    var rest := x - f as real;
    if rest < 0.5 || (rest == 0.5 && f % 2 == 0) then f else f + 1
  }

  lemma RoundIsNearest(x: real, n: int)
    ensures Abs(Round(x) as real - x) <= 0.5
    ensures Round(x) == n <==> Abs(x - n as real) < 0.5 || (Abs(x - n as real) == 0.5 && n % 2 == 0)
  {
    var f := x.Floor;
    assert f as real <= x < f as real + 1.0;
    if n <= f - 1 {
      assert n as real + 1.0 <= f as real;
    } else if n >= f + 2 {
      assert n as real - 1.0 >= f as real + 1.0;
    }
  }

  lemma RoundIsMonotone(x: real, y: real)
    requires x <= y
    ensures Round(x) <= Round(y)
  {
    RoundIsNearest(x, Round(y));
    RoundIsNearest(y, Round(x));
  }

  /** How many units of `w` make up `b`, to the nearest. */
  function Count(b: real, w: real): int
    requires w > 0.0
  {
    Round(b / w)
  }

  function Amount(k: int, w: real): real {
    k as real * w
  }

  // ----- what DSM displays, and what is read of it -----

  /** A unit, and what one step of the last digit is worth in bytes: 10^10 for terabytes to two decimals. */
  datatype Format = Format(unit: Unit, step: real, softIsTagged: bool)

  /** The number shown: `bytes` rounded to whole steps, in the unit. */
  function ShownValue(bytes: int, f: Format): real
    requires f.step > 0.0
  {
    Amount(Count(bytes as real, f.step), f.step) / UnitBytes(f.unit)
  }

  /** A shown number times its unit. */
  function BytesOf(value: real, unit: Unit): real {
    value * UnitBytes(unit)
  }

  /** `_parse_current` on a number and its unit. */
  function ToGib(value: real, unit: Unit): int {
    Count(BytesOf(value, unit), GIB as real)
  }

  /** What a quota of `n` GiB is read back as. */
  function ReadBack(n: int, f: Format): int
    requires f.step > 0.0
  {
    ToGib(ShownValue(n * GIB, f), f.unit)
  }

  /** A step of at most one GiB. */
  predicate Fine(f: Format) {
    0.0 < f.step <= GIB as real
  }

  lemma Quotient(b: real, w: real)
    requires w > 0.0
    ensures b / w * w == b
  {
  }

  lemma TimesKeepsOrder(a: real, b: real, w: real)
    requires w > 0.0
    ensures a <= b <==> a * w <= b * w
  {
  }

  /** Half a unit either way, in the larger unit (x) and in the smaller (y). */
  lemma Within(x: real, y: real, w: real)
    requires w > 0.0 && y == x * w
    ensures Abs(x) <= 0.5 <==> Abs(y) <= 0.5 * w
    ensures Abs(x) < 0.5 <==> Abs(y) < 0.5 * w
  {
    TimesKeepsOrder(x, 0.5, w);
    TimesKeepsOrder(-0.5, x, w);
    TimesKeepsOrder(0.5, x, w);
    TimesKeepsOrder(x, -0.5, w);
    TimesKeepsOrder(x, 0.0, w);
    TimesKeepsOrder(0.0, x, w);
  }

  /** The same for the distance of `r` units from `b`, which is `q` units. */
  lemma WithinHalf(r: real, q: real, b: real, w: real)
    requires w > 0.0 && q * w == b
    ensures Abs(r - q) <= 0.5 <==> Abs(r * w - b) <= 0.5 * w
    ensures Abs(r - q) < 0.5 <==> Abs(r * w - b) < 0.5 * w
  {
    assert r * w - b == (r - q) * w;
    Within(r - q, r * w - b, w);
  }

  /** Rounding to steps of `w` moves `b` by half a step at most. */
  lemma HalfStep(b: real, w: real)
    requires w > 0.0
    ensures Abs(Amount(Count(b, w), w) - b) <= 0.5 * w
  {
    RoundIsNearest(b / w, 0);
    Quotient(b, w);
    WithinHalf(Count(b, w) as real, b / w, b, w);
  }

  lemma NearerThanHalf(x: real, n: int, g: real)
    requires g > 0.0
    ensures Abs(Amount(n, g) - x) < 0.5 * g ==> Count(x, g) == n
    ensures Count(x, g) == n ==> Abs(Amount(n, g) - x) <= 0.5 * g
  {
    Quotient(x, g);
    RoundsTo(x, x / g, n, g);
  }

  lemma RoundsTo(x: real, q: real, n: int, g: real)
    requires g > 0.0 && q * g == x
    ensures Abs(Amount(n, g) - x) < 0.5 * g ==> Round(q) == n
    ensures Round(q) == n ==> Abs(Amount(n, g) - x) <= 0.5 * g
  {
    RoundIsNearest(q, n);
    WithinHalf(n as real, q, x, g);
  }

  /** `n` units of `g`, rounded to steps of `w`, rounded back to units. */
  function ThereAndBack(n: int, w: real, g: real): int
    requires w > 0.0 && g > 0.0
  {
    Count(Amount(Count(Amount(n, g), w), w), g)
  }

  lemma ThereAndBackIsN(n: int, w: real, g: real)
    requires 0.0 < w <= g
    ensures ThereAndBack(n, w, g) == n
  {
    var b := Amount(n, g);
    if w == g {
      NearerThanHalf(b, n, g);
    } else {
      HalfStep(b, w);
      NearerThanHalf(Amount(Count(b, w), w), n, g);
    }
  }

  lemma ShownBytes(bytes: int, f: Format)
    requires f.step > 0.0
    ensures BytesOf(ShownValue(bytes, f), f.unit) == Amount(Count(bytes as real, f.step), f.step)
  {
    Quotient(Amount(Count(bytes as real, f.step), f.step), UnitBytes(f.unit));
  }

  lemma WholeAmount(n: int)
    ensures (n * GIB) as real == Amount(n, GIB as real)
  {
  }

  lemma ReadBackIsThereAndBack(n: int, f: Format)
    requires f.step > 0.0
    ensures ReadBack(n, f) == ThereAndBack(n, f.step, GIB as real)
  {
    WholeAmount(n);
    ShownBytes(n * GIB, f);
  }

  /** A fine display gives every whole number of GiB back. */
  lemma FineReadsBack(n: int, f: Format)
    requires Fine(f)
    ensures ReadBack(n, f) == n
  {
    ReadBackIsThereAndBack(n, f);
    ThereAndBackIsN(n, f.step, GIB as real);
  }

  ghost predicate AlwaysReadsBack(f: Format)
    requires f.step > 0.0
  {
    forall n: int :: n >= 1 ==> ReadsBack(n, f)
  }

  predicate ReadsBack(n: int, f: Format)
    requires f.step > 0.0
  {
    ReadBack(n, f) == n
  }

  ghost predicate KeptTo(n: int, w: real, g: real)
    requires w > 0.0 && g > 0.0
  {
    forall m: int :: 1 <= m <= n ==> Kept(m, w, g)
  }

  predicate Kept(n: int, w: real, g: real)
    requires w > 0.0 && g > 0.0
  {
    ThereAndBack(n, w, g) == n
  }

  /** If all sizes up to `n` are read back, no two are displayed alike, so the number of steps keeps up. */
  lemma {:induction false} StepsKeepUp(w: real, g: real, n: int)
    requires w > 0.0 && g > 0.0 && n >= 1 && KeptTo(n, w, g)
    ensures Count(Amount(n, g), w) >= n - 1
    decreases n
  {
    if n == 1 {
      Divided(0.0, Amount(1, g), w);
      RoundIsMonotone(0.0, Amount(1, g) / w);
    } else {
      StepsKeepUp(w, g, n - 1);
      MoreSteps(w, g, n);
      assert Kept(n, w, g) && Kept(n - 1, w, g);
    }
  }

  lemma MoreSteps(w: real, g: real, n: int)
    requires w > 0.0 && g > 0.0
    ensures Count(Amount(n - 1, g), w) <= Count(Amount(n, g), w)
  {
    TimesKeepsOrder((n - 1) as real, n as real, g);
    Divided(Amount(n - 1, g), Amount(n, g), w);
    RoundIsMonotone(Amount(n - 1, g) / w, Amount(n, g) / w);
  }

  lemma Divided(a: real, b: real, w: real)
    requires a <= b && w > 0.0
    ensures a / w <= b / w
  {
  }

  /** With steps above a unit there are too few of them for some size. */
  lemma FallsBehind(w: real, g: real) returns (n: int)
    requires 0.0 < g < w
    ensures n >= 1 && Count(Amount(n, g), w) < n - 1
  {
    var lack := w - g;
    var x := 2.0 * w / lack;
    Quotient(2.0 * w, lack);
    TimesKeepsOrder(0.0, x, lack);
    n := x.Floor + 1;
    Beyond(x, n as real, lack);
    var q := Amount(n, g) / w;
    Quotient(Amount(n, g), w);
    TwoShort(n as real, q, g, w);
    RoundIsNearest(q, 0);
  }

  lemma TwoShort(n: real, q: real, g: real, w: real)
    requires w > 0.0 && q * w == n * g && n * (w - g) > 2.0 * w
    ensures q < n - 2.0
  {
    assert n * (w - g) == n * w - n * g;
    assert (n - 2.0) * w == n * w - 2.0 * w;
    Beyond(q, n - 2.0, w);
  }

  lemma Beyond(a: real, b: real, w: real)
    requires w > 0.0
    ensures a < b <==> a * w < b * w
  {
    TimesKeepsOrder(b, a, w);
  }

  /** Every size is read back as what was set exactly when one step of the display is at most a GiB. */
  lemma ReadsBackIffFine(f: Format)
    requires f.step > 0.0
    ensures AlwaysReadsBack(f) <==> Fine(f)
  {
    if Fine(f) {
      forall n: int | n >= 1 ensures ReadsBack(n, f) {
        FineReadsBack(n, f);
      }
    } else {
      var n := FallsBehind(f.step, GIB as real);
      if AlwaysReadsBack(f) {
        SomeSizeIsLost(f, n);
      }
    }
  }

  lemma SomeSizeIsLost(f: Format, n: int)
    requires f.step > 0.0 && n >= 1 && Count(Amount(n, GIB as real), f.step) < n - 1
    ensures !AlwaysReadsBack(f)
  {
    if AlwaysReadsBack(f) {
      var w, g := f.step, GIB as real;
      forall m: int | 1 <= m <= n ensures Kept(m, w, g) {
        ReadBackIsThereAndBack(m, f);
        assert ReadsBack(m, f);
      }
      StepsKeepUp(w, g, n);
    }
  }

  /** Whole gigabytes are fine enough; of terabytes to two decimals, 1000 GiB show as 1.07 and are read as 997. */
  lemma GigabytesReadBack()
    ensures AlwaysReadsBack(Format(GB, 1_000_000_000.0, false)) &&
      AlwaysReadsBack(Format(Unstated, 1_000_000_000.0, false))
    ensures var tb := Format(TB, 10_000_000_000.0, false);
      ShownValue(1000 * GIB, tb) == 1.07 && ReadBack(1000, tb) == 997 && !AlwaysReadsBack(tb)
  {
    ReadsBackIffFine(Format(GB, 1_000_000_000.0, false));
    ReadsBackIffFine(Format(Unstated, 1_000_000_000.0, false));
    var tb := Format(TB, 10_000_000_000.0, false);
    NearerThanHalf((1000 * GIB) as real, 107, tb.step);
    ShownBytes(1000 * GIB, tb);
    NearerThanHalf(Amount(107, tb.step), 997, GIB as real);
    assert !ReadsBack(1000, tb);
  }

  // ----- one run -----

  datatype Limit = Limit(bytes: int, hard: bool)

  datatype Outcome = NoChange | WouldChange | Changed | Failed

  /** What becomes of `--get`: its exit status is not looked at, and empty output reads as "no quota". */
  datatype Fault = Truthful | Silent | Garbled

  /** What becomes of `--set` or `--clear`: it may fail with or without effect. */
  datatype End = End(done: bool, ok: bool)

  datatype Current = Nothing | Unknown | Current(gib: int, hard: bool)

  /** `_parse_current` */
  function ParseCurrent(r: Reading): Current {
    match r
    case NoQuota => Nothing
    case Unparseable => Unknown
    case Shown(value, unit, tag) => Current(ToGib(value, unit), tag == Hard)
  }

  function Displayed(l: Limit, f: Format): Reading
    requires f.step > 0.0
  {
    Shown(ShownValue(l.bytes, f), f.unit, if l.hard then Hard else if f.softIsTagged then Soft else Untagged)
  }

  /** DSM may choose its format by size; every one it uses is fine. */
  ghost predicate FineDisplay(show: int -> Format) {
    forall bytes :: Fine(show(bytes))
  }

  function Read(limit: Option<Limit>, fault: Fault, show: int -> Format): Reading
    requires forall bytes :: show(bytes).step > 0.0
  {
    match fault
    case Silent => NoQuota
    case Garbled => Unparseable
    case Truthful => if limit.None? then NoQuota else Displayed(limit.value, show(limit.value.bytes))
  }

  function Wanted(gib: int, hard: bool): Option<Limit> {
    if gib == 0 then None else Some(Limit(gib * GIB, hard))
  }

  predicate Drifts(gib: int, hard: bool, current: Current)
    requires current != Unknown
  {
    if gib == 0 then current != Nothing else current != Current(gib, hard)
  }

  class Share {
    var limit: Option<Limit>

    /** `do_share`, given what `--get` showed; `do_user` differs only in the commands' arguments. */
    method Apply(gib: int, hard: bool, check: bool, shown: Reading, end: End) returns (outcome: Outcome)
      modifies this
      ensures shown == Unparseable ==> outcome == Failed && limit == old(limit)
      ensures outcome == NoChange <==> shown != Unparseable && !Drifts(gib, hard, ParseCurrent(shown))
      ensures outcome == NoChange || outcome == WouldChange || check ==> limit == old(limit)
      ensures outcome == WouldChange ==> check
      ensures outcome == Changed <==>
        shown != Unparseable && Drifts(gib, hard, ParseCurrent(shown)) && !check && end.done && end.ok
      ensures outcome == Changed || outcome == Failed ==>
        limit == old(limit) || limit == Wanted(gib, hard)
      ensures !check && shown != Unparseable && Drifts(gib, hard, ParseCurrent(shown)) && end.done ==>
        limit == Wanted(gib, hard)
      ensures !end.done ==> limit == old(limit)
    {
      var current := ParseCurrent(shown);
      if current == Unknown {
        return Failed;
      }
      var drift := false;
      if gib == 0 && current != Nothing {
        drift := true;
      } else if gib != 0 && (current == Nothing || current.gib != gib || current.hard != hard) {
        drift := true;
      }
      if !drift {
        return NoChange;
      }
      if check {
        return WouldChange;
      }
      if end.done {
        if gib == 0 {
          limit := None;
        } else {
          limit := Some(Limit(gib * GIB, hard));
        }
      }
      return if end.done && end.ok then Changed else Failed;
    }

    /** Run after run of the role. */
    method ApplyAgain(h: History, runs: nat) returns (outcomes: seq<Outcome>)
      requires h.Valid() && limit == h.start
      modifies this
      ensures |outcomes| == runs && limit == LimitAt(h, runs)
      ensures forall k :: 0 <= k < runs ==> outcomes[k] == OutcomeAt(h, k)
      ensures forall i, k :: 0 <= i < k < runs && outcomes[i] == outcomes[k] == Changed ==> h.faults(k) == Silent
    {
      outcomes := [];
      for k := 0 to runs
        invariant |outcomes| == k && limit == LimitAt(h, k)
        invariant forall j :: 0 <= j < k ==> outcomes[j] == OutcomeAt(h, j)
      {
        var shown := Read(limit, h.faults(k), h.show);
        var outcome := Apply(h.gib, h.hard, false, shown, h.ends(k));
        outcomes := outcomes + [outcome];
      }
      forall i, k | 0 <= i < k < runs && outcomes[i] == outcomes[k] == Changed ensures h.faults(k) == Silent {
        ChangedAgainIff(h, i, k);
      }
    }
  }

  // ----- what one reading is worth -----

  predicate Whole(limit: Option<Limit>) {
    limit.Some? ==> limit.value.bytes % GIB == 0 && limit.value.bytes != 0
  }

  ghost predicate TellsTheTruth(limit: Option<Limit>, shown: Reading)
    requires shown != Unparseable
  {
    forall gib, hard :: DriftIsReal(limit, shown, gib, hard)
  }

  predicate DriftIsReal(limit: Option<Limit>, shown: Reading, gib: int, hard: bool)
    requires shown != Unparseable
  {
    Drifts(gib, hard, ParseCurrent(shown)) <==> limit != Wanted(gib, hard)
  }

  lemma TruthfulDrift(limit: Option<Limit>, show: int -> Format, gib: int, hard: bool)
    requires Whole(limit) && FineDisplay(show)
    ensures DriftIsReal(limit, Read(limit, Truthful, show), gib, hard)
  {
    if limit.Some? {
      var n := limit.value.bytes / GIB;
      assert limit.value.bytes == n * GIB && n != 0;
      FineParses(limit.value, n, show(limit.value.bytes));
    }
  }

  lemma FineParses(l: Limit, n: int, f: Format)
    requires Fine(f) && l.bytes == n * GIB
    ensures ParseCurrent(Displayed(l, f)) == Current(n, l.hard)
  {
    FineReadsBack(n, f);
    assert ParseCurrent(Displayed(l, f)).gib == ReadBack(n, f);
  }

  /** A readable answer is right about every wish exactly when it is not a silent failure over a set quota. */
  lemma TellsTheTruthIff(limit: Option<Limit>, fault: Fault, show: int -> Format)
    requires Whole(limit) && FineDisplay(show) && fault != Garbled
    ensures TellsTheTruth(limit, Read(limit, fault, show)) <==> !(fault == Silent && limit.Some?)
  {
    if fault == Silent && limit.Some? {
      assert !DriftIsReal(limit, NoQuota, 0, false);
    } else {
      assert Read(limit, fault, show) == Read(limit, Truthful, show);
      forall gib, hard ensures DriftIsReal(limit, Read(limit, fault, show), gib, hard) {
        TruthfulDrift(limit, show, gib, hard);
      }
    }
  }

  /** Whatever the quota, a truthful "no change" means one of the right type and within a GiB of the wanted size. */
  lemma NoDriftMeansClose(limit: Limit, f: Format, gib: int, hard: bool)
    requires Fine(f) && gib != 0 && !Drifts(gib, hard, ParseCurrent(Displayed(limit, f)))
    ensures limit.hard == hard && Abs(limit.bytes as real - (gib * GIB) as real) <= GIB as real
  {
    HalfStep(limit.bytes as real, f.step);
    ShownBytes(limit.bytes, f);
    NearerThanHalf(Amount(Count(limit.bytes as real, f.step), f.step), gib, GIB as real);
    WholeAmount(gib);
  }

  // ----- run after run -----

  /** One role's wish, the quota before its first run, and what becomes of the k-th run's commands. */
  datatype History = History(
    start: Option<Limit>, gib: int, hard: bool, show: int -> Format, faults: nat -> Fault, ends: nat -> End)
  {
    ghost predicate Valid() {
      FineDisplay(show)
    }
  }

  function LimitAt(h: History, k: nat): Option<Limit>
    requires h.Valid()
  {
    if k == 0 then h.start
    else
      var before := LimitAt(h, k - 1);
      var current := ParseCurrent(Read(before, h.faults(k - 1), h.show));
      if current != Unknown && Drifts(h.gib, h.hard, current) && h.ends(k - 1).done then Wanted(h.gib, h.hard)
      else before
  }

  function OutcomeAt(h: History, k: nat): Outcome
    requires h.Valid()
  {
    var current := ParseCurrent(Read(LimitAt(h, k), h.faults(k), h.show));
    if current == Unknown then Failed
    else if !Drifts(h.gib, h.hard, current) then NoChange
    else if h.ends(k).done && h.ends(k).ok then Changed
    else Failed
  }

  /**
   A run that reports a change found another quota than the wanted one; one that reports none found the
   wanted one.
  */
  predicate HonestAt(h: History, k: nat)
    requires h.Valid()
  {
    && (OutcomeAt(h, k) == Changed ==> LimitAt(h, k) != Wanted(h.gib, h.hard))
    && (OutcomeAt(h, k) == NoChange ==> LimitAt(h, k) == Wanted(h.gib, h.hard))
  }

  lemma {:induction false} StaysWhole(h: History, k: nat)
    requires h.Valid() && Whole(h.start)
    ensures Whole(LimitAt(h, k))
  {
    if k > 0 {
      StaysWhole(h, k - 1);
    }
  }

  lemma HonestWhenHeard(h: History, k: nat)
    requires h.Valid() && Whole(h.start) && h.faults(k) != Silent
    ensures HonestAt(h, k)
  {
    StaysWhole(h, k);
    if h.faults(k) == Truthful {
      TruthfulDrift(LimitAt(h, k), h.show, h.gib, h.hard);
    }
  }

  const NEVER: nat -> End := (k: nat) => End(false, false)
  const ALWAYS: nat -> End := (k: nat) => End(true, true)

  lemma {:induction false} NothingSet(h: History, k: nat)
    requires h.Valid() && h.ends == NEVER
    ensures LimitAt(h, k) == h.start
  {
    if k > 0 {
      NothingSet(h, k - 1);
    }
  }

  lemma {:induction false} WantedStays(h: History, k: nat)
    requires h.Valid() && h.start == Wanted(h.gib, h.hard)
    ensures LimitAt(h, k) == h.start
  {
    if k > 0 {
      WantedStays(h, k - 1);
    }
  }

  /** A silent failure of `--get` in run k, and a quota that makes that run's report wrong. */
  lemma SilentGetMisleads(gib: int, hard: bool, show: int -> Format, faults: nat -> Fault, k: nat) returns (h: History)
    requires FineDisplay(show) && faults(k) == Silent
    ensures h.Valid() && Whole(h.start) && h.gib == gib && h.hard == hard && h.show == show && h.faults == faults
    ensures !HonestAt(h, k)
    ensures OutcomeAt(h, k) == if gib == 0 then NoChange else Changed
  {
    if gib == 0 {
      h := History(Some(Limit(GIB, hard)), gib, hard, show, faults, NEVER);
      NothingSet(h, k);
    } else {
      h := History(Wanted(gib, hard), gib, hard, show, faults, ALWAYS);
      WantedStays(h, k);
    }
  }

  ghost predicate HonestThrough(h: History, n: nat)
    requires h.Valid()
  {
    forall k :: 0 <= k < n ==> HonestAt(h, k)
  }

  ghost predicate AlwaysHonest(gib: int, hard: bool, show: int -> Format, faults: nat -> Fault, n: nat)
    requires FineDisplay(show)
  {
    forall start, ends :: Whole(start) ==> HonestThrough(History(start, gib, hard, show, faults, ends), n)
  }

  /**
   Whatever quota was set before and however setting fails: every report is right exactly when no
   `--get` fails silently.
  */
  lemma HonestIffNoSilentGet(gib: int, hard: bool, show: int -> Format, faults: nat -> Fault, n: nat)
    requires FineDisplay(show)
    ensures AlwaysHonest(gib, hard, show, faults, n) <==> forall k :: 0 <= k < n ==> faults(k) != Silent
  {
    if forall k :: 0 <= k < n ==> faults(k) != Silent {
      forall start, ends | Whole(start) ensures HonestThrough(History(start, gib, hard, show, faults, ends), n) {
        forall k | 0 <= k < n ensures HonestAt(History(start, gib, hard, show, faults, ends), k) {
          HonestWhenHeard(History(start, gib, hard, show, faults, ends), k);
        }
      }
    } else {
      var k :| 0 <= k < n && faults(k) == Silent;
      var h := SilentGetMisleads(gib, hard, show, faults, k);
      assert h == History(h.start, gib, hard, show, faults, h.ends) && !HonestThrough(h, n);
    }
  }

  lemma {:induction false} WantedOnceChanged(h: History, i: nat, k: nat)
    requires h.Valid() && i < k && OutcomeAt(h, i) == Changed
    ensures LimitAt(h, k) == Wanted(h.gib, h.hard)
    decreases k
  {
    if i < k - 1 {
      WantedOnceChanged(h, i, k - 1);
    }
  }

  /**
   A later run changes the quota again exactly when its `--get` fails silently, there is one to set,
   and setting works.
  */
  lemma ChangedAgainIff(h: History, i: nat, k: nat)
    requires h.Valid() && i < k && OutcomeAt(h, i) == Changed
    ensures OutcomeAt(h, k) == Changed <==> h.faults(k) == Silent && h.gib != 0 && h.ends(k) == End(true, true)
  {
    WantedOnceChanged(h, i, k);
    if h.faults(k) == Truthful {
      TruthfulDrift(LimitAt(h, k), h.show, h.gib, h.hard);
    }
  }

  /** No quota, set, and set again because the second `--get` printed nothing. */
  lemma SilentGetChangesTwice(gib: int, hard: bool, show: int -> Format) returns (h: History)
    requires gib != 0 && FineDisplay(show)
    ensures h.Valid() && h.gib == gib && h.start == None && OutcomeAt(h, 0) == Changed && OutcomeAt(h, 1) == Changed
  {
    h := History(None, gib, hard, show, (k: nat) => if k == 0 then Truthful else Silent, ALWAYS);
    ChangedAgainIff(h, 0, 1);
  }
}
