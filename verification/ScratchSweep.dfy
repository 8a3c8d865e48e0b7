/**
 Which files nix/modules/scratch/scratch-overflow.py demotes, in what order, and how full the
 pool is afterwards: `gather_candidates` and the TTL and capacity passes of `main`.
*/
module ScratchSweep {
  import opened Wrappers

  /** One directory entry as the walk sees it; `size` is None where lstat fails. */
  datatype Entry = Entry(path: string, excluded: bool, regular: bool, size: Option<nat>, atime: int, mtime: int,
    ctime: int)

  datatype Cand = Cand(lastUse: int, size: nat, path: string)

  function Max(a: int, b: int): int {
    if a >= b then a else b
  }

  predicate Eligible(e: Entry, cutoff: int) {
    && !e.excluded && e.size.Some? && e.regular && e.size.value > 0
    && Max(e.atime, Max(e.mtime, e.ctime)) <= cutoff
  }

  function CandOf(e: Entry): Cand
    requires e.size.Some?
  {
    Cand(Max(e.atime, Max(e.mtime, e.ctime)), e.size.value, e.path)
  }

  /** The sort key (last use, -size): coldest first, of equally cold the bigger first. */
  predicate Before(a: Cand, b: Cand) {
    a.lastUse < b.lastUse || (a.lastUse == b.lastUse && a.size >= b.size)
  }

  ghost predicate Ordered(cs: seq<Cand>) {
    forall i, j :: 0 <= i < j < |cs| ==> Before(cs[i], cs[j])
  }

  /** Where `c` goes in a sorted list: after everything it is not strictly before. */
  function Place(cs: seq<Cand>, c: Cand): (k: nat)
    ensures k <= |cs|
    ensures Ordered(cs) ==>
      (forall i :: 0 <= i < k ==> Before(cs[i], c)) && (forall i :: k <= i < |cs| ==> Before(c, cs[i]))
  {
    if cs == [] || !Before(cs[0], c) then 0 else Place(cs[1..], c) + 1
  }

  method Insert(cs: seq<Cand>, c: Cand) returns (r: seq<Cand>)
    requires Ordered(cs)
    ensures Ordered(r) && multiset(r) == multiset(cs) + multiset{c}
  {
    var k := Place(cs, c);
    assert cs == cs[..k] + cs[k..];
    r := cs[..k] + [c] + cs[k..];
    InsertOrdered(cs, c, k);
  }

  lemma InsertOrdered(cs: seq<Cand>, c: Cand, k: nat)
    requires Ordered(cs) && k <= |cs|
    requires (forall i :: 0 <= i < k ==> Before(cs[i], c)) && (forall i :: k <= i < |cs| ==> Before(c, cs[i]))
    ensures Ordered(cs[..k] + [c] + cs[k..])
  {
  }

  /** `gather_candidates`: every eligible file once, coldest first. */
  method GatherCandidates(entries: seq<Entry>, cutoff: int) returns (cands: seq<Cand>)
    ensures Ordered(cands)
    ensures multiset(cands) == Candidates(entries, cutoff)
  {
    cands := [];
    for n := 0 to |entries|
      invariant Ordered(cands) && multiset(cands) == Candidates(entries[..n], cutoff)
    {
      assert entries[..n + 1][..n] == entries[..n];
      if Eligible(entries[n], cutoff) {
        cands := Insert(cands, CandOf(entries[n]));
      }
    }
    assert entries[..|entries|] == entries;
  }

  ghost function Candidates(entries: seq<Entry>, cutoff: int): multiset<Cand> {
    if entries == [] then multiset{}
    else
      var e := entries[|entries| - 1];
      Candidates(entries[..|entries| - 1], cutoff) + (if Eligible(e, cutoff) then multiset{CandOf(e)} else multiset{})
  }

  // ----- the two passes -----

  datatype Reason = Ttl | Capacity

  /** Idle past the TTL, if there is one. */
  predicate Expired(c: Cand, ttl: Option<int>) {
    ttl.Some? && c.lastUse < ttl.value
  }

  function Select(cs: seq<Cand>, ttl: Option<int>, expired: bool): seq<Cand> {
    if cs == [] then []
    else (if Expired(cs[0], ttl) == expired then [cs[0]] else []) + Select(cs[1..], ttl, expired)
  }

  function Sum(cs: seq<Cand>, got: Cand -> nat): nat {
    if cs == [] then 0 else Sum(cs[..|cs| - 1], got) + got(cs[|cs| - 1])
  }

  function Percent(size: nat, free: int): real {
    if size == 0 then 0.0 else 100.0 * (size - free) as real / size as real
  }

  /** `max(0, int(size * (1 - low/100) - free))` */
  function ToFree(size: nat, free: int, low: real): nat {
    var x := size as real * (1.0 - low / 100.0) - free as real;
    if x <= 0.0 then 0 else x.Floor
  }

  /** How many of `cs` the capacity pass attempts. */
  function Attempts(cs: seq<Cand>, got: Cand -> nat, toFree: nat, n: nat): (k: nat)
    requires n <= |cs|
    ensures n <= k <= |cs|
    decreases |cs| - n
  {
    if n == |cs| || Sum(cs[..n], got) >= toFree then n else Attempts(cs, got, toFree, n + 1)
  }

  datatype Swept = Swept(attempts: seq<(Cand, Reason)>, freed: nat, toFree: nat, capFreed: nat)

  function Tag(cs: seq<Cand>, reason: Reason): seq<(Cand, Reason)> {
    seq(|cs|, i requires 0 <= i < |cs| => (cs[i], reason))
  }

  /** What the capacity pass must free; None when the pool is below the high-water mark. */
  function Goal(size: nat, free: int, high: real, low: real): Option<nat> {
    if Percent(size, free) >= high then Some(ToFree(size, free, low)) else None
  }

  /** The outcome of the passes, given what the capacity pass must free. */
  function Passes(cands: seq<Cand>, ttl: Option<int>, goal: Option<nat>, got: Cand -> nat): Swept {
    var expired, rest := Select(cands, ttl, true), Select(cands, ttl, false);
    match goal
    case Some(toFree) =>
      var k := Attempts(rest, got, toFree, 0);
      Swept(Tag(expired, Ttl) + Tag(rest[..k], Capacity), Sum(expired, got) + Sum(rest[..k], got), toFree,
        Sum(rest[..k], got))
    case None => Swept(Tag(expired, Ttl), Sum(expired, got), 0, 0)
  }

  /** One pass over the list; `stopAt` is how much the capacity pass wants. */
  method Pass(cs: seq<Cand>, got: Cand -> nat, stopAt: Option<nat>, reason: Reason)
    returns (attempts: seq<(Cand, Reason)>, freed: nat)
    ensures stopAt.None? ==> attempts == Tag(cs, reason) && freed == Sum(cs, got)
    ensures stopAt.Some? ==> var k := Attempts(cs, got, stopAt.value, 0);
      attempts == Tag(cs[..k], reason) && freed == Sum(cs[..k], got)
  {
    attempts, freed := [], 0;
    var n := 0;
    while n < |cs| && !(stopAt.Some? && freed >= stopAt.value)
      invariant 0 <= n <= |cs|
      invariant attempts == Tag(cs[..n], reason) && freed == Sum(cs[..n], got)
      invariant stopAt.Some? ==> Attempts(cs, got, stopAt.value, 0) == Attempts(cs, got, stopAt.value, n)
    {
      assert cs[..n + 1][..n] == cs[..n];
      attempts := attempts + [(cs[n], reason)];
      freed := freed + got(cs[n]);
      n := n + 1;
    }
    assert n == |cs| ==> cs[..n] == cs;
  }

  /**
   The passes of `main`. `got` is what each `archive_one` returns (0 for a skip), `freeAfterTtl`
   what `zpool list` says after the TTL pass; a dry run estimates it instead.
  */
  method Sweep(cands: seq<Cand>, ttl: Option<int>, size: nat, free: int, freeAfterTtl: int,
               high: real, low: real, got: Cand -> nat, dryRun: bool) returns (r: Swept)
    ensures r == Passes(cands, ttl,
      Goal(size, if dryRun then free + Sum(Select(cands, ttl, true), got) else freeAfterTtl, high, low), got)
  {
    var expired, rest := Select(cands, ttl, true), Select(cands, ttl, false);
    var attempts, freed := Pass(expired, got, None, Ttl);
    var want := Goal(size, if dryRun then free + freed else freeAfterTtl, high, low);
    r := Demote(rest, attempts, freed, want, got);
  }

  /** The capacity pass, after a TTL pass that made `attempts` and freed `freed`. */
  method Demote(rest: seq<Cand>, attempts: seq<(Cand, Reason)>, freed: nat, want: Option<nat>, got: Cand -> nat)
    returns (r: Swept)
    ensures want.None? ==> r == Swept(attempts, freed, 0, 0)
    ensures want.Some? ==> var part := rest[..Attempts(rest, got, want.value, 0)];
      r == Swept(attempts + Tag(part, Capacity), freed + Sum(part, got), want.value, Sum(part, got))
  {
    if want.Some? {
      var more, capFreed := Pass(rest, got, want, Capacity);
      return Swept(attempts + more, freed + capFreed, want.value, capFreed);
    }
    return Swept(attempts, freed, 0, 0);
  }

  // ----- what the passes promise -----

  lemma {:induction false} SelectNone(cs: seq<Cand>, ttl: Option<int>, expired: bool)
    requires forall i :: 0 <= i < |cs| ==> Expired(cs[i], ttl) != expired
    ensures Select(cs, ttl, expired) == [] && Select(cs, ttl, !expired) == cs
  {
    if cs != [] {
      SelectNone(cs[1..], ttl, expired);
    }
  }

  /** The TTL pass and the capacity pass share out the sorted candidates: cold end and the rest. */
  lemma {:induction false} PassesSplitTheList(cs: seq<Cand>, ttl: Option<int>)
    requires Ordered(cs)
    ensures Select(cs, ttl, true) + Select(cs, ttl, false) == cs
  {
    if cs != [] {
      if Expired(cs[0], ttl) {
        PassesSplitTheList(cs[1..], ttl);
      } else {
        forall i | 0 <= i < |cs| ensures !Expired(cs[i], ttl) {
          if i > 0 {
            assert Before(cs[0], cs[i]);
          }
        }
        SelectNone(cs, ttl, true);
      }
    }
  }

  lemma {:induction false} SumMore(cs: seq<Cand>, got: Cand -> nat, i: nat, j: nat)
    requires i <= j <= |cs|
    ensures Sum(cs[..i], got) <= Sum(cs[..j], got)
  {
    if i < j {
      SumMore(cs, got, i, j - 1);
      assert cs[..j][..j - 1] == cs[..j - 1];
    }
  }

  /** The attempts stop at the first one that frees enough, or at the end of the list. */
  lemma {:induction false} AttemptsMinimal(cs: seq<Cand>, got: Cand -> nat, toFree: nat, n: nat)
    requires n <= |cs|
    ensures var k := Attempts(cs, got, toFree, n);
      && (Sum(cs[..k], got) >= toFree || k == |cs|)
      && forall i :: n <= i < k ==> Sum(cs[..i], got) < toFree
    decreases |cs| - n
  {
    if n < |cs| && Sum(cs[..n], got) < toFree {
      AttemptsMinimal(cs, got, toFree, n + 1);
    }
  }

  /**
   The capacity pass takes a prefix of its list; without the last attempt it would miss its mark
   (so that attempt did free something if the mark was reached), and missing it means the list ran out.
  */
  lemma CapacityPassIsMinimal(cs: seq<Cand>, got: Cand -> nat, toFree: nat)
    ensures var k := Attempts(cs, got, toFree, 0);
      && (k > 0 ==> Sum(cs[..k - 1], got) < toFree)
      && (k > 0 && Sum(cs[..k], got) >= toFree ==> got(cs[k - 1]) > 0)
      && (Sum(cs[..k], got) < toFree ==> k == |cs|)
  {
    var k := Attempts(cs, got, toFree, 0);
    AttemptsMinimal(cs, got, toFree, 0);
    if k > 0 {
      assert cs[..k][..k - 1] == cs[..k - 1];
      assert cs[..k][k - 1] == cs[k - 1];
    }
  }

  /**
   If enough was freed and the pool grew by at least that much, it ends below the low-water mark, to
   within the byte that int() drops; if not enough was freed, every capacity candidate was attempted.
  */
  lemma CapacityBound(cands: seq<Cand>, ttl: Option<int>, size: nat, free: int, freeAtEnd: int,
                      high: real, low: real, got: Cand -> nat)
    requires Percent(size, free) >= high
    ensures var r := Passes(cands, ttl, Goal(size, free, high, low), got);
      if r.capFreed >= r.toFree then
        freeAtEnd >= free + r.capFreed ==> (size - freeAtEnd) as real < size as real * low / 100.0 + 1.0
      else r.attempts == Tag(Select(cands, ttl, true), Ttl) + Tag(Select(cands, ttl, false), Capacity)
  {
    var rest := Select(cands, ttl, false);
    var r := Passes(cands, ttl, Goal(size, free, high, low), got);
    CapacityPassIsMinimal(rest, got, r.toFree);
    if r.capFreed >= r.toFree {
      if freeAtEnd >= free + r.capFreed {
        BelowLow(size, free, freeAtEnd, low);
      }
    } else {
      assert rest[..|rest|] == rest;
    }
  }

  lemma BelowLow(size: nat, free: int, freeAtEnd: int, low: real)
    requires freeAtEnd >= free + ToFree(size, free, low)
    ensures (size - freeAtEnd) as real < size as real * low / 100.0 + 1.0
  {
  }

  lemma {:induction false} SumAgrees(cs: seq<Cand>, got: Cand -> nat, got': Cand -> nat)
    requires forall c :: c in cs ==> got(c) == got'(c)
    ensures Sum(cs, got) == Sum(cs, got')
  {
    if cs != [] {
      SumAgrees(cs[..|cs| - 1], got, got');
    }
  }

  lemma {:induction false} AttemptsAgree(cs: seq<Cand>, got: Cand -> nat, got': Cand -> nat, toFree: nat, n: nat)
    requires n <= |cs| && forall c :: c in cs ==> got(c) == got'(c)
    ensures Attempts(cs, got, toFree, n) == Attempts(cs, got', toFree, n)
    decreases |cs| - n
  {
    SumAgrees(cs[..n], got, got');
    if n < |cs| {
      AttemptsAgree(cs, got, got', toFree, n + 1);
    }
  }

  lemma {:induction false} SelectIsPart(cs: seq<Cand>, ttl: Option<int>, expired: bool)
    ensures forall c :: c in Select(cs, ttl, expired) ==> c in cs
  {
    if cs != [] {
      SelectIsPart(cs[1..], ttl, expired);
    }
  }

  /**
   A dry run counts what each file occupies (`occupies`); if every real archive frees that (`got`) and
   the pool grows by exactly it, the real run makes the attempts the dry run listed, in the same order.
  */
  lemma DryRunPredicts(cands: seq<Cand>, ttl: Option<int>, size: nat, free: int, freeAfterTtl: int,
                       high: real, low: real, occupies: Cand -> nat, got: Cand -> nat)
    requires forall c :: c in cands ==> got(c) == occupies(c)
    requires freeAfterTtl == free + Sum(Select(cands, ttl, true), got)
    ensures Passes(cands, ttl, Goal(size, free + Sum(Select(cands, ttl, true), occupies), high, low), occupies)
         == Passes(cands, ttl, Goal(size, freeAfterTtl, high, low), got)
  {
    var expired, rest := Select(cands, ttl, true), Select(cands, ttl, false);
    SelectIsPart(cands, ttl, true);
    SelectIsPart(cands, ttl, false);
    SumAgrees(expired, got, occupies);
    var goal := Goal(size, freeAfterTtl, high, low);
    if goal.Some? {
      AttemptsAgree(rest, got, occupies, goal.value, 0);
      SumAgrees(rest[..Attempts(rest, got, goal.value, 0)], got, occupies);
    }
  }
}
