/**
 What archiving and restoring come to when nothing goes wrong, why they do not chase each other,
 and what goes wrong once a hypothesis of ScratchMove is dropped.
*/
module ScratchFacts {
  import opened Wrappers
  import opened ScratchDisk
  import opened ScratchMove
  import opened ScratchSweep

  // ----- one is the inverse of the other -----

  /** Archive, later restore: the file is back with its content, mode and mtime, as root with its owner too. */
  lemma ArchiveThenRestore(d: Disk, later: Disk, p: string, keepCold: bool, asRoot: bool, runner: nat)
    requires IsFile(d, p) && Stamped(d)
    requires Later(Archived(d, p), later) && RestorableAt(later, p)
    requires ColdMatches(later, p, d.clock)   // nobody wrote to it through the link meanwhile
    ensures RestorableAt(Archived(d, p), p)
    ensures var f, d' := d.scratch[User(p)].data, Restored(later, p, keepCold, asRoot, runner);
      && IsFile(d', p)
      && var g := d'.scratch[User(p)].data;
      && g.content == f.content && g.mode == f.mode && g.mtime == f.mtime
      && g.owner == (if asRoot then f.owner else runner)
      && g.atime >= later.clock
      && (p in d'.cold <==> keepCold)
      && (forall q :: q != User(p) ==> (q in d'.scratch <==> q in later.scratch)
                                       && (q in later.scratch ==> d'.scratch[q] == later.scratch[q]))
      && (forall t :: t != p ==>
        (t in d'.cold <==> t in later.cold) && (t in later.cold ==> d'.cold[t] == later.cold[t]))
  {
  }

  // ----- candidates -----

  /** What the walk of `gather_candidates` sees at p. */
  function EntryAt(d: Disk, p: string): Entry
    requires User(p) in d.scratch
  {
    match d.scratch[User(p)]
    case File(f) => Entry(p, false, true, Some(|f.content|), f.atime, f.mtime, f.ctime)
    case Link(_) => Entry(p, false, false, Some(0), 0, 0, 0)
  }

  /** The entries of a walk over the disk, some of them perhaps excluded. */
  ghost predicate Walked(d: Disk, entries: seq<Entry>) {
    forall e :: e in entries ==> User(e.path) in d.scratch && e.(excluded := false) == EntryAt(d, e.path)
  }

  ghost predicate Gathered(cands: multiset<Cand>, p: string) {
    exists c :: c in cands && c.path == p
  }

  /** A candidate is a file last used before the cutoff. */
  lemma {:induction false} GatheredIsOldFile(d: Disk, entries: seq<Entry>, cutoff: int, p: string)
    requires Walked(d, entries) && Gathered(Candidates(entries, cutoff), p)
    ensures IsFile(d, p) && d.scratch[User(p)].data.ctime <= cutoff
  {
    var init, e := entries[..|entries| - 1], entries[|entries| - 1];
    var c :| c in Candidates(entries, cutoff) && c.path == p;
    assert e in entries;
    if c in Candidates(init, cutoff) {
      assert Gathered(Candidates(init, cutoff), p);
      GatheredIsOldFile(d, init, cutoff, p);
    }
  }

  /** `gather_candidates` never takes an archived path, nor a restored one before `minAge` has passed. */
  lemma NoPingPong(
    d: Disk, p: string, keepCold: bool, asRoot: bool, runner: nat, later: Disk, now: int, minAge: nat,
    entries: seq<Entry>)
    requires RestorableAt(d, p) && Stamped(d)
    requires Later(Restored(d, p, keepCold, asRoot, runner), later)
    requires minAge > 0 && now < d.clock + minAge
    ensures Walked(d, entries) ==> forall cutoff :: !Gathered(Candidates(entries, cutoff), p)
    ensures Walked(later, entries) ==> !Gathered(Candidates(entries, now - minAge), p)
  {
    if Walked(d, entries) {
      forall cutoff ensures !Gathered(Candidates(entries, cutoff), p) {
        if Gathered(Candidates(entries, cutoff), p) {
          GatheredIsOldFile(d, entries, cutoff, p);
        }
      }
    }
    if Walked(later, entries) && Gathered(Candidates(entries, now - minAge), p) {
      GatheredIsOldFile(later, entries, now - minAge, p);
      RestoredIsRecent(d, p, keepCold, asRoot, runner, later);
    }
  }

  lemma RestoredIsRecent(d: Disk, p: string, keepCold: bool, asRoot: bool, runner: nat, later: Disk)
    requires RestorableAt(d, p) && Stamped(d) && Later(Restored(d, p, keepCold, asRoot, runner), later)
    ensures IsFile(later, p) ==> later.scratch[User(p)].data.ctime >= d.clock
  {
    var d' := Restored(d, p, keepCold, asRoot, runner);
    if IsFile(later, p) && later.scratch[User(p)].data.ctime < d'.clock {
      assert Matches(later, p, later.scratch[User(p)].data.ctime);
    }
  }

  // ----- the guards cannot be dropped -----

  /**
   The rename of `restore_one` loses nothing exactly when what users see at p is what it copied: the
   link still in place, or a file with that very content. The code re-checks the cold file, never
   the link, so a file saved over the link while it copies is lost.
  */
  lemma RestoreLosesReplacedLink(d: Disk, truth: Truth, p: string, tst: FileData, asRoot: bool, runner: nat)
    requires Inv(d, truth) && Stamped(d) && p in truth && p in d.cold && d.cold[p] == tst
    ensures NoLoss(Returned(d, User(p), tst.content, tst, asRoot, runner), truth)
       <==> IsLink(d, p) || d.scratch[User(p)].data.content == tst.content
  {
  }

  /** The same for the swap of `archive_one` and an edit after its last look at the source. */
  lemma SwapLosesLateEdit(d: Disk, truth: Truth, n: nat, p: string)
    requires Inv(d, truth) && IsFile(d, p) && p in truth && p in d.cold
    ensures NoLoss(Swapped(d, n, p), truth) <==> ReadyToSwap(d, p)
  {
  }

  /**
   Without the pairs, a restore loses nothing exactly when the link is the archive location's own, or no
   user's link leads there: what the pairs make `restore_one` check.
  */
  lemma UnpairedRestoreLosesNothingIff(d: Disk, truth: Truth, link: Place, asRoot: bool, runner: nat)
    requires Inv(d, truth) && LinksIntoCold(d, link)
    ensures var t := d.scratch[link].target;
      NoLoss(RestoredUnpaired(d, link, asRoot, runner), truth) <==> link == User(t) || !(t in truth && IsLink(d, t))
  {
  }

  /**
   So a temporary link left by a crash is enough: archive p, crash after planting the link, archive p
   again, restore the directory's leftover link, and p is gone.
  */
  lemma UnpairedRestoreLosesData(d: Disk, truth: Truth, p: string, asRoot: bool, runner: nat)
    requires Inv(d, truth) && Stamped(d) && IsFile(d, p) && p in truth
    ensures var st := d.scratch[User(p)].data;
      var crashed := Planted(Published(d, p, st.content, st), p);
      var leftover := Temp(d.clock + 1);
      var archived := Archived(crashed, p);
      && Inv(archived, truth) && LinksIntoCold(archived, leftover)
      && !NoLoss(RestoredUnpaired(archived, leftover, asRoot, runner), truth)
  {
    var st := d.scratch[User(p)].data;
    var crashed := Planted(Published(d, p, st.content, st), p);
    UnpairedRestoreLosesNothingIff(Archived(crashed, p), truth, Temp(d.clock + 1), asRoot, runner);
  }

  /**
   Whatever links users have moved about, an undisturbed archive of p loses nothing exactly when every
   link to p's archive location stands for the very content that is about to be put there.
  */
  lemma ArchiveLosesNothingIff(d: Disk, truth: Truth, p: string)
    requires NoLoss(d, truth) && IsFile(d, p) && p in truth
    ensures NoLoss(Archived(d, p), truth) <==>
      forall q :: q in truth && IsLink(d, q) && d.scratch[User(q)].target == p ==>
        truth[q] == d.scratch[User(p)].data.content
  {
  }

  /** A user's `mv p q` of an archived link: q now points to p's archive location. */
  function LinkMoved(d: Disk, p: string, q: string): Disk
    requires IsLink(d, p)
  {
    d.(scratch := (d.scratch - {User(p)})[User(q) := d.scratch[User(p)]], clock := d.clock + 1)
  }

  /** A moved link's data is overwritten by the archive of a new file at its old name. */
  lemma MovedLinkIsOverwritten(d: Disk, truth: Truth, p: string, q: string, content: Content)
    requires Inv(d, truth) && IsLink(d, p) && p in truth && p != q && content != truth[p]
    ensures var moved := LinkMoved(d, p, q);
      var meant := (truth - {p})[q := truth[p]];
      var saved := Edited(moved, Write(p, content));
      && NoLoss(moved, meant) && !Canonical(moved)
      && NoLoss(saved, meant[p := content])
      && IsFile(saved, p) && !NoLoss(Archived(saved, p), meant[p := content])
  {
    var meant := (truth - {p})[q := truth[p]];
    ArchiveLosesNothingIff(Edited(LinkMoved(d, p, q), Write(p, content)), meant[p := content], p);
  }
}
